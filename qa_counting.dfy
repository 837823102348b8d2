/**
 The exact-match categoriser that counts sentinel matches
 (SpanBERTonQA/code/predicitonn_exp.py): each case goes to the exact
 matches when its trimmed prediction is one of its trimmed answers, and to
 the mismatches otherwise; exact matches whose prediction is the sentinel
 "cannotanswer" are also counted.
 */
module CountingCategorizer {
  import opened QaData
  import Sequences

  function ExactMatches(cases: seq<Case>, preds: Predictions): seq<Case>
  {
    Sequences.Filter(cases, (c: Case) => IsExactMatch(preds, c))
  }

  function Mismatches(cases: seq<Case>, preds: Predictions): seq<Case>
  {
    Sequences.Filter(cases, (c: Case) => !IsExactMatch(preds, c))
  }

  /** The counter of line 34, kept in step with the cases seen so far. */
  function CannotAnswerCount(cases: seq<Case>, preds: Predictions): nat
    decreases |cases|
  {
    if cases == [] then 0
    else
      var last := cases[|cases| - 1];
      CannotAnswerCount(cases[..|cases| - 1], preds)
        + if IsExactMatch(preds, last) && IsCannotAnswer(preds, last) then 1 else 0
  }

  /** categorize_matches: one pass over the cases, appending each to one of two lists. */
  method CategorizeMatches(cases: seq<Case>, preds: Predictions)
    returns (exact: seq<Case>, mismatches: seq<Case>, cannotAnswerCount: nat)
    ensures exact == ExactMatches(cases, preds)
    ensures mismatches == Mismatches(cases, preds)
    ensures cannotAnswerCount == CannotAnswerCount(cases, preds)
    ensures |exact| + |mismatches| == |cases|
    ensures cannotAnswerCount <= |exact|
  {
    exact, mismatches, cannotAnswerCount := [], [], 0;
    for i := 0 to |cases|
      invariant exact == ExactMatches(cases[..i], preds)
      invariant mismatches == Mismatches(cases[..i], preds)
      invariant cannotAnswerCount == CannotAnswerCount(cases[..i], preds)
    {
      var c := cases[i];
      assert cases[..i + 1][..i] == cases[..i];
      var predicted := PredictedAnswer(preds, c.qasId);
      var answers := StrippedAnswers(c.answers);
      if predicted in answers {
        exact := exact + [c];
        if Text.Lower(predicted) == "cannotanswer" {
          cannotAnswerCount := cannotAnswerCount + 1;
        }
      } else {
        mismatches := mismatches + [c];
      }
    }
    assert cases[..|cases|] == cases;
    Partition(cases, preds);
    CannotAnswerCounted(cases, preds);
  }

  /** Every case lands in exactly one list, and both lists keep the order of the cases. */
  lemma Partition(cases: seq<Case>, preds: Predictions)
    ensures multiset(ExactMatches(cases, preds)) + multiset(Mismatches(cases, preds)) == multiset(cases)
    ensures |ExactMatches(cases, preds)| + |Mismatches(cases, preds)| == |cases|
    ensures Sequences.IsSubsequence(ExactMatches(cases, preds), cases)
    ensures Sequences.IsSubsequence(Mismatches(cases, preds), cases)
  {
    var isMatch := (c: Case) => IsExactMatch(preds, c);
    var isMismatch := (c: Case) => !IsExactMatch(preds, c);
    Sequences.FilterPartition(cases, isMatch, isMismatch);
    Sequences.FilterIsSubsequence(cases, isMatch);
    Sequences.FilterIsSubsequence(cases, isMismatch);
  }

  /** A case is an exact match exactly when its trimmed prediction is one of its trimmed answers. */
  lemma Membership(cases: seq<Case>, preds: Predictions, c: Case)
    ensures c in ExactMatches(cases, preds) <==> c in cases && IsExactMatch(preds, c)
    ensures c in Mismatches(cases, preds) <==> c in cases && !IsExactMatch(preds, c)
  {
    Sequences.FilterMembership(cases, (c: Case) => IsExactMatch(preds, c), c);
    Sequences.FilterMembership(cases, (c: Case) => !IsExactMatch(preds, c), c);
  }

  /** The sentinel test picks out of the exact matches. */
  function SentinelMatches(exact: seq<Case>, preds: Predictions): seq<Case>
  {
    Sequences.Filter(exact, (c: Case) => IsCannotAnswer(preds, c))
  }

  /** The counter is the number of exact matches whose prediction is the sentinel,
      so it never exceeds the number of exact matches. */
  lemma {:induction false} CannotAnswerCounted(cases: seq<Case>, preds: Predictions)
    ensures CannotAnswerCount(cases, preds) == |SentinelMatches(ExactMatches(cases, preds), preds)|
    ensures CannotAnswerCount(cases, preds) <= |ExactMatches(cases, preds)|
    decreases |cases|
  {
    if cases != [] {
      var init := cases[..|cases| - 1];
      var last := cases[|cases| - 1];
      CannotAnswerCounted(init, preds);
      var exactInit := ExactMatches(init, preds);
      if IsExactMatch(preds, last) {
        assert ExactMatches(cases, preds) == exactInit + [last];
        Sequences.FilterSnoc(exactInit, last, (c: Case) => IsCannotAnswer(preds, c));
        assert SentinelMatches(exactInit + [last], preds)
            == SentinelMatches(exactInit, preds) + (if IsCannotAnswer(preds, last) then [last] else []);
      } else {
        assert ExactMatches(cases, preds) == exactInit;
      }
    }
  }

  /** A worked example: with answers "Paris" and "paris ", the
      prediction "Paris" is an exact match and not a sentinel. */
  lemma ParisExample()
    ensures var c := Case("q1", "", "", ["Paris", "paris "]);
            var preds := map["q1" := "Paris"];
            ExactMatches([c], preds) == [c] && Mismatches([c], preds) == [] && CannotAnswerCount([c], preds) == 0
  {
  }
}
