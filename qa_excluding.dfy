/**
 The exact-match categoriser that excludes sentinel matches
 (SpanBERTonQA/code/predictions_test.py): a case is an exact match only when
 its trimmed prediction is one of its trimmed answers AND is not the sentinel
 "cannotanswer" in any letter case; every other case, sentinel matches
 included, is a mismatch. The lemmas at the end relate it to the counting
 variant.
 */
module ExcludingCategorizer {
  import opened QaData
  import Sequences
  import CountingCategorizer

  /** The test of line 36. */
  predicate IsAcceptedMatch(preds: Predictions, c: Case)
  {
    IsExactMatch(preds, c) && !IsCannotAnswer(preds, c)
  }

  function ExactMatches(cases: seq<Case>, preds: Predictions): seq<Case>
  {
    Sequences.Filter(cases, (c: Case) => IsAcceptedMatch(preds, c))
  }

  function Mismatches(cases: seq<Case>, preds: Predictions): seq<Case>
  {
    Sequences.Filter(cases, (c: Case) => !IsAcceptedMatch(preds, c))
  }

  /** categorize_matches: one pass over the cases, appending each to one of two lists. */
  method CategorizeMatches(cases: seq<Case>, preds: Predictions)
    returns (exact: seq<Case>, mismatches: seq<Case>)
    ensures exact == ExactMatches(cases, preds)
    ensures mismatches == Mismatches(cases, preds)
    ensures |exact| + |mismatches| == |cases|
    ensures forall c :: c in exact ==> !IsCannotAnswer(preds, c)
  {
    exact, mismatches := [], [];
    for i := 0 to |cases|
      invariant exact == ExactMatches(cases[..i], preds)
      invariant mismatches == Mismatches(cases[..i], preds)
    {
      var c := cases[i];
      assert cases[..i + 1][..i] == cases[..i];
      var predicted := PredictedAnswer(preds, c.qasId);
      var answers := StrippedAnswers(c.answers);
      if predicted in answers && Text.Lower(predicted) != "cannotanswer" {
        exact := exact + [c];
      } else {
        mismatches := mismatches + [c];
      }
    }
    assert cases[..|cases|] == cases;
    Partition(cases, preds);
    forall c | c in exact ensures !IsCannotAnswer(preds, c) {
      Membership(cases, preds, c);
    }
  }

  /** Every case lands in exactly one list, and both lists keep the order of the cases. */
  lemma Partition(cases: seq<Case>, preds: Predictions)
    ensures multiset(ExactMatches(cases, preds)) + multiset(Mismatches(cases, preds)) == multiset(cases)
    ensures |ExactMatches(cases, preds)| + |Mismatches(cases, preds)| == |cases|
    ensures Sequences.IsSubsequence(ExactMatches(cases, preds), cases)
    ensures Sequences.IsSubsequence(Mismatches(cases, preds), cases)
  {
    var accepted := (c: Case) => IsAcceptedMatch(preds, c);
    var rejected := (c: Case) => !IsAcceptedMatch(preds, c);
    Sequences.FilterPartition(cases, accepted, rejected);
    Sequences.FilterIsSubsequence(cases, accepted);
    Sequences.FilterIsSubsequence(cases, rejected);
  }

  /** A case is an exact match exactly when its trimmed prediction is one of its trimmed
      answers and is not the sentinel; no exact match carries the sentinel. */
  lemma Membership(cases: seq<Case>, preds: Predictions, c: Case)
    ensures c in ExactMatches(cases, preds) <==> c in cases && IsExactMatch(preds, c) && !IsCannotAnswer(preds, c)
    ensures c in Mismatches(cases, preds) <==> c in cases && (!IsExactMatch(preds, c) || IsCannotAnswer(preds, c))
  {
    Sequences.FilterMembership(cases, (c: Case) => IsAcceptedMatch(preds, c), c);
    Sequences.FilterMembership(cases, (c: Case) => !IsAcceptedMatch(preds, c), c);
  }

  /**
   The two scripts on the same input: this variant's exact matches are the
   counting variant's exact matches without the sentinel ones, in the same
   order, so there are exactly `cannot_answer_count` fewer of them.
   */
  lemma ExactMatchesAgree(cases: seq<Case>, preds: Predictions)
    ensures ExactMatches(cases, preds)
         == Sequences.Filter(CountingCategorizer.ExactMatches(cases, preds), (c: Case) => !IsCannotAnswer(preds, c))
    ensures Sequences.IsSubsequence(ExactMatches(cases, preds), CountingCategorizer.ExactMatches(cases, preds))
    ensures |ExactMatches(cases, preds)| + CountingCategorizer.CannotAnswerCount(cases, preds)
         == |CountingCategorizer.ExactMatches(cases, preds)|
  {
    var isMatch := (c: Case) => IsExactMatch(preds, c);
    var isSentinel := (c: Case) => IsCannotAnswer(preds, c);
    var notSentinel := (c: Case) => !IsCannotAnswer(preds, c);
    var counted := CountingCategorizer.ExactMatches(cases, preds);
    Sequences.FilterConjunction(cases, isMatch, notSentinel, (c: Case) => IsAcceptedMatch(preds, c));
    Sequences.FilterIsSubsequence(counted, notSentinel);
    Sequences.FilterPartition(counted, isSentinel, notSentinel);
    CountingCategorizer.CannotAnswerCounted(cases, preds);
  }

  /** The sentinel matches that the counting variant keeps are the extra mismatches here. */
  lemma {:induction false} MismatchesAgree(cases: seq<Case>, preds: Predictions)
    ensures multiset(Mismatches(cases, preds))
         == multiset(CountingCategorizer.Mismatches(cases, preds))
          + multiset(CountingCategorizer.SentinelMatches(CountingCategorizer.ExactMatches(cases, preds), preds))
    decreases |cases|
  {
    if cases != [] {
      var init := cases[..|cases| - 1];
      var last := cases[|cases| - 1];
      MismatchesAgree(init, preds);
      var exactInit := CountingCategorizer.ExactMatches(init, preds);
      var sentinelInit := CountingCategorizer.SentinelMatches(exactInit, preds);
      var countedInit := CountingCategorizer.Mismatches(init, preds);
      var here := Mismatches(init, preds);
      assert multiset(here) == multiset(countedInit) + multiset(sentinelInit);
      if IsExactMatch(preds, last) {
        assert CountingCategorizer.ExactMatches(cases, preds) == exactInit + [last];
        assert CountingCategorizer.Mismatches(cases, preds) == countedInit;
        Sequences.FilterSnoc(exactInit, last, (c: Case) => IsCannotAnswer(preds, c));
        if IsCannotAnswer(preds, last) {
          assert CountingCategorizer.SentinelMatches(exactInit + [last], preds) == sentinelInit + [last];
          assert Mismatches(cases, preds) == here + [last];
        } else {
          assert CountingCategorizer.SentinelMatches(exactInit + [last], preds) == sentinelInit;
          assert Mismatches(cases, preds) == here;
        }
      } else {
        assert CountingCategorizer.ExactMatches(cases, preds) == exactInit;
        assert CountingCategorizer.Mismatches(cases, preds) == countedInit + [last];
        assert Mismatches(cases, preds) == here + [last];
      }
    }
  }
}
