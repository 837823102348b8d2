/**
 Ground-truth evaluation of ingredient-substitute predictions
 (FoodBERTonQA/evaluation/ground_truth_based_evaluation.py).

 A prediction run is a set of (base, substitute) pairs. It is scored against
 a curated set of correct pairs, against a ranked ground truth cut to its top
 k entries per ingredient, and against a vocabulary of the 1000 most frequent
 ingredients. Only the integer counts are modelled; the ratios built from
 them (and the metric library that divides them) are not.
 */
module SubstituteEvaluation {
  import opened Wrappers
  import Sequences

  /** One predicted or curated substitution: `substitute` may replace `base`. */
  datatype SubstitutePair = SubstitutePair(base: string, substitute: string)

  /** Ingredient -> its substitutes, best first. */
  type Ranking = map<string, seq<string>>

  /** One row of the ingredient frequency table. */
  datatype IngredientCount = IngredientCount(name: string, count: int)

  /** Numerator and denominator of a precision or recall value. */
  datatype Counts = Counts(hits: nat, total: nat)

  function Min(a: int, b: int): int { if a <= b then a else b }

  function Max(a: int, b: int): int { if a <= b then b else a }

  // ---------------------------------------------------------------------------
  // show_missing_subtitutes (lines 14-25)
  // ---------------------------------------------------------------------------

  /** The two lists the verbose report prints: predicted pairs that the ground truth
      lacks, and ground-truth pairs that the prediction lacks. */
  datatype MissingReport = MissingReport(notInGroundTruth: set<SubstitutePair>,
                                         notInPrediction: set<SubstitutePair>)

  function MissingSubstitutes(groundTruth: set<SubstitutePair>, predicted: set<SubstitutePair>): (r: MissingReport)
    ensures r.notInGroundTruth <= predicted && r.notInGroundTruth !! groundTruth
    ensures r.notInPrediction <= groundTruth && r.notInPrediction !! predicted
    ensures r.notInGroundTruth !! r.notInPrediction
    ensures r.notInGroundTruth !! groundTruth * predicted && r.notInPrediction !! groundTruth * predicted
    ensures r.notInGroundTruth + r.notInPrediction + groundTruth * predicted == groundTruth + predicted
  {
    MissingReport(predicted - groundTruth, groundTruth - predicted)
  }

  /** The sizes the report prints next to each list: the missing pairs and the
      correctly predicted pairs add up to the size of the set they come from. */
  lemma MissingCounts(groundTruth: set<SubstitutePair>, predicted: set<SubstitutePair>)
    ensures |MissingSubstitutes(groundTruth, predicted).notInGroundTruth| + |groundTruth * predicted| == |predicted|
    ensures |MissingSubstitutes(groundTruth, predicted).notInPrediction| + |groundTruth * predicted| == |groundTruth|
  {
  }

  // ---------------------------------------------------------------------------
  // Precision and recall numerators and denominators (lines 86-87)
  // ---------------------------------------------------------------------------

  /** precision(reference, test) divides the correct test pairs by the test pairs. */
  function PrecisionCounts(reference: set<SubstitutePair>, test: set<SubstitutePair>): (r: Counts)
    ensures r.total == |test|
    ensures r.hits <= r.total
    ensures r.hits == r.total <==> test <= reference
  {
    SubsetBySize(test, reference);
    Counts(|reference * test|, |test|)
  }

  /** recall(reference, test) divides the found reference pairs by the reference pairs. */
  function RecallCounts(reference: set<SubstitutePair>, test: set<SubstitutePair>): (r: Counts)
    ensures r.total == |reference|
    ensures r.hits <= r.total
    ensures r.hits == r.total <==> reference <= test
  {
    SubsetBySize(reference, test);
    Counts(|reference * test|, |reference|)
  }

  /** A set shares all its elements with another exactly when the intersection is as large as it. */
  lemma SubsetBySize(a: set<SubstitutePair>, b: set<SubstitutePair>)
    ensures |b * a| <= |a| && |a * b| <= |a|
    ensures |b * a| == |a| <==> a <= b
    ensures |a * b| == |a| <==> a <= b
  {
    assert a == (a * b) + (a - b);
    assert b * a == a * b;
    if |a * b| == |a| {
      assert |a - b| == 0;
    }
  }

  // ---------------------------------------------------------------------------
  // calculate_topk_recall (lines 28-35)
  // ---------------------------------------------------------------------------

  /** The slice `s[:k]` in Python: the first k elements, or for a
      negative k all but the last -k, and never more than there are. */
  function Head<T>(s: seq<T>, k: int): (r: seq<T>)
    ensures |r| == if k >= 0 then Min(k, |s|) else Max(0, |s| + k)
    ensures r == s[..|r|]
  {
    if k >= 0 then s[..Min(k, |s|)] else s[..Max(0, |s| + k)]
  }

  /** `{(food, substitute) for substitute in substitutes}` (line 32). */
  function PairsOf(food: string, substitutes: seq<string>): (r: set<SubstitutePair>)
    ensures forall p :: p in r <==> p.base == food && p.substitute in substitutes
    ensures |r| <= |substitutes|
    decreases |substitutes|
  {
    if substitutes == [] then {}
    else
      var rest := substitutes[1..];
      assert forall s :: s in substitutes <==> s == substitutes[0] || s in rest;
      {SubstitutePair(food, substitutes[0])} + PairsOf(food, rest)
  }

  /** The pairs contributed by the ingredients in `foods`, each cut to its first k substitutes. */
  ghost function TopKPairsOf(ranking: Ranking, foods: set<string>, k: int): set<SubstitutePair>
  {
    set food, s | food in foods && food in ranking && s in Head(ranking[food], k) :: SubstitutePair(food, s)
  }

  /** The k-restricted reference set of the whole ranking. */
  ghost function TopKPairs(ranking: Ranking, k: int): set<SubstitutePair>
  {
    TopKPairsOf(ranking, ranking.Keys, k)
  }

  /** The loop of lines 29-32: one union per ingredient of the ranking. */
  method TopKReferenceSet(ranking: Ranking, k: int) returns (pairs: set<SubstitutePair>)
    ensures forall p :: p in pairs <==> p.base in ranking && p.substitute in Head(ranking[p.base], k)
    ensures pairs == TopKPairs(ranking, k)
  {
    pairs := {};
    var remaining := ranking.Keys;
    while remaining != {}
      invariant remaining <= ranking.Keys
      invariant pairs == TopKPairsOf(ranking, ranking.Keys - remaining, k)
      decreases remaining
    {
      var food :| food in remaining;
      var substitutes := Head(ranking[food], k);
      pairs := pairs + PairsOf(food, substitutes);
      remaining := remaining - {food};
    }
    assert ranking.Keys - remaining == ranking.Keys;
  }

  /** calculate_topk_recall: recall of `test` against the k-restricted reference set. */
  method CalculateTopKRecall(ranking: Ranking, test: set<SubstitutePair>, k: int) returns (c: Counts)
    ensures c == RecallCounts(TopKPairs(ranking, k), test)
    ensures c.total == |TopKPairs(ranking, k)| && c.hits <= c.total
  {
    var pairs := TopKReferenceSet(ranking, k);
    c := RecallCounts(pairs, test);
  }

  /** Cutting the ranked lists shorter can only remove reference pairs, so the
      top-1 reference set lies inside the top-5 one and so do its hits. */
  lemma TopKMonotone(ranking: Ranking, test: set<SubstitutePair>, j: int, k: int)
    requires 0 <= j <= k
    ensures TopKPairs(ranking, j) <= TopKPairs(ranking, k)
    ensures |TopKPairs(ranking, j) * test| <= |TopKPairs(ranking, k) * test|
  {
    forall p | p in TopKPairs(ranking, j) ensures p in TopKPairs(ranking, k) {
      var list := ranking[p.base];
      var i :| 0 <= i < |Head(list, j)| && Head(list, j)[i] == p.substitute;
      assert Head(list, k)[i] == p.substitute;
    }
    SubsetSize(TopKPairs(ranking, j) * test, TopKPairs(ranking, k) * test);
  }

  lemma SubsetSize<T>(a: set<T>, b: set<T>)
    requires a <= b
    ensures |a| <= |b|
  {
    assert b == a + (b - a);
  }

  /** The ingredient that the size bound below peels off first. */
  ghost function PickFood(ranking: Ranking): (food: string)
    requires ranking != map[]
    ensures food in ranking
  {
    var food :| food in ranking; food
  }

  /** The sum over all ingredients of the length of the cut list, min(k, |ranking[food]|) for k >= 0. */
  ghost function CutLengthSum(ranking: Ranking, k: int): nat
    decreases |ranking|
  {
    if ranking == map[] then 0
    else
      var food := PickFood(ranking);
      |Head(ranking[food], k)| + CutLengthSum(ranking - {food}, k)
  }

  /** The k-restricted set has at most one pair per kept list entry, and every
      pair's base is an ingredient of the ranking. */
  lemma {:induction false} TopKSize(ranking: Ranking, k: int)
    ensures |TopKPairs(ranking, k)| <= CutLengthSum(ranking, k)
    ensures forall p :: p in TopKPairs(ranking, k) ==> p.base in ranking
    decreases |ranking|
  {
    if ranking != map[] {
      var food := PickFood(ranking);
      var rest := ranking - {food};
      TopKSize(rest, k);
      var own := PairsOf(food, Head(ranking[food], k));
      assert TopKPairs(ranking, k) == TopKPairs(rest, k) + own;
      assert |TopKPairs(rest, k) + own| <= |TopKPairs(rest, k)| + |own|;
    }
  }

  // ---------------------------------------------------------------------------
  // The frequent-ingredient vocabulary (lines 62-64)
  // ---------------------------------------------------------------------------

  /** The filter of line 62. */
  predicate IsFrequent(entry: IngredientCount)
  {
    entry.count >= 10
  }

  function FrequentEntries(counts: seq<IngredientCount>): seq<IngredientCount>
  {
    Sequences.Filter(counts, IsFrequent)
  }

  /** `name.replace('_', ' ')`. */
  function Spaced(name: string): (r: string)
    ensures |r| == |name|
    ensures forall i :: 0 <= i < |name| ==> r[i] == if name[i] == '_' then ' ' else name[i]
    ensures '_' !in r
    decreases |name|
  {
    if name == [] then []
    else [if name[0] == '_' then ' ' else name[0]] + Spaced(name[1..])
  }

  /** The names of some table rows, with underscores turned into spaces. */
  function SpacedNames(entries: seq<IngredientCount>): (r: seq<string>)
    ensures |r| == |entries|
    ensures forall i :: 0 <= i < |entries| ==> r[i] == Spaced(entries[i].name)
    decreases |entries|
  {
    if entries == [] then [] else [Spaced(entries[0].name)] + SpacedNames(entries[1..])
  }

  /**
   The vocabulary of frequent ingredients: the first 1000 rows with count at
   least 10, by name with underscores turned into spaces. When no row reaches
   10, transposing the empty list and taking its first component fails with an
   index error, which is `None` here.
   */
  function MostFrequent(counts: seq<IngredientCount>): (r: Option<seq<string>>)
    ensures r.None? <==> forall i :: 0 <= i < |counts| ==> counts[i].count < 10
    ensures r.Some? ==> |r.value| == Min(1000, |FrequentEntries(counts)|) && |r.value| <= 1000
    ensures r.Some? ==> forall i :: 0 <= i < |r.value| ==> r.value[i] == Spaced(FrequentEntries(counts)[i].name)
  {
    var frequent := FrequentEntries(counts);
    assert frequent == [] <==> forall i :: 0 <= i < |counts| ==> counts[i].count < 10 by {
      forall e {
        Sequences.FilterMembership(counts, IsFrequent, e);
      }
      if frequent != [] {
        assert frequent[0] in frequent;
      }
    }
    if frequent == [] then None else Some(SpacedNames(frequent[..Min(1000, |frequent|)]))
  }

  /** The rows behind the vocabulary come from the table, in table order, each
      with count at least 10, and no such row is skipped. */
  lemma FrequentEntriesFromTable(counts: seq<IngredientCount>)
    ensures Sequences.IsSubsequence(FrequentEntries(counts), counts)
    ensures forall e :: e in FrequentEntries(counts) <==> e in counts && e.count >= 10
  {
    Sequences.FilterIsSubsequence(counts, IsFrequent);
    forall e {
      Sequences.FilterMembership(counts, IsFrequent, e);
    }
  }

  // ---------------------------------------------------------------------------
  // The rarity counters (lines 66-77)
  // ---------------------------------------------------------------------------

  ghost function RareBases(predicted: set<SubstitutePair>, vocabulary: seq<string>): set<SubstitutePair>
  {
    set p | p in predicted && p.base !in vocabulary
  }

  ghost function RareSubstitutes(predicted: set<SubstitutePair>, vocabulary: seq<string>): set<SubstitutePair>
  {
    set p | p in predicted && p.substitute !in vocabulary
  }

  /** Counting one more, not yet seen pair. */
  lemma RarityStep(done: set<SubstitutePair>, p: SubstitutePair, vocabulary: seq<string>)
    requires p !in done
    ensures |done + {p}| == |done| + 1
    ensures |RareBases(done + {p}, vocabulary)| == |RareBases(done, vocabulary)| + if p.base !in vocabulary then 1 else 0
    ensures |RareSubstitutes(done + {p}, vocabulary)| == |RareSubstitutes(done, vocabulary)| + if p.substitute !in vocabulary then 1 else 0
  {
    RareBasesStep(done, p, vocabulary);
    RareSubstitutesStep(done, p, vocabulary);
  }

  lemma RareBasesStep(done: set<SubstitutePair>, p: SubstitutePair, vocabulary: seq<string>)
    requires p !in done
    ensures RareBases(done + {p}, vocabulary)
         == RareBases(done, vocabulary) + (if p.base !in vocabulary then {p} else {})
  {
  }

  lemma RareSubstitutesStep(done: set<SubstitutePair>, p: SubstitutePair, vocabulary: seq<string>)
    requires p !in done
    ensures RareSubstitutes(done + {p}, vocabulary)
         == RareSubstitutes(done, vocabulary) + (if p.substitute !in vocabulary then {p} else {})
  {
  }

  /** One pass over all predictions, out-of-universe ones included, counting the pairs
      whose base and whose substitute lie outside the vocabulary. */
  method CountRarity(predicted: set<SubstitutePair>, vocabulary: seq<string>)
    returns (baseRare: nat, substituteRare: nat, total: nat)
    ensures total == |predicted|
    ensures baseRare == |RareBases(predicted, vocabulary)| && baseRare <= total
    ensures substituteRare == |RareSubstitutes(predicted, vocabulary)| && substituteRare <= total
  {
    baseRare, substituteRare, total := 0, 0, 0;
    var remaining := predicted;
    ghost var done: set<SubstitutePair> := {};
    while remaining != {}
      invariant done + remaining == predicted && done !! remaining
      invariant total == |done|
      invariant baseRare == |RareBases(done, vocabulary)|
      invariant substituteRare == |RareSubstitutes(done, vocabulary)|
      decreases remaining
    {
      var p :| p in remaining;
      RarityStep(done, p, vocabulary);
      if p.base !in vocabulary {
        baseRare := baseRare + 1;
      }
      if p.substitute !in vocabulary {
        substituteRare := substituteRare + 1;
      }
      total := total + 1;
      remaining := remaining - {p};
      done := done + {p};
    }
    SubsetSize(RareBases(predicted, vocabulary), predicted);
    SubsetSize(RareSubstitutes(predicted, vocabulary), predicted);
  }

  // ---------------------------------------------------------------------------
  // The universe filter and coverage (lines 79-85)
  // ---------------------------------------------------------------------------

  ghost function InUniverse(predicted: set<SubstitutePair>, universe: set<string>): set<SubstitutePair>
  {
    set p | p in predicted && p.base in universe
  }

  /** Keeps the predicted pairs whose base is a ground-truth ingredient. */
  method RestrictToUniverse(predicted: set<SubstitutePair>, universe: set<string>)
    returns (kept: set<SubstitutePair>)
    ensures forall p :: p in kept <==> p in predicted && p.base in universe
    ensures kept == InUniverse(predicted, universe)
  {
    kept := {};
    var remaining := predicted;
    while remaining != {}
      invariant remaining <= predicted
      invariant kept == InUniverse(predicted - remaining, universe)
      decreases remaining
    {
      var p :| p in remaining;
      if p.base in universe {
        kept := kept + {p};
      }
      remaining := remaining - {p};
    }
    assert predicted - remaining == predicted;
  }

  /** `{elem[0] for elem in predicted_subtitutes_set}`: the ingredients that got a prediction. */
  function CoveredIngredients(pairs: set<SubstitutePair>): (r: set<string>)
    ensures forall food :: food in r <==> exists p :: p in pairs && p.base == food
  {
    set p | p in pairs :: p.base
  }

  /** Coverage never exceeds 100%: the covered ingredients are ground-truth ingredients,
      and the scored pairs are some of the predictions. */
  lemma CoverageBounded(predicted: set<SubstitutePair>, universe: set<string>)
    ensures CoveredIngredients(InUniverse(predicted, universe)) <= universe
    ensures |CoveredIngredients(InUniverse(predicted, universe))| <= |universe|
    ensures InUniverse(predicted, universe) <= predicted
    ensures |InUniverse(predicted, universe)| <= |predicted|
  {
    SubsetSize(CoveredIngredients(InUniverse(predicted, universe)), universe);
    SubsetSize(InUniverse(predicted, universe), predicted);
  }

  // ---------------------------------------------------------------------------
  // evaluate_approach, without file reading and printing (lines 38-98)
  // ---------------------------------------------------------------------------

  /** The failures that end an evaluation run before its report is complete. */
  datatype EvalError =
    | NoFrequentIngredients   // line 63: no table row has count >= 10
    | EmptyUniverse           // line 84: division by the number of ground-truth ingredients
    | NoPredictions           // line 91: division by the number of predictions

  /** Every integer the report is built from. */
  datatype Evaluation = Evaluation(
    vocabulary: seq<string>,
    baseRare: nat,
    substituteRare: nat,
    totalPredictions: nat,
    scored: set<SubstitutePair>,
    coveredIngredients: nat,
    universeSize: nat,
    precision: Counts,
    fullRecall: Counts,
    top1Recall: Counts,
    top5Recall: Counts)

  method EvaluateApproach(groundTruth: set<SubstitutePair>, ranking: Ranking, universe: set<string>,
                          predicted: set<SubstitutePair>, counts: seq<IngredientCount>)
    returns (r: Result<Evaluation, EvalError>)
    ensures MostFrequent(counts).None? ==> r == Err(NoFrequentIngredients)
    ensures MostFrequent(counts).Some? && universe == {} ==> r == Err(EmptyUniverse)
    ensures MostFrequent(counts).Some? && universe != {} && predicted == {} ==> r == Err(NoPredictions)
    ensures r.Ok? <==> MostFrequent(counts).Some? && universe != {} && predicted != {}
    ensures r.Ok? ==>
      var e := r.value;
      var scored := InUniverse(predicted, universe);
      && e.vocabulary == MostFrequent(counts).value
      && e.totalPredictions == |predicted|
      && e.baseRare == |RareBases(predicted, e.vocabulary)| <= e.totalPredictions
      && e.substituteRare == |RareSubstitutes(predicted, e.vocabulary)| <= e.totalPredictions
      && e.scored == scored
      && e.coveredIngredients == |CoveredIngredients(scored)| <= e.universeSize == |universe|
      && e.precision == PrecisionCounts(groundTruth, scored)
      && e.fullRecall == RecallCounts(groundTruth, scored)
      && e.top1Recall == RecallCounts(TopKPairs(ranking, 1), scored)
      && e.top5Recall == RecallCounts(TopKPairs(ranking, 5), scored)
      && e.top1Recall.hits <= e.top5Recall.hits
  {
    var vocabulary := MostFrequent(counts);
    if vocabulary.None? {
      return Err(NoFrequentIngredients);
    }
    var baseRare, substituteRare, total := CountRarity(predicted, vocabulary.value);
    var scored := RestrictToUniverse(predicted, universe);
    if universe == {} {
      return Err(EmptyUniverse);
    }
    var covered := CoveredIngredients(scored);
    CoverageBounded(predicted, universe);
    var precision := PrecisionCounts(groundTruth, scored);
    var fullRecall := RecallCounts(groundTruth, scored);
    var top1 := CalculateTopKRecall(ranking, scored, 1);
    var top5 := CalculateTopKRecall(ranking, scored, 5);
    TopKMonotone(ranking, scored, 1, 5);
    if total == 0 {
      return Err(NoPredictions);
    }
    r := Ok(Evaluation(vocabulary.value, baseRare, substituteRare, total, scored, |covered|, |universe|,
                       precision, fullRecall, top1, top5));
  }

  /** A worked example: one of two predictions is right and
      one of two ground-truth pairs is found, so precision and recall are both 1/2. */
  lemma HalfRightExample()
    ensures var truth := {SubstitutePair("salt", "pepper"), SubstitutePair("butter", "oil")};
            var predicted := {SubstitutePair("salt", "pepper"), SubstitutePair("butter", "margarine")};
            PrecisionCounts(truth, predicted) == Counts(1, 2) && RecallCounts(truth, predicted) == Counts(1, 2)
  {
  }
}
