# Evaluation scripts for ingredient substitutes and QA exact match, in Dafny

This project models the in-memory logic of three evaluation scripts and proves what each one computes.

- **Substitute evaluation** (`FoodBERTonQA/evaluation/ground_truth_based_evaluation.py`). It scores
  a set of predicted (base, substitute) pairs against a curated ground truth. The model covers:
  - the k-restricted reference set used for top-k recall, built from a ranked ground truth;
  - the vocabulary of the 1000 most frequent ingredients, and the counts of predictions whose
    base or substitute falls outside it;
  - the filter that keeps only predictions whose base is a ground-truth ingredient;
  - coverage;
  - the integer numerators and denominators of precision, recall and top-1/top-5 recall;
  - the two set differences of the verbose report.
- **QA exact match, counting variant** (`SpanBERTonQA/code/predicitonn_exp.py`). It flattens a parsed
  dataset (entries, then paragraphs, then questions) into cases. It puts each case into the exact
  matches or the mismatches: a case matches when its trimmed prediction is one of its trimmed
  reference answers. A missing prediction counts as "No prediction found". The script also counts
  the exact matches whose prediction is the sentinel "cannotanswer".
- **QA exact match, excluding variant** (`SpanBERTonQA/code/predictions_test.py`). It is the same
  pipeline, except that sentinel matches go to the mismatches. Lemmas relate the two variants.

Modules, one per source file plus shared pieces:

- `Wrappers`: Option and Result.
- `Sequences`: an order-keeping `Filter` and the subsequence relation, with generic lemmas.
- `Text`: ASCII strip and lower.
- `SubstituteEvaluation`: the substitute-evaluation script.
- `QaData`: the dataset tree, `load_eval_data` and the answer comparison. `load_eval_data` is the
  same code in both QA scripts (`predicitonn_exp.py:7-20` and `predictions_test.py:13-26`), so one
  member models both.
- `CountingCategorizer` and `ExcludingCategorizer`: the two `categorize_matches` functions.

Each source loop is a Dafny method with loop invariants, proved against a specification function.
Comprehensions are functions.

Facts about the code that the model keeps as they are:

- Top-k recall is not monotone in k: the reference set it divides by grows with k. Only the
  subset relation holds: the top-1 reference set lies inside the top-5 one, so the top-1
  numerator is at most the top-5 numerator (`TopKMonotone`).
- A case's reference answers are a list in document order, not a set.
- The sentinel test is on the trimmed prediction. For an exact match, that string is also one of
  the trimmed answers.

## Model

| member | source | states |
|---|---|---|
| `SubstituteEvaluation.MissingSubstitutes` | FoodBERTonQA/evaluation/ground_truth_based_evaluation.py:14-25 | The "missing in ground truth" pairs are predictions outside the ground truth. The "missing in prediction" pairs are ground-truth pairs outside the prediction. The two are disjoint from each other and from the common pairs, and the three together give the union of ground truth and prediction. |
| `SubstituteEvaluation.MissingCounts` | FoodBERTonQA/evaluation/ground_truth_based_evaluation.py:15-23 | Each missing-pairs size the report prints, plus the number of common pairs, equals the size of the set it is printed against. |
| `SubstituteEvaluation.PrecisionCounts` | FoodBERTonQA/evaluation/ground_truth_based_evaluation.py:86 | The precision denominator is the number of scored predictions. The numerator is at most the denominator, and equals it exactly when every scored prediction is in the ground truth. |
| `SubstituteEvaluation.RecallCounts` | FoodBERTonQA/evaluation/ground_truth_based_evaluation.py:87 | The recall denominator is the size of the reference set. The numerator is at most the denominator, and equals it exactly when every reference pair was predicted. |
| `SubstituteEvaluation.Head` | FoodBERTonQA/evaluation/ground_truth_based_evaluation.py:31 | The slice `[:k]` is a prefix of its list. Its length is min(k, length) for k >= 0, and the length less -k (never below 0) for negative k. |
| `SubstituteEvaluation.PairsOf` | FoodBERTonQA/evaluation/ground_truth_based_evaluation.py:32 | The pairs built for one food are exactly (food, s) for each s in its cut list, and there are at most as many as the list has entries. |
| `SubstituteEvaluation.TopKReferenceSet` | FoodBERTonQA/evaluation/ground_truth_based_evaluation.py:29-32 | After the loop, a pair is in the k-restricted reference set exactly when its base is a ranked food and its substitute is among the first k entries of that food's list. |
| `SubstituteEvaluation.CalculateTopKRecall` | FoodBERTonQA/evaluation/ground_truth_based_evaluation.py:28-35 | Top-k recall is recall against the k-restricted reference set: its denominator is that set's size and its numerator is at most the denominator. |
| `SubstituteEvaluation.TopKMonotone` | FoodBERTonQA/evaluation/ground_truth_based_evaluation.py:88-89 | For 0 <= j <= k, the j-restricted reference set is a subset of the k-restricted one, so top-1 recall has at most as many hits as top-5 recall. |
| `SubstituteEvaluation.TopKSize` | FoodBERTonQA/evaluation/ground_truth_based_evaluation.py:29-32 | The k-restricted set has at most the sum over foods of the cut-list lengths (min(k, length) for k >= 0), and every pair's base is a key of the ranking. |
| `SubstituteEvaluation.Spaced` | FoodBERTonQA/evaluation/ground_truth_based_evaluation.py:64 | `replace('_', ' ')` keeps the length, turns each underscore into a space, keeps every other character, and leaves no underscore. |
| `SubstituteEvaluation.MostFrequent` | FoodBERTonQA/evaluation/ground_truth_based_evaluation.py:61-64 | The vocabulary fails (index error) exactly when no row has count >= 10. Otherwise it has min(1000, number of such rows) entries, at most 1000, and entry i is the name of the i-th row with count >= 10, with spaces for underscores. |
| `SubstituteEvaluation.FrequentEntriesFromTable` | FoodBERTonQA/evaluation/ground_truth_based_evaluation.py:62 | The rows behind the vocabulary are a subsequence of the table, so they keep its order. A row is among them exactly when it is in the table with count >= 10. |
| `SubstituteEvaluation.CountRarity` | FoodBERTonQA/evaluation/ground_truth_based_evaluation.py:66-77 | The total counts every prediction, out-of-universe ones included. The base counter is the number of predictions whose base is not in the vocabulary, and the substitute counter likewise. Both are at most the total. |
| `SubstituteEvaluation.RestrictToUniverse` | FoodBERTonQA/evaluation/ground_truth_based_evaluation.py:79-82 | A pair is kept exactly when it is a prediction whose base is a ground-truth ingredient. |
| `SubstituteEvaluation.CoveredIngredients` | FoodBERTonQA/evaluation/ground_truth_based_evaluation.py:85 | An ingredient is covered exactly when some scored pair has it as its base. |
| `SubstituteEvaluation.CoverageBounded` | FoodBERTonQA/evaluation/ground_truth_based_evaluation.py:79-85 | The covered ingredients are ground-truth ingredients, so the coverage numerator is at most the denominator. The scored pairs are a subset of the predictions. |
| `SubstituteEvaluation.EvaluateApproach` | FoodBERTonQA/evaluation/ground_truth_based_evaluation.py:38-98 | The three failures the model keeps come in this order: index error when no row has count >= 10; division by zero when there are no ground-truth ingredients; division by zero when there are no predictions. Otherwise every reported count equals the function that defines it: vocabulary, rarity, scored pairs, coverage (at most the universe size), precision, full recall, and top-1 and top-5 recall with top-1 hits <= top-5 hits. |
| `SubstituteEvaluation.HalfRightExample` | FoodBERTonQA/evaluation/ground_truth_based_evaluation.py:86-87 | Ground truth {salt-pepper, butter-oil} against predictions {salt-pepper, butter-margarine} gives precision 1/2 and recall 1/2. |
| `QaData.AnswerTexts` | SpanBERTonQA/code/predicitonn_exp.py:18 | A case's answers are the texts of the question's answers, in their original order. |
| `QaData.QaCasesAt` | SpanBERTonQA/code/predicitonn_exp.py:13-19 | Question l of a paragraph becomes that paragraph's l-th case. |
| `QaData.LoadEvalData` | SpanBERTonQA/code/predicitonn_exp.py:7-20 | The three nested loops produce exactly the flattening of the dataset, entry by entry, paragraph by paragraph and question by question. |
| `QaData.FlattenLength` | SpanBERTonQA/code/predicitonn_exp.py:11-19 | There are as many cases as the dataset has questions. |
| `QaData.FlattenAt` | SpanBERTonQA/code/predictions_test.py:17-25 | Document order and fields: question l of paragraph j of entry i becomes the case at position (questions in earlier entries) + (questions in earlier paragraphs of entry i) + l. That case carries the question's id and text, its paragraph's context, and its answer texts in order. |
| `QaData.PredictedAnswer` | SpanBERTonQA/code/predicitonn_exp.py:28 | The compared prediction is the trimmed prediction when the id has one, and "No prediction found" otherwise. |
| `QaData.StrippedAnswers` | SpanBERTonQA/code/predicitonn_exp.py:29 | The compared answers are the case's answers, each trimmed, in order. |
| `QaData.ExactMatchMeaning` | SpanBERTonQA/code/predicitonn_exp.py:28-31 | A case matches exactly when some reference answer, trimmed, equals the compared prediction. |
| `QaData.MissingPrediction` | SpanBERTonQA/code/predictions_test.py:33 | Without a prediction, a case matches exactly when "No prediction found" is one of its trimmed answers, and it is never a sentinel. |
| `Text.StripSpec` | SpanBERTonQA/code/predicitonn_exp.py:28-29 | `strip()` keeps the slice between the first and the last non-whitespace characters. Only whitespace lies outside that slice, and the result is empty exactly when the input is all whitespace. |
| `Text.LowerSpec` | SpanBERTonQA/code/predicitonn_exp.py:33 | `lower()` maps each character through ASCII lower-casing. |
| `CountingCategorizer.CategorizeMatches` | SpanBERTonQA/code/predicitonn_exp.py:22-37 | The loop's two lists are the exact matches and the mismatches of the cases. Their sizes add up to the number of cases, and the sentinel counter is at most the number of exact matches. |
| `CountingCategorizer.Partition` | SpanBERTonQA/code/predicitonn_exp.py:26-36 | Every case lands in exactly one list (multiset union), and both lists are subsequences of the cases, so they keep the cases' order. |
| `CountingCategorizer.Membership` | SpanBERTonQA/code/predicitonn_exp.py:28-31 | A case is in the exact matches exactly when its trimmed prediction is among its trimmed answers, and in the mismatches exactly when it is not. |
| `CountingCategorizer.CannotAnswerCounted` | SpanBERTonQA/code/predicitonn_exp.py:32-34 | The counter equals the number of exact matches whose trimmed prediction lower-cases to "cannotanswer", so it is at most the number of exact matches. |
| `CountingCategorizer.ParisExample` | SpanBERTonQA/code/predicitonn_exp.py:28-34 | With answers "Paris" and "paris " and prediction "Paris", the case is an exact match and is not counted as a sentinel. |
| `ExcludingCategorizer.CategorizeMatches` | SpanBERTonQA/code/predictions_test.py:28-40 | The loop's two lists are this variant's exact matches and mismatches. Their sizes add up to the number of cases, and no exact match has a sentinel prediction. |
| `ExcludingCategorizer.Partition` | SpanBERTonQA/code/predictions_test.py:31-39 | Every case lands in exactly one list, and both lists keep the order of the cases. |
| `ExcludingCategorizer.Membership` | SpanBERTonQA/code/predictions_test.py:33-36 | A case is an exact match exactly when its trimmed prediction is among its trimmed answers and does not lower-case to "cannotanswer". Otherwise it is a mismatch. |
| `ExcludingCategorizer.ExactMatchesAgree` | SpanBERTonQA/code/predictions_test.py:36 | On the same input, this variant's exact matches are the counting variant's exact matches without the sentinel ones, in the same order. So they are a subsequence of the counting variant's list, shorter by exactly the sentinel count. |
| `ExcludingCategorizer.MismatchesAgree` | SpanBERTonQA/code/predictions_test.py:36-39 | On the same input, this variant's mismatches are, as a multiset, the counting variant's mismatches plus its sentinel exact matches. |

## Left out

- File and JSON handling: every `open` and `json.load`, the `Path` objects, the hard-coded file names and `load_predictions`. The model takes the parsed values as parameters: sets of pairs, a map for the ranking, a list of table rows, the dataset tree and a map of predictions. Malformed JSON and missing keys inside the dataset are not modelled.
- Printing: `print_cases`, every `print`, and the driver loops at the end of each script that run the evaluation once per prediction file.
- The metric library (`scores.precision`, `scores.recall`, `scores.f_measure`). Its source is not part of this model. Only the integer counts passed to it are modelled. Its behaviour on empty sets (a `None` that then breaks the formatted print) and the F1 value are not.
- Floating-point results: pairs per ingredient, the coverage percentage, the rare-base and rare-substitute percentages, and every metric value (lines 84-85 and 91-95). Only the divisions by zero that stop the run are kept, as errors in `EvaluateApproach`.
- `FoodBERTonQA/evaluation/human_evaluation.py` is not part of this model. It reads files, computes a float accuracy and calls a library's Cohen's kappa, and has no logic of its own to model.
- Text.StripSpec: covers only ASCII whitespace (`\t` to `\r`, 0x1C-0x1F and space), not the non-ASCII characters that Python's `str.strip()` also removes.
- Text.LowerSpec: covers only ASCII letters, not the Unicode case mapping of `lower()`.
- Iteration order over sets and over the ranking's keys is not modelled. Every result built in those loops is a set or a count, so the order does not change it.
- The commented-out vocabulary filter (lines 70-71) is inactive in the source, and the model does not add it.
- SubstituteEvaluation.EvaluateApproach: `Ok` also covers runs the script aborts at line 95. When the scored set, the ground truth or a top-k reference set is empty, the metric library returns `None` and formatting it with `:.3f` raises a type error. The library is not part of this model, so that failure is not modelled.
- `show_missing_subtitutes` is only called when `verbose` is set, and `verbose` is hard-coded to `False`. It is modelled as a standalone function and not called from `EvaluateApproach`.
- Frequency-table counts are integers; rows whose count is some other JSON number are not modelled.
