/**
 The QA evaluation data shared by both exact-match scripts
 (SpanBERTonQA/code/predicitonn_exp.py and SpanBERTonQA/code/predictions_test.py,
 whose `load_eval_data` functions are the same code): the parsed dataset
 tree, the flat list of cases built from it, and the answer comparison both
 scripts start from.
 */
module QaData {
  import Text

  /** The parsed dataset: entries hold paragraphs, paragraphs hold questions. */
  datatype Answer = Answer(text: string)
  datatype Qa = Qa(id: string, question: string, answers: seq<Answer>)
  datatype Paragraph = Paragraph(context: string, qas: seq<Qa>)
  datatype Entry = Entry(paragraphs: seq<Paragraph>)

  /** One evaluation case: a question with its paragraph's context and its reference answers. */
  datatype Case = Case(qasId: string, questionText: string, contextText: string, answers: seq<string>)

  /** Question id -> predicted answer; ids may be missing. */
  type Predictions = map<string, string>

  /** `[answer['text'] for answer in qa['answers']]`. */
  function AnswerTexts(answers: seq<Answer>): (r: seq<string>)
    ensures |r| == |answers|
    ensures forall i :: 0 <= i < |answers| ==> r[i] == answers[i].text
    decreases |answers|
  {
    if answers == [] then [] else [answers[0].text] + AnswerTexts(answers[1..])
  }

  /** The case built for question `qa` of a paragraph with context `context`. */
  function MakeCase(context: string, qa: Qa): Case
  {
    Case(qa.id, qa.question, context, AnswerTexts(qa.answers))
  }

  // The flattening, one level of the tree at a time, each level in document order.

  function QaCases(context: string, qas: seq<Qa>): (r: seq<Case>)
    ensures |r| == |qas|
    decreases |qas|
  {
    if qas == [] then [] else QaCases(context, qas[..|qas| - 1]) + [MakeCase(context, qas[|qas| - 1])]
  }

  /** Question l of a paragraph becomes its l-th case. */
  lemma {:induction false} QaCasesAt(context: string, qas: seq<Qa>, l: nat)
    requires l < |qas|
    ensures QaCases(context, qas)[l] == MakeCase(context, qas[l])
    decreases |qas|
  {
    if l < |qas| - 1 {
      QaCasesAt(context, qas[..|qas| - 1], l);
    }
  }

  function ParagraphCases(paragraphs: seq<Paragraph>): seq<Case>
    decreases |paragraphs|
  {
    if paragraphs == [] then []
    else
      var last := paragraphs[|paragraphs| - 1];
      ParagraphCases(paragraphs[..|paragraphs| - 1]) + QaCases(last.context, last.qas)
  }

  function Flatten(data: seq<Entry>): seq<Case>
    decreases |data|
  {
    if data == [] then [] else Flatten(data[..|data| - 1]) + ParagraphCases(data[|data| - 1].paragraphs)
  }

  /** The number of questions in some paragraphs, and in some entries. */
  function ParagraphQaCount(paragraphs: seq<Paragraph>): nat
    decreases |paragraphs|
  {
    if paragraphs == [] then 0
    else ParagraphQaCount(paragraphs[..|paragraphs| - 1]) + |paragraphs[|paragraphs| - 1].qas|
  }

  function QaCount(data: seq<Entry>): nat
    decreases |data|
  {
    if data == [] then 0 else QaCount(data[..|data| - 1]) + ParagraphQaCount(data[|data| - 1].paragraphs)
  }

  // Each level grows by one element at a time.

  lemma QaCasesSnoc(context: string, qas: seq<Qa>, l: nat)
    requires l < |qas|
    ensures QaCases(context, qas[..l + 1]) == QaCases(context, qas[..l]) + [MakeCase(context, qas[l])]
  {
    assert qas[..l + 1][..l] == qas[..l];
  }

  lemma ParagraphCasesSnoc(paragraphs: seq<Paragraph>, j: nat)
    requires j < |paragraphs|
    ensures ParagraphCases(paragraphs[..j + 1])
         == ParagraphCases(paragraphs[..j]) + QaCases(paragraphs[j].context, paragraphs[j].qas)
  {
    assert paragraphs[..j + 1][..j] == paragraphs[..j];
  }

  lemma FlattenSnoc(data: seq<Entry>, i: nat)
    requires i < |data|
    ensures Flatten(data[..i + 1]) == Flatten(data[..i]) + ParagraphCases(data[i].paragraphs)
  {
    assert data[..i + 1][..i] == data[..i];
  }

  /** load_eval_data after parsing: three nested loops appending one case per question. */
  method LoadEvalData(data: seq<Entry>) returns (cases: seq<Case>)
    ensures cases == Flatten(data)
  {
    cases := [];
    for i := 0 to |data|
      invariant cases == Flatten(data[..i])
    {
      var paragraphs := data[i].paragraphs;
      ghost var before := cases;
      for j := 0 to |paragraphs|
        invariant cases == before + ParagraphCases(paragraphs[..j])
      {
        var paragraph := paragraphs[j];
        ghost var outer := cases;
        for l := 0 to |paragraph.qas|
          invariant cases == outer + QaCases(paragraph.context, paragraph.qas[..l])
        {
          var c := MakeCase(paragraph.context, paragraph.qas[l]);
          QaCasesSnoc(paragraph.context, paragraph.qas, l);
          assert cases + [c] == outer + (QaCases(paragraph.context, paragraph.qas[..l]) + [c]);
          cases := cases + [c];
        }
        assert paragraph.qas[..|paragraph.qas|] == paragraph.qas;
        ParagraphCasesSnoc(paragraphs, j);
        assert cases == before + (ParagraphCases(paragraphs[..j]) + QaCases(paragraph.context, paragraph.qas));
      }
      assert paragraphs[..|paragraphs|] == paragraphs;
      FlattenSnoc(data, i);
      assert cases == Flatten(data[..i]) + ParagraphCases(data[i].paragraphs);
    }
    assert data[..|data|] == data;
  }

  /** Within some paragraphs, question l of paragraph j becomes the case after all
      questions of the earlier paragraphs and the first l questions of its own. */
  lemma {:induction false} ParagraphCasesAt(paragraphs: seq<Paragraph>, j: nat, l: nat)
    requires j < |paragraphs| && l < |paragraphs[j].qas|
    ensures |ParagraphCases(paragraphs)| == ParagraphQaCount(paragraphs)
    ensures ParagraphQaCount(paragraphs[..j]) + l < |ParagraphCases(paragraphs)|
    ensures ParagraphCases(paragraphs)[ParagraphQaCount(paragraphs[..j]) + l]
         == MakeCase(paragraphs[j].context, paragraphs[j].qas[l])
    decreases |paragraphs|
  {
    var n := |paragraphs|;
    var init := paragraphs[..n - 1];
    ParagraphCasesLength(init);
    if j < n - 1 {
      ParagraphCasesAt(init, j, l);
      assert init[..j] == paragraphs[..j];
    } else {
      assert paragraphs[..j] == init;
      QaCasesAt(paragraphs[j].context, paragraphs[j].qas, l);
    }
  }

  lemma {:induction false} ParagraphCasesLength(paragraphs: seq<Paragraph>)
    ensures |ParagraphCases(paragraphs)| == ParagraphQaCount(paragraphs)
    decreases |paragraphs|
  {
    if paragraphs != [] {
      ParagraphCasesLength(paragraphs[..|paragraphs| - 1]);
    }
  }

  /** One case per question: the flat list is as long as the dataset has questions. */
  lemma {:induction false} FlattenLength(data: seq<Entry>)
    ensures |Flatten(data)| == QaCount(data)
    decreases |data|
  {
    if data != [] {
      FlattenLength(data[..|data| - 1]);
      ParagraphCasesLength(data[|data| - 1].paragraphs);
    }
  }

  /**
   Document order and field contents: question l of paragraph j of entry i is
   the case at position (questions in entries before i) + (questions in
   paragraphs of entry i before j) + l, and carries that question's id, text
   and answer texts and its paragraph's context.
   */
  lemma {:induction false} FlattenAt(data: seq<Entry>, i: nat, j: nat, l: nat)
    requires i < |data| && j < |data[i].paragraphs| && l < |data[i].paragraphs[j].qas|
    ensures QaCount(data[..i]) + ParagraphQaCount(data[i].paragraphs[..j]) + l < |Flatten(data)|
    ensures var c := Flatten(data)[QaCount(data[..i]) + ParagraphQaCount(data[i].paragraphs[..j]) + l];
            var paragraph := data[i].paragraphs[j];
            var qa := paragraph.qas[l];
            && c.qasId == qa.id && c.questionText == qa.question && c.contextText == paragraph.context
            && |c.answers| == |qa.answers|
            && forall m :: 0 <= m < |qa.answers| ==> c.answers[m] == qa.answers[m].text
    decreases |data|
  {
    var n := |data|;
    var init := data[..n - 1];
    FlattenLength(init);
    if i < n - 1 {
      FlattenAt(init, i, j, l);
      assert init[..i] == data[..i];
    } else {
      assert data[..i] == init;
      ParagraphCasesAt(data[i].paragraphs, j, l);
    }
  }

  // ---------------------------------------------------------------------------
  // The comparison both scripts make
  // ---------------------------------------------------------------------------

  /** `preds.get(qas_id, "No prediction found").strip()`. */
  function PredictedAnswer(preds: Predictions, id: string): (r: string)
    ensures id in preds ==> r == Text.Strip(preds[id])
    ensures id !in preds ==> r == "No prediction found"
  {
    Text.Strip(if id in preds then preds[id] else "No prediction found")
  }

  /** `[ans.strip() for ans in case['answers']]`. */
  function StrippedAnswers(answers: seq<string>): (r: seq<string>)
    ensures |r| == |answers|
    ensures forall i :: 0 <= i < |answers| ==> r[i] == Text.Strip(answers[i])
    decreases |answers|
  {
    if answers == [] then [] else [Text.Strip(answers[0])] + StrippedAnswers(answers[1..])
  }

  /** The trimmed prediction equals one of the trimmed reference answers. */
  predicate IsExactMatch(preds: Predictions, c: Case)
  {
    PredictedAnswer(preds, c.qasId) in StrippedAnswers(c.answers)
  }

  /** The trimmed prediction is the no-answer sentinel, in any letter case. */
  predicate IsCannotAnswer(preds: Predictions, c: Case)
  {
    Text.Lower(PredictedAnswer(preds, c.qasId)) == "cannotanswer"
  }

  /** A match means that some reference answer, trimmed, is the trimmed prediction. */
  lemma ExactMatchMeaning(preds: Predictions, c: Case)
    ensures IsExactMatch(preds, c) <==>
      exists m :: 0 <= m < |c.answers| && Text.Strip(c.answers[m]) == PredictedAnswer(preds, c.qasId)
  {
  }

  /** A question without a prediction is compared as the text "No prediction found",
      which is never the sentinel. */
  lemma MissingPrediction(preds: Predictions, c: Case)
    requires c.qasId !in preds
    ensures IsExactMatch(preds, c) <==> "No prediction found" in StrippedAnswers(c.answers)
    ensures !IsCannotAnswer(preds, c)
  {
  }
}
