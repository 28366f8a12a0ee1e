/**
 * Questions and answers as `fetch_questions` hands them to the quiz
 * (main.py:85-120), and the first-match answer lookup of `handle_quiz`
 * (main.py:495).
 */
module Questions {
  import opened Wrappers

  /** One row of the question/answer join, already in the user's language (main.py:88-100). */
  datatype Row = Row(questionId: int, questionText: string, answerId: int,
                     answerText: string, isCorrect: bool, explanation: string)

  datatype Answer = Answer(answerId: int, text: string, isCorrect: bool, explanation: string)

  datatype Question = Question(questionId: int, text: string, answers: seq<Answer>)

  function AnswerOf(r: Row): Answer
  {
    Answer(r.answerId, r.answerText, r.isCorrect, r.explanation)
  }

  // ---------------------------------------------------------------------------
  // First matching answer (main.py:495)
  // ---------------------------------------------------------------------------

  /**
   * Position of the first answer whose text equals `text`, as
   * `next((a for a in answers if a['answer_text'] == text), None)` finds it.
   */
  function FirstMatch(answers: seq<Answer>, text: string): (r: Option<nat>)
    ensures r.None? <==> forall k :: 0 <= k < |answers| ==> answers[k].text != text
    ensures r.Some? ==> r.value < |answers| && answers[r.value].text == text
    ensures r.Some? ==> forall k :: 0 <= k < r.value ==> answers[k].text != text
  {
    if answers == [] then None
    else if answers[0].text == text then Some(0)
    else match FirstMatch(answers[1..], text)
      case None => None
      case Some(k) => Some(k + 1)
  }

  // ---------------------------------------------------------------------------
  // Grouping rows into questions (main.py:104-120)
  // ---------------------------------------------------------------------------

  /** Distinct question ids of `rows`, in order of first appearance. */
  function QuestionIds(rows: seq<Row>): seq<int>
  {
    if rows == [] then []
    else
      var ids := QuestionIds(rows[..|rows| - 1]);
      var id := rows[|rows| - 1].questionId;
      if id in ids then ids else ids + [id]
  }

  /** The answers of the rows that belong to question `id`, in row order. */
  function AnswersFor(rows: seq<Row>, id: int): seq<Answer>
  {
    if rows == [] then []
    else
      var last := rows[|rows| - 1];
      AnswersFor(rows[..|rows| - 1], id) + if last.questionId == id then [AnswerOf(last)] else []
  }

  /** The question text carried by the first row of question `id` (the row that created its entry). */
  function TextFor(rows: seq<Row>, id: int): string
  {
    if rows == [] then ""
    else if id in QuestionIds(rows[..|rows| - 1]) then TextFor(rows[..|rows| - 1], id)
    else rows[|rows| - 1].questionText
  }

  /** What `list(questions.values())` holds after the loop: one entry per distinct id. */
  function Grouped(rows: seq<Row>): seq<Question>
  {
    var ids := QuestionIds(rows);
    seq(|ids|, k requires 0 <= k < |ids| => Question(ids[k], TextFor(rows, ids[k]), AnswersFor(rows, ids[k])))
  }

  /** Total number of answers over all questions. */
  function AnswerCount(qs: seq<Question>): nat
  {
    if qs == [] then 0 else AnswerCount(qs[..|qs| - 1]) + |qs[|qs| - 1].answers|
  }

  /** The grouping loop of `fetch_questions`, with the insertion-ordered dict as a position map. */
  method GroupRows(rows: seq<Row>) returns (qs: seq<Question>)
    ensures qs == Grouped(rows)
  {
    var position: map<int, nat> := map[];
    qs := [];
    for i := 0 to |rows|
      invariant |qs| == |QuestionIds(rows[..i])|
      invariant forall k :: 0 <= k < |qs| ==> qs[k] == Grouped(rows[..i])[k]
      invariant forall id :: id in position <==> id in QuestionIds(rows[..i])
      invariant forall id :: id in position ==> position[id] < |qs| && QuestionIds(rows[..i])[position[id]] == id
    {
      var row := rows[i];
      assert rows[..i + 1][..i] == rows[..i];
      QuestionIdsDistinct(rows[..i]);
      GroupedSnoc(rows[..i + 1]);
      if row.questionId !in position {
        position := position[row.questionId := |qs|];
        qs := qs + [Question(row.questionId, row.questionText, [])];
      }
      var k := position[row.questionId];
      qs := qs[k := qs[k].(answers := qs[k].answers + [AnswerOf(row)])];
    }
    assert rows[..|rows|] == rows;
  }

  // ---------------------------------------------------------------------------
  // What the grouping promises
  // ---------------------------------------------------------------------------

  /** No question id is listed twice. */
  lemma {:induction false} QuestionIdsDistinct(rows: seq<Row>)
    ensures forall a, b :: 0 <= a < b < |QuestionIds(rows)| ==> QuestionIds(rows)[a] != QuestionIds(rows)[b]
  {
    if rows != [] {
      QuestionIdsDistinct(rows[..|rows| - 1]);
    }
  }

  /** Exactly the ids that occur in some row are listed. */
  lemma {:induction false} QuestionIdsAreRowIds(rows: seq<Row>, id: int)
    ensures id in QuestionIds(rows) <==> exists i :: 0 <= i < |rows| && rows[i].questionId == id
  {
    if rows != [] {
      var init := rows[..|rows| - 1];
      QuestionIdsAreRowIds(init, id);
      if id in QuestionIds(init) {
        var i :| 0 <= i < |init| && init[i].questionId == id;
        assert rows[i].questionId == id;
      }
      if exists i :: 0 <= i < |rows| && rows[i].questionId == id {
        var i :| 0 <= i < |rows| && rows[i].questionId == id;
        if i < |init| {
          assert init[i].questionId == id;
        }
      }
    }
  }

  /**
   * First-appearance order: every row of a later-listed question is preceded
   * by some row of each earlier-listed question.
   */
  lemma {:induction false} QuestionIdsInFirstAppearanceOrder(rows: seq<Row>, a: nat, b: nat, j: nat)
    requires a < b < |QuestionIds(rows)|
    requires j < |rows| && rows[j].questionId == QuestionIds(rows)[b]
    ensures exists i :: 0 <= i < j && rows[i].questionId == QuestionIds(rows)[a]
  {
    var init := rows[..|rows| - 1];
    var ids := QuestionIds(init);
    QuestionIdsAreRowIds(init, QuestionIds(rows)[a]);
    if j < |init| {
      assert init[j].questionId == rows[j].questionId;
      if b < |ids| {
        QuestionIdsInFirstAppearanceOrder(init, a, b, j);
        var i :| 0 <= i < j && init[i].questionId == ids[a];
        assert rows[i].questionId == ids[a];
      } else {
        QuestionIdsAreRowIds(init, rows[j].questionId);
        assert false;
      }
    } else {
      var i :| 0 <= i < |init| && init[i].questionId == ids[a];
      assert rows[i].questionId == ids[a];
    }
  }

  /** A question's text is the text of the first row carrying its id. */
  lemma {:induction false} TextForIsFirstRowText(rows: seq<Row>, i: nat)
    requires i < |rows|
    requires forall j :: 0 <= j < i ==> rows[j].questionId != rows[i].questionId
    ensures TextFor(rows, rows[i].questionId) == rows[i].questionText
  {
    var init := rows[..|rows| - 1];
    var id := rows[i].questionId;
    QuestionIdsAreRowIds(init, id);
    if i < |init| {
      assert init[i] == rows[i];
      TextForIsFirstRowText(init, i);
    } else {
      assert forall j :: 0 <= j < |init| ==> init[j] == rows[j];
    }
  }

  /** Every row's answer is kept: the answers of all questions add up to the rows. */
  lemma {:induction false} GroupedKeepsEveryRow(rows: seq<Row>)
    ensures AnswerCount(Grouped(rows)) == |rows|
  {
    if rows != [] {
      var init := rows[..|rows| - 1];
      GroupedKeepsEveryRow(init);
      GroupedSnoc(rows);
      if rows[|rows| - 1].questionId in QuestionIds(init) {
        QuestionIdsDistinct(init);
        ExtendingKeepsCount(Grouped(init), Grouped(rows), QuestionIds(init), rows[|rows| - 1]);
      } else {
        AddingKeepsCount(Grouped(init), Grouped(rows));
      }
    }
  }

  lemma ExtendingKeepsCount(before: seq<Question>, after: seq<Question>, ids: seq<int>, last: Row)
    requires |before| == |after| == |ids| && last.questionId in ids
    requires forall a, b :: 0 <= a < b < |ids| ==> ids[a] != ids[b]
    requires forall k :: 0 <= k < |ids| ==>
      after[k] == if ids[k] == last.questionId
                  then before[k].(answers := before[k].answers + [AnswerOf(last)])
                  else before[k]
    ensures AnswerCount(after) == AnswerCount(before) + 1
  {
    var k :| 0 <= k < |ids| && ids[k] == last.questionId;
    var updated := before[k := before[k].(answers := before[k].answers + [AnswerOf(last)])];
    assert forall j :: 0 <= j < |ids| ==> after[j] == updated[j];
    assert after == updated;
    AnswerCountAppend(before, k, AnswerOf(last));
  }

  lemma AddingKeepsCount(before: seq<Question>, after: seq<Question>)
    requires |after| == |before| + 1 && |after[|before|].answers| == 1
    requires forall k :: 0 <= k < |before| ==> after[k] == before[k]
    ensures AnswerCount(after) == AnswerCount(before) + 1
  {
    assert after[..|before|] == before;
  }

  /** How one more row changes the grouping: it extends its question's entry, or adds a new one. */
  lemma GroupedSnoc(rows: seq<Row>)
    requires rows != []
    ensures var init, last := rows[..|rows| - 1], rows[|rows| - 1];
      var ids := QuestionIds(init);
      && (last.questionId in ids ==> |Grouped(rows)| == |ids|)
      && (last.questionId !in ids ==>
            |Grouped(rows)| == |ids| + 1 &&
            Grouped(rows)[|ids|] == Question(last.questionId, last.questionText, [AnswerOf(last)]))
      && forall k :: 0 <= k < |ids| ==>
           Grouped(rows)[k] == if ids[k] == last.questionId
                               then Grouped(init)[k].(answers := Grouped(init)[k].answers + [AnswerOf(last)])
                               else Grouped(init)[k]
  {
    var init, last := rows[..|rows| - 1], rows[|rows| - 1];
    if last.questionId !in QuestionIds(init) {
      NoAnswersForUnlistedId(init, last.questionId);
    }
  }

  lemma {:induction false} NoAnswersForUnlistedId(rows: seq<Row>, id: int)
    requires id !in QuestionIds(rows)
    ensures AnswersFor(rows, id) == []
  {
    if rows != [] {
      NoAnswersForUnlistedId(rows[..|rows| - 1], id);
    }
  }

  lemma {:induction false} AnswerCountAppend(qs: seq<Question>, k: nat, a: Answer)
    requires k < |qs|
    ensures AnswerCount(qs[k := qs[k].(answers := qs[k].answers + [a])]) == AnswerCount(qs) + 1
  {
    var qs' := qs[k := qs[k].(answers := qs[k].answers + [a])];
    if k < |qs| - 1 {
      assert qs'[..|qs'| - 1] == qs[..|qs| - 1][k := qs[k].(answers := qs[k].answers + [a])];
      AnswerCountAppend(qs[..|qs| - 1], k, a);
    } else {
      assert qs'[..|qs'| - 1] == qs[..|qs| - 1];
    }
  }
}
