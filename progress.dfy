/**
 * The `user_progress` table and the transitions the handlers apply to it:
 * the quiz step of `handle_quiz` (main.py:444-599), the upsert of
 * `section_command` (main.py:276-280), the reset of
 * `reset_and_start_new_session` (main.py:185-188) and the lookup of
 * `check_active_quiz` (main.py:736-748).
 */
module Progress {
  import opened Wrappers
  import opened Sections
  import opened Questions

  /** A user is identified by their chat id. */
  type User = int

  /** The three tallies of a run. */
  datatype Stats = Stats(correct: nat, incorrect: nat, skipped: nat)
  {
    function Total(): nat
    {
      correct + incorrect + skipped
    }

    function Plus(d: Stats): Stats
    {
      Stats(correct + d.correct, incorrect + d.incorrect, skipped + d.skipped)
    }
  }

  const NoStats: Stats := Stats(0, 0, 0)

  /** One `user_progress` row; a null `current_index` means no run is active in the section. */
  datatype Cursor = Cursor(index: Option<nat>, correct: nat, incorrect: nat, skipped: nat)
  {
    function Counters(): Stats
    {
      Stats(correct, incorrect, skipped)
    }
  }

  /** The row a completed or reset run leaves behind (main.py:186, main.py:585). */
  const Cleared: Cursor := Cursor(None, 0, 0, 0)

  /** `user_progress`, keyed by (user, section). */
  type Table = map<(User, Section), Cursor>

  predicate IsActive(t: Table, u: User, s: Section)
  {
    (u, s) in t && t[(u, s)].index.Some?
  }

  /** What `handle_message` checks before it calls `handle_quiz` (main.py:719). */
  predicate IndexInRange(t: Table, u: User, s: Section, count: nat)
  {
    IsActive(t, u, s) ==> t[(u, s)].index.value < count
  }

  /** Every key other than `key` is present and mapped alike in both tables. */
  ghost predicate OthersUnchanged(t: Table, t': Table, key: (User, Section))
  {
    forall k :: k != key ==> (k in t <==> k in t') && (k in t ==> t'[k] == t[k])
  }

  /** The index `send_question` reads: a null or missing row is read as 0 (main.py:398-399). */
  function StoredIndexOrZero(t: Table, u: User, s: Section): (r: nat)
    ensures IsActive(t, u, s) ==> r == t[(u, s)].index.value
    ensures !IsActive(t, u, s) ==> r == 0
  {
    if IsActive(t, u, s) then t[(u, s)].index.value else 0
  }

  // ---------------------------------------------------------------------------
  // The quiz step (main.py:444-599)
  // ---------------------------------------------------------------------------

  /**
   * The index after question `index` of `count`: the next one, wrapping to 0
   * after the last (main.py:483, main.py:536).
   */
  function NextIndex(index: nat, count: nat): (r: nat)
    requires index < count
    ensures r < count
    ensures r == (index + 1) % count
    ensures r == 0 <==> index + 1 == count
  {
    if index + 1 < count then index + 1 else 0
  }

  /** What the user's message means to `handle_quiz` once translated button texts are recognised. */
  datatype Action = Skip | Continue | Reply(text: string)

  /** The reply to a recognised answer (main.py:496-527). */
  datatype Feedback = Feedback(correct: bool, explanation: string)

  datatype QuizOutcome =
    | NoActiveQuiz                                                  // main.py:594-596
    | Resent(index: nat)                                            // main.py:490-493
    | NextQuestion(feedback: Option<Feedback>, index: nat)          // main.py:552-553
    | Completed(feedback: Option<Feedback>, section: string, stats: Stats) // main.py:554-593

  /** How `handle_quiz` takes an action on the current question (main.py:476-496). */
  datatype Verdict = Skipped | Reconfirmed | Matched(answer: Answer) | Unmatched

  /**
   * Skip and continue are recognised first; any other text is looked up
   * among the question's answers and the first answer with that text is
   * selected (main.py:495).
   */
  function Judge(a: Action, q: Question): (v: Verdict)
    ensures v.Skipped? <==> a.Skip?
    ensures v.Reconfirmed? <==> a.Continue?
    ensures a.Reply? ==> (v.Unmatched? <==> forall k :: 0 <= k < |q.answers| ==> q.answers[k].text != a.text)
    ensures v.Matched? ==> a.Reply? && v.answer in q.answers && v.answer.text == a.text
    ensures v.Matched? ==>
      FirstMatch(q.answers, a.text).Some? && v.answer == q.answers[FirstMatch(q.answers, a.text).value]
  {
    match a
    case Skip => Skipped
    case Continue => Reconfirmed
    case Reply(text) =>
      match FirstMatch(q.answers, text)
      case Some(k) => Matched(q.answers[k])
      case None => Unmatched
  }

  /** The counter the UPDATE for a verdict bumps (main.py:476-482, main.py:528-534). */
  function Credit(v: Verdict): (d: Stats)
    ensures d.correct + d.incorrect + d.skipped == if v.Skipped? || v.Matched? then 1 else 0
    ensures d.skipped == 1 <==> v.Skipped?
    ensures d.correct == 1 <==> v.Matched? && v.answer.isCorrect
    ensures d.incorrect == 1 <==> v.Matched? && !v.answer.isCorrect
  {
    match v
    case Skipped => Stats(0, 0, 1)
    case Matched(answer) => if answer.isCorrect then Stats(1, 0, 0) else Stats(0, 1, 0)
    case _ => Stats(0, 0, 0)
  }

  /** The reply to a recognised answer: its correctness and explanation (main.py:496-527). */
  function FeedbackFor(v: Verdict): (r: Option<Feedback>)
    ensures r.Some? <==> v.Matched?
    ensures r.Some? ==> r.value.correct == v.answer.isCorrect && r.value.explanation == v.answer.explanation
  {
    match v
    case Matched(answer) => Some(Feedback(answer.isCorrect, answer.explanation))
    case _ => None
  }

  /**
   * `handle_quiz` for user `u` in section `s` with question list `qs`: the
   * new table and what the user is shown.
   */
  function HandleQuiz(t: Table, u: User, s: Section, a: Action, qs: seq<Question>): (r: (Table, QuizOutcome))
    requires IndexInRange(t, u, s, |qs|)
    ensures r.0.Keys == t.Keys && OthersUnchanged(t, r.0, (u, s))
    ensures IndexInRange(r.0, u, s, |qs|)
    ensures r.1 == NoActiveQuiz <==> !IsActive(t, u, s)
    ensures r.1.NoActiveQuiz? || r.1.Resent? ==> r.0 == t
    ensures a.Continue? ==> r.0 == t
  {
    var key := (u, s);
    if !IsActive(t, u, s) then (t, NoActiveQuiz)
    else
      var i := t[key].index.value;
      var v := Judge(a, qs[i]);
      if v.Reconfirmed? then (t, Resent(i))
      else
        var stats := t[key].Counters().Plus(Credit(v));
        var next := NextIndex(i, |qs|);
        if next > 0 then
          (t[key := Cursor(Some(next), stats.correct, stats.incorrect, stats.skipped)],
           NextQuestion(FeedbackFor(v), next))
        else
          (t[key := Cleared], Completed(FeedbackFor(v), SummaryLabel(Code(s)), stats))
  }

  /** A cursor on question `i` with the given tallies. */
  function AtQuestion(i: nat, st: Stats): (c: Cursor)
    ensures c.index == Some(i) && c.Counters() == st
  {
    Cursor(Some(i), st.correct, st.incorrect, st.skipped)
  }

  /**
   * Any action but "continue" on an active row: the verdict's tally is added
   * and the run moves to the next question, or, after the last one, the
   * summary is reported and the row cleared (main.py:483-489, 536-587).
   * A helper: the step lemmas below and the runs unfold `HandleQuiz` with it.
   */
  lemma AdvanceStep(t: Table, u: User, s: Section, a: Action, qs: seq<Question>)
    requires IsActive(t, u, s) && IndexInRange(t, u, s, |qs|) && !a.Continue?
    ensures var i := t[(u, s)].index.value;
      var v := Judge(a, qs[i]);
      var st := t[(u, s)].Counters().Plus(Credit(v));
      HandleQuiz(t, u, s, a, qs) ==
        if i + 1 < |qs| then (t[(u, s) := AtQuestion(i + 1, st)], NextQuestion(FeedbackFor(v), i + 1))
        else (t[(u, s) := Cleared], Completed(FeedbackFor(v), ButtonLabel(s), st))
  {
  }

  /**
   * Skip: one more skipped question, the other counters as they were, and the
   * index moves on; after the last question the summary (which includes this
   * skip) is reported and the row is cleared (main.py:476-489, main.py:552-587).
   */
  lemma SkipStep(t: Table, u: User, s: Section, qs: seq<Question>)
    requires IsActive(t, u, s) && IndexInRange(t, u, s, |qs|)
    ensures var c, i := t[(u, s)], t[(u, s)].index.value;
      var r := HandleQuiz(t, u, s, Skip, qs);
      var tally := Stats(c.correct, c.incorrect, c.skipped + 1);
      if i + 1 < |qs| then
        r.0[(u, s)] == Cursor(Some(i + 1), tally.correct, tally.incorrect, tally.skipped)
        && r.1 == NextQuestion(None, i + 1)
      else
        r.0[(u, s)] == Cleared && r.1 == Completed(None, ButtonLabel(s), tally)
  {
  }

  /**
   * A text equal to some answer's text: the first such answer decides whether
   * the correct or the incorrect counter goes up by one, its explanation is
   * shown, and the index moves on as for a skip (main.py:495-543).
   */
  lemma MatchedAnswerStep(t: Table, u: User, s: Section, text: string, qs: seq<Question>, k: nat)
    requires IsActive(t, u, s) && IndexInRange(t, u, s, |qs|)
    requires var q := qs[t[(u, s)].index.value];
      k < |q.answers| && q.answers[k].text == text
      && forall j :: 0 <= j < k ==> q.answers[j].text != text
    ensures var c, i := t[(u, s)], t[(u, s)].index.value;
      var answer := qs[i].answers[k];
      var r := HandleQuiz(t, u, s, Reply(text), qs);
      var tally := if answer.isCorrect then Stats(c.correct + 1, c.incorrect, c.skipped)
                   else Stats(c.correct, c.incorrect + 1, c.skipped);
      var fb := Some(Feedback(answer.isCorrect, answer.explanation));
      if i + 1 < |qs| then
        r.0[(u, s)] == Cursor(Some(i + 1), tally.correct, tally.incorrect, tally.skipped)
        && r.1 == NextQuestion(fb, i + 1)
      else
        r.0[(u, s)] == Cleared && r.1 == Completed(fb, ButtonLabel(s), tally)
  {
    var q := qs[t[(u, s)].index.value];
    var m := FirstMatch(q.answers, text);
    assert m.Some? && m.value == k by {
      assert !(m.value < k) && !(k < m.value);
    }
    var answer := q.answers[k];
    assert Judge(Reply(text), q) == Matched(answer);
    AdvanceStep(t, u, s, Reply(text), qs);
  }

  /**
   * A text that is no answer, no skip and no continue counts nothing and
   * shows no feedback, but still moves the index on (main.py:494-543).
   */
  lemma UnmatchedTextStep(t: Table, u: User, s: Section, text: string, qs: seq<Question>)
    requires IsActive(t, u, s) && IndexInRange(t, u, s, |qs|)
    requires forall a :: a in qs[t[(u, s)].index.value].answers ==> a.text != text
    ensures var c, i := t[(u, s)], t[(u, s)].index.value;
      var r := HandleQuiz(t, u, s, Reply(text), qs);
      if i + 1 < |qs| then
        r.0[(u, s)] == c.(index := Some(i + 1)) && r.1 == NextQuestion(None, i + 1)
      else
        r.0[(u, s)] == Cleared && r.1 == Completed(None, ButtonLabel(s), c.Counters())
  {
    var q := qs[t[(u, s)].index.value];
    assert forall k :: 0 <= k < |q.answers| ==> q.answers[k] in q.answers;
  }

  /** "No, continue my current session" re-sends the current question and changes nothing (main.py:490-493). */
  lemma ContinueStep(t: Table, u: User, s: Section, qs: seq<Question>)
    requires IsActive(t, u, s) && IndexInRange(t, u, s, |qs|)
    ensures HandleQuiz(t, u, s, Continue, qs) == (t, Resent(t[(u, s)].index.value))
  {
  }

  // ---------------------------------------------------------------------------
  // Selecting a section, resetting, finding the active run
  // ---------------------------------------------------------------------------

  /**
   * `INSERT ... ON CONFLICT (user_id, section) DO UPDATE SET current_index = 0`
   * (main.py:276-280): the section's index becomes 0, its counters stay as
   * they were (zero for a new row), and no other row changes.
   */
  function SelectSection(t: Table, u: User, s: Section): (r: Table)
    ensures r.Keys == t.Keys + {(u, s)} && OthersUnchanged(t, r, (u, s))
    ensures r[(u, s)].index == Some(0)
    ensures r[(u, s)].Counters() == if (u, s) in t then t[(u, s)].Counters() else NoStats
  {
    if (u, s) in t then t[(u, s) := t[(u, s)].(index := Some(0))]
    else t[(u, s) := Cursor(Some(0), 0, 0, 0)]
  }

  /**
   * The UPDATE of `reset_and_start_new_session` (main.py:185-188): every row
   * of the user is cleared; other users' rows are untouched.
   */
  function ResetUser(t: Table, u: User): (r: Table)
    ensures r.Keys == t.Keys
    ensures forall k :: k in t && k.0 == u ==> r[k] == Cleared
    ensures forall k :: k in t && k.0 != u ==> r[k] == t[k]
  {
    map k | k in t :: if k.0 == u then Cleared else t[k]
  }

  /** The row `check_active_quiz` returns. */
  datatype ActiveRow = ActiveRow(section: Section, index: nat)

  /** Position of a section in `AllSections`. */
  function Rank(s: Section): (r: nat)
    ensures r < |AllSections| && AllSections[r] == s
  {
    match s
    case ITJ => 0
    case ITM => 1
    case QAJ => 2
    case QAM => 3
  }

  /**
   * `check_active_quiz` (main.py:736-748): a row of the user with a non-null
   * index, or none. The query has no ORDER BY; the model takes the first
   * active section in declaration order.
   */
  function FindActive(t: Table, u: User): (r: Option<ActiveRow>)
    ensures r.None? <==> forall s :: !IsActive(t, u, s)
    ensures r.Some? ==> IsActive(t, u, r.value.section) && t[(u, r.value.section)].index == Some(r.value.index)
    ensures r.Some? ==> forall s :: Rank(s) < Rank(r.value.section) ==> !IsActive(t, u, s)
  {
    if IsActive(t, u, ITJ) then Some(ActiveRow(ITJ, t[(u, ITJ)].index.value))
    else if IsActive(t, u, ITM) then Some(ActiveRow(ITM, t[(u, ITM)].index.value))
    else if IsActive(t, u, QAJ) then Some(ActiveRow(QAJ, t[(u, QAJ)].index.value))
    else if IsActive(t, u, QAM) then Some(ActiveRow(QAM, t[(u, QAM)].index.value))
    else
      assert forall s :: !IsActive(t, u, s) by {
        forall s ensures !IsActive(t, u, s) {
          EverySectionListed(s);
        }
      }
      None
  }

  /** After a reset the user has no active run and every counter of theirs reads zero. */
  lemma ResetIsTotal(t: Table, u: User)
    ensures FindActive(ResetUser(t, u), u).None?
    ensures forall s :: (u, s) in ResetUser(t, u) ==> ResetUser(t, u)[(u, s)].Counters() == NoStats
  {
  }

  // ---------------------------------------------------------------------------
  // Invariants of the table
  // ---------------------------------------------------------------------------

  /** A row without an active run holds zero counters. */
  predicate InactiveZero(t: Table)
  {
    forall k :: k in t && t[k].index.None? ==> t[k] == Cleared
  }

  /** The design's intent: at most one active section per user. */
  ghost predicate AtMostOneActive(t: Table, u: User)
  {
    forall s, s' :: IsActive(t, u, s) && IsActive(t, u, s') ==> s == s'
  }

  /** Every transition keeps inactive rows at zero. */
  lemma TransitionsKeepInactiveZero(t: Table, u: User, s: Section, a: Action, qs: seq<Question>)
    requires InactiveZero(t)
    ensures InactiveZero(SelectSection(t, u, s))
    ensures InactiveZero(ResetUser(t, u))
    ensures IndexInRange(t, u, s, |qs|) ==> InactiveZero(HandleQuiz(t, u, s, a, qs).0)
  {
  }

  /**
   * Resetting a user who has no active run changes nothing, since their rows
   * are already cleared.
   */
  lemma ResetOfIdleUserIsIdentity(t: Table, u: User)
    requires InactiveZero(t) && FindActive(t, u).None?
    ensures ResetUser(t, u) == t
  {
    forall k | k in t
      ensures ResetUser(t, u)[k] == t[k]
    {
      if k.0 == u {
        assert !IsActive(t, u, k.1);
      }
    }
  }

  /** A quiz step and a reset never make a second section active. */
  lemma StepsKeepOneActive(t: Table, u: User, v: User, s: Section, a: Action, qs: seq<Question>)
    requires AtMostOneActive(t, v)
    ensures AtMostOneActive(ResetUser(t, u), v)
    ensures IndexInRange(t, u, s, |qs|) ==> AtMostOneActive(HandleQuiz(t, u, s, a, qs).0, v)
  {
    var reset := ResetUser(t, u);
    forall s1, s2 | IsActive(reset, v, s1) && IsActive(reset, v, s2)
      ensures s1 == s2
    {
      assert IsActive(t, v, s1) && IsActive(t, v, s2);
    }
    if IndexInRange(t, u, s, |qs|) {
      var t' := HandleQuiz(t, u, s, a, qs).0;
      forall s1, s2 | IsActive(t', v, s1) && IsActive(t', v, s2)
        ensures s1 == s2
      {
        assert IsActive(t, v, s1) && IsActive(t, v, s2);
      }
    }
  }

  /** Selecting a section from idle (or re-selecting the active one) leaves one active run, at index 0. */
  lemma SelectFromIdle(t: Table, u: User, s: Section)
    requires FindActive(t, u).None? || FindActive(t, u).value.section == s
    requires AtMostOneActive(t, u)
    ensures AtMostOneActive(SelectSection(t, u, s), u)
    ensures FindActive(SelectSection(t, u, s), u) == Some(ActiveRow(s, 0))
  {
    var t' := SelectSection(t, u, s);
    forall s' | s' != s
      ensures !IsActive(t', u, s')
    {
      assert !IsActive(t, u, s');
    }
  }

  /**
   * Nothing keeps a section label from being routed while another run is
   * active, so selecting can leave two active sections for one user.
   */
  lemma SelectCanActivateTwoSections()
    ensures var t := map[(1, ITJ) := Cursor(Some(2), 1, 1, 0)];
      AtMostOneActive(t, 1) && !AtMostOneActive(SelectSection(t, 1, QAJ), 1)
  {
    var t := map[(1, ITJ) := Cursor(Some(2), 1, 1, 0)];
    assert IsActive(SelectSection(t, 1, QAJ), 1, ITJ) && IsActive(SelectSection(t, 1, QAJ), 1, QAJ);
  }
}
