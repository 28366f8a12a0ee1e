/**
 * Runs of `handle_quiz` over a user's successive messages in one section:
 * what a full pass through the questions reports and leaves behind, and why
 * "No, continue my current session" never disturbs a run.
 */
module Runs {
  import opened Wrappers
  import opened Sections
  import opened Questions
  import opened Progress

  /** Handles `acts` one after another in section `s`; the final table and every outcome. */
  function Run(t: Table, u: User, s: Section, acts: seq<Action>, qs: seq<Question>): (r: (Table, seq<QuizOutcome>))
    requires IndexInRange(t, u, s, |qs|)
    ensures IndexInRange(r.0, u, s, |qs|) && |r.1| == |acts|
    ensures r.0.Keys == t.Keys && OthersUnchanged(t, r.0, (u, s))
  {
    if acts == [] then (t, [])
    else
      var before := Run(t, u, s, acts[..|acts| - 1], qs);
      var step := HandleQuiz(before.0, u, s, acts[|acts| - 1], qs);
      (step.0, before.1 + [step.1])
  }

  /** No action in `acts` is "continue". */
  predicate Advancing(acts: seq<Action>)
  {
    forall i :: 0 <= i < |acts| ==> !acts[i].Continue?
  }

  /** What the i-th action earns on the i-th question, summed. */
  function Credits(acts: seq<Action>, qs: seq<Question>): Stats
    requires |acts| <= |qs|
  {
    if acts == [] then NoStats
    else Credits(acts[..|acts| - 1], qs).Plus(Credit(Judge(acts[|acts| - 1], qs[|acts| - 1])))
  }

  /** How many of the actions were texts that matched no answer of their question. */
  function UnmatchedCount(acts: seq<Action>, qs: seq<Question>): nat
    requires |acts| <= |qs|
  {
    if acts == [] then 0
    else UnmatchedCount(acts[..|acts| - 1], qs) + if Judge(acts[|acts| - 1], qs[|acts| - 1]).Unmatched? then 1 else 0
  }

  /** Every advancing action earns one tally except an unmatched text. */
  lemma {:induction false} CreditsAddUp(acts: seq<Action>, qs: seq<Question>)
    requires |acts| <= |qs| && Advancing(acts)
    ensures Credits(acts, qs).Total() + UnmatchedCount(acts, qs) == |acts|
  {
    if acts != [] {
      var init := acts[..|acts| - 1];
      assert Advancing(init) by {
        forall i | 0 <= i < |init| ensures !init[i].Continue? {
          assert init[i] == acts[i];
        }
      }
      CreditsAddUp(init, qs);
      OneTallyOrUnmatched(acts[|acts| - 1], qs[|acts| - 1]);
    }
  }

  /** An advancing action either earns one tally or is an unmatched text. */
  lemma OneTallyOrUnmatched(a: Action, q: Question)
    requires !a.Continue?
    ensures Credit(Judge(a, q)).Total() + (if Judge(a, q).Unmatched? then 1 else 0) == 1
  {
  }

  /**
   * From index 0, fewer advancing actions than questions leave the run on
   * the question after the last one answered, with every tally added.
   */
  lemma {:induction false} PartialRun(t: Table, u: User, s: Section, acts: seq<Action>, qs: seq<Question>)
    requires (u, s) in t && t[(u, s)].index == Some(0)
    requires |acts| < |qs| && Advancing(acts)
    ensures Run(t, u, s, acts, qs).0 == t[(u, s) := AtQuestion(|acts|, t[(u, s)].Counters().Plus(Credits(acts, qs)))]
    ensures forall i :: 0 <= i < |acts| ==>
      Run(t, u, s, acts, qs).1[i] == NextQuestion(FeedbackFor(Judge(acts[i], qs[i])), i + 1)
  {
    if acts == [] {
      assert t[(u, s)] == AtQuestion(0, t[(u, s)].Counters().Plus(NoStats));
    } else {
      var init := acts[..|acts| - 1];
      assert Advancing(init) by {
        forall i | 0 <= i < |init| ensures !init[i].Continue? {
          assert init[i] == acts[i];
        }
      }
      PartialRun(t, u, s, init, qs);
      RunStep(t, u, s, acts, qs);
    }
  }

  /** One more advancing step on a run that is still before its last question. */
  lemma RunStep(t: Table, u: User, s: Section, acts: seq<Action>, qs: seq<Question>)
    requires (u, s) in t && t[(u, s)].index == Some(0)
    requires 0 < |acts| <= |qs| && !acts[|acts| - 1].Continue?
    requires var init := acts[..|acts| - 1];
      && Run(t, u, s, init, qs).0 == t[(u, s) := AtQuestion(|init|, t[(u, s)].Counters().Plus(Credits(init, qs)))]
      && forall i :: 0 <= i < |init| ==>
           Run(t, u, s, init, qs).1[i] == NextQuestion(FeedbackFor(Judge(init[i], qs[i])), i + 1)
    ensures var v := Judge(acts[|acts| - 1], qs[|acts| - 1]);
      var st := t[(u, s)].Counters().Plus(Credits(acts, qs));
      && Run(t, u, s, acts, qs).0 == t[(u, s) := if |acts| < |qs| then AtQuestion(|acts|, st) else Cleared]
      && Run(t, u, s, acts, qs).1[|acts| - 1] ==
           (if |acts| < |qs| then NextQuestion(FeedbackFor(v), |acts|) else Completed(FeedbackFor(v), ButtonLabel(s), st))
      && forall i :: 0 <= i < |acts| - 1 ==>
           Run(t, u, s, acts, qs).1[i] == NextQuestion(FeedbackFor(Judge(acts[i], qs[i])), i + 1)
  {
    var init := acts[..|acts| - 1];
    var key := (u, s);
    var st := t[key].Counters().Plus(Credits(init, qs));
    var v := Judge(acts[|init|], qs[|init|]);
    RunSnoc(t, u, s, acts, qs);
    PlusAssociative(t[key].Counters(), Credits(init, qs), Credit(v));
    StepFrom(t, u, s, Run(t, u, s, init, qs).0, |init|, st, acts[|init|], qs);
    forall i | 0 <= i < |init|
      ensures init[i] == acts[i]
    {
    }
  }

  /** A run with one more action is the shorter run followed by one quiz step. */
  lemma RunSnoc(t: Table, u: User, s: Section, acts: seq<Action>, qs: seq<Question>)
    requires IndexInRange(t, u, s, |qs|) && 0 < |acts| <= |qs|
    ensures var init := acts[..|acts| - 1];
      var before := Run(t, u, s, init, qs);
      var step := HandleQuiz(before.0, u, s, acts[|acts| - 1], qs);
      && Run(t, u, s, acts, qs) == (step.0, before.1 + [step.1])
      && Credits(acts, qs) == Credits(init, qs).Plus(Credit(Judge(acts[|acts| - 1], qs[|acts| - 1])))
  {
  }

  /** A quiz step taken on question `i` of a row whose counters read `st`. */
  lemma StepFrom(t: Table, u: User, s: Section, t1: Table, i: nat, st: Stats, a: Action, qs: seq<Question>)
    requires (u, s) in t && i < |qs| && !a.Continue?
    requires t1 == t[(u, s) := AtQuestion(i, st)]
    ensures var v := Judge(a, qs[i]);
      var st' := st.Plus(Credit(v));
      HandleQuiz(t1, u, s, a, qs) ==
        if i + 1 < |qs| then (t[(u, s) := AtQuestion(i + 1, st')], NextQuestion(FeedbackFor(v), i + 1))
        else (t[(u, s) := Cleared], Completed(FeedbackFor(v), ButtonLabel(s), st'))
  {
    AdvanceStep(t1, u, s, a, qs);
    assert t1[(u, s)].Counters() == st;
    assert t1[(u, s) := Cleared] == t[(u, s) := Cleared];
    assert t1[(u, s) := AtQuestion(i + 1, st.Plus(Credit(Judge(a, qs[i]))))]
        == t[(u, s) := AtQuestion(i + 1, st.Plus(Credit(Judge(a, qs[i]))))];
  }

  lemma PlusAssociative(a: Stats, b: Stats, c: Stats)
    ensures a.Plus(b).Plus(c) == a.Plus(b.Plus(c))
  {
  }

  /**
   * Starting at index 0, exactly as many advancing actions as there are
   * questions complete the run: each earlier step shows the next question,
   * the last reports the initial tallies plus everything earned (its own
   * step included), and the row is cleared; no other row changes.
   */
  lemma FullRun(t: Table, u: User, s: Section, acts: seq<Action>, qs: seq<Question>)
    requires (u, s) in t && t[(u, s)].index == Some(0)
    requires |acts| == |qs| > 0 && Advancing(acts)
    ensures Run(t, u, s, acts, qs).0 == t[(u, s) := Cleared]
    ensures Run(t, u, s, acts, qs).1[|qs| - 1] ==
      Completed(FeedbackFor(Judge(acts[|qs| - 1], qs[|qs| - 1])), ButtonLabel(s), t[(u, s)].Counters().Plus(Credits(acts, qs)))
    ensures forall i :: 0 <= i < |qs| - 1 ==>
      Run(t, u, s, acts, qs).1[i] == NextQuestion(FeedbackFor(Judge(acts[i], qs[i])), i + 1)
  {
    var init := acts[..|acts| - 1];
    assert Advancing(init) by {
      forall i | 0 <= i < |init| ensures !init[i].Continue? {
        assert init[i] == acts[i];
      }
    }
    PartialRun(t, u, s, init, qs);
    RunStep(t, u, s, acts, qs);
  }

  /**
   * A run started from zeroed counters reports, on completion, as many
   * tallies as there were questions minus the unmatched texts.
   */
  lemma FreshRunTally(t: Table, u: User, s: Section, acts: seq<Action>, qs: seq<Question>)
    requires (u, s) in t && t[(u, s)] == AtQuestion(0, NoStats)
    requires |acts| == |qs| > 0 && Advancing(acts)
    ensures Run(t, u, s, acts, qs).1[|qs| - 1].Completed?
    ensures Run(t, u, s, acts, qs).1[|qs| - 1].stats.Total() == |qs| - UnmatchedCount(acts, qs)
  {
    FullRun(t, u, s, acts, qs);
    CreditsAddUp(acts, qs);
  }

  /** The actions with every "continue" taken out. */
  function WithoutContinues(acts: seq<Action>): seq<Action>
  {
    if acts == [] then []
    else WithoutContinues(acts[..|acts| - 1]) + if acts[|acts| - 1].Continue? then [] else [acts[|acts| - 1]]
  }

  /** "Continue" messages anywhere in a run leave the table as the run without them would. */
  lemma {:induction false} ContinuesChangeNothing(t: Table, u: User, s: Section, acts: seq<Action>, qs: seq<Question>)
    requires IndexInRange(t, u, s, |qs|)
    ensures Run(t, u, s, acts, qs).0 == Run(t, u, s, WithoutContinues(acts), qs).0
  {
    if acts != [] {
      var init, last := acts[..|acts| - 1], acts[|acts| - 1];
      ContinuesChangeNothing(t, u, s, init, qs);
      var before := Run(t, u, s, init, qs);
      assert Run(t, u, s, acts, qs).0 == HandleQuiz(before.0, u, s, last, qs).0;
      if last.Continue? {
        assert WithoutContinues(acts) == WithoutContinues(init);
      } else {
        var w := WithoutContinues(init) + [last];
        assert WithoutContinues(acts) == w;
        assert w[..|w| - 1] == WithoutContinues(init);
        assert Run(t, u, s, w, qs).0 == HandleQuiz(Run(t, u, s, WithoutContinues(init), qs).0, u, s, last, qs).0;
      }
    }
  }

  /** Any number of "continue" messages in a row change neither the index nor a counter. */
  lemma RepeatedContinue(t: Table, u: User, s: Section, n: nat, qs: seq<Question>)
    requires IndexInRange(t, u, s, |qs|)
    ensures Run(t, u, s, seq(n, _ => Continue), qs).0 == t
  {
    ContinuesChangeNothing(t, u, s, seq(n, _ => Continue), qs);
    OnlyContinues(n);
  }

  lemma {:induction false} OnlyContinues(n: nat)
    ensures WithoutContinues(seq(n, _ => Continue)) == []
  {
    if n > 0 {
      assert seq(n, _ => Continue)[..n - 1] == seq(n - 1, _ => Continue);
      OnlyContinues(n - 1);
    }
  }

  /** The selection and the first two steps of `ThreeQuestionRun`. */
  lemma ThreeQuestionRunFirstSteps(q: Question)
    requires q.answers == [Answer(1, "yes", true, "right"), Answer(2, "no", false, "wrong")]
    ensures var qs, row := [q, q, q], map[(7, QAJ) := Cleared];
      var t0, t1, t2 := row[(7, QAJ) := AtQuestion(0, NoStats)], row[(7, QAJ) := AtQuestion(1, Stats(0, 1, 0))],
                        row[(7, QAJ) := AtQuestion(2, Stats(0, 1, 1))];
      && SelectSection(map[], 7, QAJ) == t0
      && HandleQuiz(t0, 7, QAJ, Reply("no"), qs) == (t1, NextQuestion(Some(Feedback(false, "wrong")), 1))
      && HandleQuiz(t1, 7, QAJ, Skip, qs) == (t2, NextQuestion(None, 2))
  {
    var qs, row := [q, q, q], map[(7, QAJ) := Cleared];
    var t0, t1, t2 := row[(7, QAJ) := AtQuestion(0, NoStats)], row[(7, QAJ) := AtQuestion(1, Stats(0, 1, 0))],
                      row[(7, QAJ) := AtQuestion(2, Stats(0, 1, 1))];
    assert SelectSection(map[], 7, QAJ) == t0;
    assert HandleQuiz(t0, 7, QAJ, Reply("no"), qs) == (t1, NextQuestion(Some(Feedback(false, "wrong")), 1)) by {
      assert Judge(Reply("no"), q) == Matched(q.answers[1]) by {
        assert q.answers[0].text != "no";
      }
      StepFrom(row, 7, QAJ, t0, 0, NoStats, Reply("no"), qs);
    }
    assert HandleQuiz(t1, 7, QAJ, Skip, qs) == (t2, NextQuestion(None, 2)) by {
      StepFrom(row, 7, QAJ, t1, 1, Stats(0, 1, 0), Skip, qs);
    }
  }

  /** The last step of `ThreeQuestionRun`. */
  lemma ThreeQuestionRunLastStep(q: Question)
    requires q.answers == [Answer(1, "yes", true, "right"), Answer(2, "no", false, "wrong")]
    ensures var row := map[(7, QAJ) := Cleared];
      HandleQuiz(row[(7, QAJ) := AtQuestion(2, Stats(0, 1, 1))], 7, QAJ, Reply("yes"), [q, q, q])
        == (row, Completed(Some(Feedback(true, "right")), "QA/QC. Junior +", Stats(1, 1, 1)))
  {
    var row := map[(7, QAJ) := Cleared];
    var t2 := row[(7, QAJ) := AtQuestion(2, Stats(0, 1, 1))];
    var v := Judge(Reply("yes"), q);
    assert v == Matched(q.answers[0]) by {
      assert FirstMatch(q.answers, "yes") == Some(0);
    }
    assert Credit(v) == Stats(1, 0, 0) && FeedbackFor(v) == Some(Feedback(true, "right"));
    AdvanceStep(t2, 7, QAJ, Reply("yes"), [q, q, q]);
    assert t2[(7, QAJ) := Cleared] == row;
  }

  /**
   * A worked run: three questions in "QA/QC. Junior +", answered wrongly,
   * skipped, then answered correctly. The first two steps move on to the
   * next question; the third reports one answer of each kind and clears
   * the row.
   */
  lemma ThreeQuestionRun(q: Question)
    requires q.answers == [Answer(1, "yes", true, "right"), Answer(2, "no", false, "wrong")]
    ensures var qs, row := [q, q, q], map[(7, QAJ) := Cleared];
      var t0, t1, t2 := row[(7, QAJ) := AtQuestion(0, NoStats)], row[(7, QAJ) := AtQuestion(1, Stats(0, 1, 0))],
                        row[(7, QAJ) := AtQuestion(2, Stats(0, 1, 1))];
      && SelectSection(map[], 7, QAJ) == t0
      && HandleQuiz(t0, 7, QAJ, Reply("no"), qs) == (t1, NextQuestion(Some(Feedback(false, "wrong")), 1))
      && HandleQuiz(t1, 7, QAJ, Skip, qs) == (t2, NextQuestion(None, 2))
      && HandleQuiz(t2, 7, QAJ, Reply("yes"), qs) == (row, Completed(Some(Feedback(true, "right")), "QA/QC. Junior +", Stats(1, 1, 1)))
  {
    ThreeQuestionRunFirstSteps(q);
    ThreeQuestionRunLastStep(q);
  }
}
