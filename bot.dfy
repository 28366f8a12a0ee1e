/**
 * The bot's handlers as methods of one object whose fields are the state
 * they read and write in place: the `user_progress` table, `users.language`,
 * the `waiting_for_email` dictionary, the stored emails and the quiz
 * snapshot kept in `context.user_data['active_section']`.
 */
module Bot {
  import opened Wrappers
  import opened Sections
  import opened Questions
  import opened Progress
  import opened Routing

  /** What a handler finally shows the user. */
  datatype Reply =
    | SectionMenu                                               // main.py:190-208
    | ResetPrompt                                               // main.py:143-154
    | ShowQuestion(section: Section, index: nat, question: Question)  // main.py:380-442
    | QuizStep(outcome: QuizOutcome)                            // main.py:444-599
    | SectionUnavailable                                        // main.py:287-290
    | FetchTrouble                                              // main.py:782
    | SectionFinished                                           // main.py:722
    | NoSessionFound                                            // main.py:687
    | LanguagePrompt(progressSaved: bool)                       // main.py:237-250
    | EmailPrompt(progressSaved: bool)                          // main.py:315-325
    | EmailRetry                                                // main.py:647-650
    | SmallTalkReply                                            // main.py:725-731
    | QuestionMissing                                           // `questions[index]` past the end

  /**
   * What `send_question` shows: the question at the stored index of the
   * section, a missing row or null index read as 0 (main.py:396-403).
   */
  function ShownQuestion(t: Table, u: User, s: Section, qs: seq<Question>): (r: Reply)
    ensures r.ShowQuestion? <==> StoredIndexOrZero(t, u, s) < |qs|
    ensures r.ShowQuestion? ==> r.section == s && r.index == StoredIndexOrZero(t, u, s) && r.question == qs[r.index]
    ensures !r.ShowQuestion? ==> r.QuestionMissing?
  {
    var i := StoredIndexOrZero(t, u, s);
    if i < |qs| then ShowQuestion(s, i, qs[i]) else QuestionMissing
  }

  /**
   * What `resume_quiz_if_applicable` shows for a snapshot `row`: the
   * question at the stored index when the snapshot's index is within the
   * fetched list, else the "trouble fetching" message (main.py:774-782).
   */
  function ResumeReply(t: Table, u: User, row: ActiveRow, qs: seq<Question>): Reply
  {
    if |qs| > 0 && row.index < |qs| then ShownQuestion(t, u, row.section, qs) else FetchTrouble
  }

  /**
   * A snapshot that agrees with the table resumes exactly the question the
   * user was on.
   */
  lemma ResumeShowsCurrentQuestion(t: Table, u: User, row: ActiveRow, qs: seq<Question>)
    requires IsActive(t, u, row.section) && t[(u, row.section)].index == Some(row.index)
    requires row.index < |qs|
    ensures ResumeReply(t, u, row, qs) == ShowQuestion(row.section, row.index, qs[row.index])
  {
  }

  /** The users-table language, English when none is stored (main.py:165-171). */
  function LanguageOf(language: map<User, Lang>, u: User): Lang
  {
    if u in language then language[u] else En
  }

  /**
   * `context.user_data['active_section'] = active_section` in the commands
   * that interrupt a quiz: the active row is kept, `None` clears it
   * (main.py:253, main.py:330, main.py:377).
   */
  function SaveSnapshot(saved: map<User, ActiveRow>, u: User, active: Option<ActiveRow>): (r: map<User, ActiveRow>)
    ensures active.Some? ==> u in r && r[u] == active.value
    ensures active.None? ==> u !in r
    ensures forall v :: v != u ==> (v in r <==> v in saved) && (v in r ==> r[v] == saved[v])
  {
    if active.Some? then saved[u := active.value] else saved - {u}
  }

  /**
   * What `resume_quiz_if_applicable` shows (main.py:750-786): the snapshot,
   * else the active row, is resumed; with neither, `/start` shows the
   * section menu.
   */
  function ResumeResult(t: Table, saved: map<User, ActiveRow>, u: User, repo: (Section, Lang) -> seq<Row>, lang: Lang): Reply
  {
    var target := if u in saved then Some(saved[u]) else FindActive(t, u);
    match target
    case None => SectionMenu
    case Some(row) => ResumeReply(t, u, row, Grouped(repo(row.section, lang)))
  }

  /**
   * An interrupting command saves the active row and leaves the table alone,
   * so the resumption that follows shows the very question the user was on.
   */
  lemma InterruptResumesSameQuestion(t: Table, saved: map<User, ActiveRow>, u: User,
                                     repo: (Section, Lang) -> seq<Row>, lang: Lang)
    requires FindActive(t, u).Some?
    requires FindActive(t, u).value.index < |Grouped(repo(FindActive(t, u).value.section, lang))|
    ensures var row, qs := FindActive(t, u).value, Grouped(repo(FindActive(t, u).value.section, lang));
      ResumeResult(t, SaveSnapshot(saved, u, FindActive(t, u)), u, repo, lang)
        == ShowQuestion(row.section, row.index, qs[row.index])
  {
    var row := FindActive(t, u).value;
    ResumeShowsCurrentQuestion(t, u, row, Grouped(repo(row.section, lang)));
  }

  /**
   * With neither a snapshot nor an active row, resumption falls back to
   * `/start`, which in a valid table resets nothing and shows the menu.
   */
  lemma IdleResumeShowsMenu(t: Table, saved: map<User, ActiveRow>, u: User,
                            repo: (Section, Lang) -> seq<Row>, lang: Lang)
    requires u !in saved && FindActive(t, u).None?
    ensures ResumeResult(t, saved, u, repo, lang) == SectionMenu
  {
  }

  class QuizBot {
    /** `user_progress`. */
    var progress: Table
    /** `users.language`. */
    var language: map<User, Lang>
    /** `waiting_for_email` (main.py:328). */
    var waitingForEmail: map<User, bool>
    /** `user_details.email` of subscribed users (main.py:635-638). */
    var emails: map<User, string>
    /** `context.user_data['active_section']`; no key stands for `None`. */
    var savedActive: map<User, ActiveRow>
    /** The `questions`/`answers` join of one section in one language, ordered by question and answer id. */
    const repo: (Section, Lang) -> seq<Row>
    /** The Russian translation of the four compared button texts. */
    const russian: Labels

    /** A row without an active run holds zero counters. */
    predicate Valid()
      reads this
    {
      InactiveZero(progress)
    }

    constructor (repo: (Section, Lang) -> seq<Row>, russian: Labels)
      ensures Valid()
      ensures progress == map[] && language == map[] && waitingForEmail == map[]
      ensures emails == map[] && savedActive == map[]
      ensures this.repo == repo && this.russian == russian
    {
      progress := map[];
      language := map[];
      waitingForEmail := map[];
      emails := map[];
      savedActive := map[];
      this.repo := repo;
      this.russian := russian;
    }

    function Lang(u: User): Lang
      reads this
    {
      LanguageOf(language, u)
    }

    /** The identity for English (main.py:71-73), the catalogue for Russian. */
    function LabelsOf(u: User): Labels
      reads this
    {
      if Lang(u) == En then EnglishLabels else russian
    }

    function Waiting(u: User): bool
      reads this
    {
      u in waitingForEmail && waitingForEmail[u]
    }

    /** The question list `fetch_questions` builds for a section in the user's language. */
    function QuestionsFor(u: User, s: Section): seq<Question>
      reads this
    {
      Grouped(repo(s, Lang(u)))
    }

    /** The branch of `handle_message` the text takes (main.py:620-731). */
    function RouteOf(u: User, text: string): Route
      reads this
    {
      RouteMessage(Waiting(u), text, LabelsOf(u), FindActive(progress, u))
    }

    /** `send_question` (main.py:380-442): reads the stored index and shows that question. */
    method SendQuestion(u: User, s: Section, qs: seq<Question>) returns (r: Reply)
      ensures r == ShownQuestion(progress, u, s, qs)
    {
      var index := 0;
      if (u, s) in progress && progress[(u, s)].index.Some? {
        index := progress[(u, s)].index.value;
      }
      if index < |qs| {
        r := ShowQuestion(s, index, qs[index]);
      } else {
        r := QuestionMissing;
      }
    }

    /**
     * `reset_and_start_new_session` (main.py:159-208): every section of the
     * user goes back to no index and zero counters, then the section menu.
     */
    method ResetAndStartNewSession(u: User) returns (r: Reply)
      requires Valid()
      modifies this`progress
      ensures Valid()
      ensures progress == ResetUser(old(progress), u) && r == SectionMenu
      ensures FindActive(progress, u).None?
    {
      ResetIsTotal(progress, u);
      TransitionsKeepInactiveZero(progress, u, ITJ, Skip, []);
      progress := ResetUser(progress, u);
      r := SectionMenu;
    }

    /**
     * `start_command` (main.py:124-157): with a run in progress the user is
     * asked before anything is reset; otherwise the session is reset, which
     * changes nothing in a valid table.
     */
    method StartCommand(u: User) returns (r: Reply)
      requires Valid()
      modifies this`progress
      ensures Valid()
      ensures FindActive(old(progress), u).Some? ==> r == ResetPrompt
      ensures FindActive(old(progress), u).None? ==> r == SectionMenu
      ensures progress == old(progress)
    {
      if FindActive(progress, u).Some? {
        r := ResetPrompt;
      } else {
        ResetOfIdleUserIsIdentity(progress, u);
        r := ResetAndStartNewSession(u);
      }
    }

    /**
     * `section_command` (main.py:255-290): the row's index becomes 0 (the
     * upsert at main.py:276-280), then the first question is shown, or the
     * section is reported unavailable although its row stays active.
     */
    method SectionCommand(u: User, s: Section) returns (r: Reply)
      requires Valid()
      modifies this`progress
      ensures Valid()
      ensures progress == SelectSection(old(progress), u, s)
      ensures var qs := QuestionsFor(u, s);
        r == if |qs| > 0 then ShowQuestion(s, 0, qs[0]) else SectionUnavailable
    {
      TransitionsKeepInactiveZero(progress, u, s, Skip, []);
      progress := SelectSection(progress, u, s);
      var qs := GroupRows(repo(s, Lang(u)));
      if |qs| > 0 {
        r := SendQuestion(u, s, qs);
      } else {
        r := SectionUnavailable;
      }
    }

    /**
     * The counter UPDATE of `handle_quiz` (main.py:476-482, main.py:495-534):
     * skip bumps the skipped counter, an answer text the correct or the
     * incorrect counter as its first matching answer says, and an unmatched
     * text none. The index is left for the caller.
     */
    method CountAction(u: User, s: Section, a: Action, q: Question) returns (feedback: Option<Feedback>)
      requires IsActive(progress, u, s) && !a.Continue?
      modifies this`progress
      ensures var c := old(progress)[(u, s)];
        progress == old(progress)[(u, s) := AtQuestion(c.index.value, c.Counters().Plus(Credit(Judge(a, q))))]
      ensures feedback == FeedbackFor(Judge(a, q))
    {
      var key := (u, s);
      feedback := None;
      if a.Skip? {
        progress := progress[key := progress[key].(skipped := progress[key].skipped + 1)];
      } else {
        var k := FirstMatch(q.answers, a.text);
        if k.Some? {
          var answer := q.answers[k.value];
          feedback := Some(Feedback(answer.isCorrect, answer.explanation));
          if answer.isCorrect {
            progress := progress[key := progress[key].(correct := progress[key].correct + 1)];
          } else {
            progress := progress[key := progress[key].(incorrect := progress[key].incorrect + 1)];
          }
        }
      }
    }

    /**
     * The index UPDATE and the completion of `handle_quiz`
     * (main.py:536-587): the run moves to the next question, or after the
     * last one the tallies are reported and the row is cleared.
     */
    method MoveOn(u: User, s: Section, count: nat, feedback: Option<Feedback>) returns (outcome: QuizOutcome)
      requires IsActive(progress, u, s) && progress[(u, s)].index.value < count
      modifies this`progress
      ensures var c := old(progress)[(u, s)];
        var i := c.index.value;
        if i + 1 < count
        then progress == old(progress)[(u, s) := AtQuestion(i + 1, c.Counters())] && outcome == NextQuestion(feedback, i + 1)
        else progress == old(progress)[(u, s) := Cleared] && outcome == Completed(feedback, ButtonLabel(s), c.Counters())
    {
      var key := (u, s);
      var index := progress[key].index.value;
      var newIndex := if index + 1 < count then index + 1 else 0;
      progress := progress[key := progress[key].(index := Some(newIndex))];
      if newIndex > 0 {
        outcome := NextQuestion(feedback, newIndex);
      } else {
        var row := progress[key];
        outcome := Completed(feedback, SummaryLabel(Code(s)), Stats(row.correct, row.incorrect, row.skipped));
        progress := progress[key := Cleared];
        assert SummaryLabel(Code(s)) == ButtonLabel(s);
      }
    }

    /**
     * `handle_quiz` (main.py:444-599) as the handler performs it: separate
     * in-place updates of the counter and of the index, then either the
     * next question or the summary and the row's reset. The result is the
     * step `Progress.HandleQuiz` describes.
     */
    method HandleQuiz(u: User, s: Section, a: Action, qs: seq<Question>) returns (outcome: QuizOutcome)
      requires IndexInRange(progress, u, s, |qs|)
      modifies this`progress
      ensures (progress, outcome) == Progress.HandleQuiz(old(progress), u, s, a, qs)
    {
      var key := (u, s);
      if key !in progress || progress[key].index.None? {
        return NoActiveQuiz;
      }
      var index := progress[key].index.value;
      if a.Continue? {
        ContinueStep(progress, u, s, qs);
        return Resent(index);
      }
      ghost var t := progress;
      AdvanceStep(t, u, s, a, qs);
      var feedback := CountAction(u, s, a, qs[index]);
      ghost var t1 := progress;
      outcome := MoveOn(u, s, |qs|, feedback);
      assert t1[key := Cleared] == t[key := Cleared];
      ghost var stats := t[key].Counters().Plus(Credit(Judge(a, qs[index])));
      assert t1[key := AtQuestion(index + 1, stats)] == t[key := AtQuestion(index + 1, stats)];
    }

    /**
     * `resume_quiz_if_applicable` (main.py:750-786): resumes the snapshot or
     * the active row and then drops the snapshot; with neither it runs
     * `/start`. The table is left as it was.
     */
    method ResumeQuizIfApplicable(u: User) returns (r: Reply)
      requires Valid()
      modifies this`progress, this`savedActive
      ensures Valid() && progress == old(progress)
      ensures savedActive == old(savedActive) - {u}
      ensures r == ResumeResult(old(progress), old(savedActive), u, repo, Lang(u))
    {
      var snapshot: Option<ActiveRow> := None;
      if u in savedActive {
        snapshot := Some(savedActive[u]);
      }
      if snapshot.None? {
        snapshot := FindActive(progress, u);
        if snapshot.None? {
          r := StartCommand(u);
          return;
        }
      }
      var row := snapshot.value;
      var qs := GroupRows(repo(row.section, Lang(u)));
      if |qs| > 0 && row.index < |qs| {
        r := SendQuestion(u, row.section, qs);
      } else {
        r := FetchTrouble;
      }
      savedActive := savedActive - {u};
    }

    /**
     * `/language` (main.py:213-253): saves the active row for later and
     * offers the language buttons.
     */
    method SetLanguageCommand(u: User) returns (r: Reply)
      modifies this`savedActive
      ensures savedActive == SaveSnapshot(old(savedActive), u, FindActive(progress, u))
      ensures r == LanguagePrompt(FindActive(progress, u).Some?)
    {
      var active := FindActive(progress, u);
      r := LanguagePrompt(active.Some?);
      savedActive := SaveSnapshot(savedActive, u, active);
    }

    /**
     * `/subscribe` (main.py:292-330): saves the active row and waits for an
     * email.
     */
    method SubscribeCommand(u: User) returns (r: Reply)
      modifies this`waitingForEmail, this`savedActive
      ensures waitingForEmail == old(waitingForEmail)[u := true]
      ensures savedActive == SaveSnapshot(old(savedActive), u, FindActive(progress, u))
      ensures r == EmailPrompt(FindActive(progress, u).Some?)
    {
      var active := FindActive(progress, u);
      r := EmailPrompt(active.Some?);
      waitingForEmail := waitingForEmail[u := true];
      savedActive := SaveSnapshot(savedActive, u, active);
    }

    /**
     * `/info` (main.py:332-378): saves the active row, shows the information
     * text and resumes at once, so the user is back on the question they
     * were on and the table is unchanged.
     */
    method InfoCommand(u: User) returns (r: Reply)
      requires Valid()
      modifies this`progress, this`savedActive
      ensures Valid() && progress == old(progress)
      ensures savedActive == old(savedActive) - {u}
      ensures r == ResumeResult(progress, SaveSnapshot(old(savedActive), u, FindActive(progress, u)), u, repo, Lang(u))
    {
      var active := FindActive(progress, u);
      savedActive := SaveSnapshot(savedActive, u, active);
      r := ResumeQuizIfApplicable(u);
    }

    /**
     * The email branch of `handle_message` (main.py:620-651): a cancel or an
     * accepted email ends the wait (an accepted email is stored) and
     * resumes; anything else asks again and changes nothing.
     */
    method ReadEmail(u: User, reply: EmailReply) returns (r: Reply)
      requires Valid()
      modifies this`progress, this`waitingForEmail, this`emails, this`savedActive
      ensures Valid() && progress == old(progress)
      ensures reply.Reprompt? ==> r == EmailRetry && unchanged(this)
      ensures reply.Cancel? ==> waitingForEmail == old(waitingForEmail)[u := false] && emails == old(emails)
      ensures reply.Accept? ==> waitingForEmail == old(waitingForEmail)[u := false] && emails == old(emails)[u := reply.email]
      ensures !reply.Reprompt? ==>
        savedActive == old(savedActive) - {u} && r == ResumeResult(old(progress), old(savedActive), u, repo, Lang(u))
    {
      match reply {
        case Cancel =>
          waitingForEmail := waitingForEmail[u := false];
          r := ResumeQuizIfApplicable(u);
        case Accept(email) =>
          emails := emails[u := email];
          waitingForEmail := waitingForEmail[u := false];
          r := ResumeQuizIfApplicable(u);
        case Reprompt =>
          r := EmailRetry;
      }
    }

    /**
     * The language-button branch of `handle_message` (main.py:661-670): the
     * language is stored and the quiz resumed in it.
     */
    method ChooseLanguage(u: User, lang: Lang) returns (r: Reply)
      requires Valid()
      modifies this`progress, this`language, this`savedActive
      ensures Valid() && progress == old(progress)
      ensures language == old(language)[u := lang]
      ensures savedActive == old(savedActive) - {u}
      ensures r == ResumeResult(old(progress), old(savedActive), u, repo, lang)
    {
      language := language[u := lang];
      r := ResumeQuizIfApplicable(u);
    }

    /**
     * The "No, continue where I left off" branch of `handle_message`
     * (main.py:677-690): resumes when a run is active, otherwise says there
     * is none.
     */
    method ContinueWhereLeftOff(u: User) returns (r: Reply)
      requires Valid()
      modifies this`progress, this`savedActive
      ensures Valid() && progress == old(progress)
      ensures old(FindActive(progress, u)).Some? ==>
        savedActive == old(savedActive) - {u} && r == ResumeResult(old(progress), old(savedActive), u, repo, Lang(u))
      ensures old(FindActive(progress, u)).None? ==> r == NoSessionFound && savedActive == old(savedActive)
    {
      if FindActive(progress, u).Some? {
        r := ResumeQuizIfApplicable(u);
      } else {
        r := NoSessionFound;
      }
    }

    /**
     * The active-quiz branch of `handle_message` (main.py:702-724): with the
     * active row's index inside the fetched list the message is a quiz
     * step, otherwise the section is reported finished.
     */
    method AnswerActiveQuiz(u: User, row: ActiveRow, action: Action) returns (r: Reply)
      requires Valid() && FindActive(progress, u) == Some(row)
      modifies this`progress
      ensures Valid()
      ensures var qs := QuestionsFor(u, row.section);
        if |qs| > 0 && row.index < |qs|
        then r.QuizStep? && (progress, r.outcome) == Progress.HandleQuiz(old(progress), u, row.section, action, qs)
        else r == SectionFinished && progress == old(progress)
    {
      var qs := GroupRows(repo(row.section, Lang(u)));
      if |qs| > 0 && row.index < |qs| {
        TransitionsKeepInactiveZero(progress, u, row.section, action, qs);
        var outcome := HandleQuiz(u, row.section, action, qs);
        r := QuizStep(outcome);
      } else {
        r := SectionFinished;
      }
    }

    /**
     * `handle_message` (main.py:601-734). Each branch of the routing does
     * what its handler does; the email, language, "continue where I left
     * off" and small-talk branches leave the progress table as it was.
     */
    method HandleMessage(u: User, text: string) returns (r: Reply)
      requires Valid()
      modifies this`progress, this`language, this`waitingForEmail, this`emails, this`savedActive
      ensures Valid()
      ensures var route := old(RouteOf(u, text));
        (route.EmailInput? || route.LanguageChoice? || route.ContinueWhereLeft? || route.SmallTalk?) ==>
          unchanged(this`progress)
      ensures var route := old(RouteOf(u, text));
        route.EmailInput? ==>
          && language == old(language)
          && (route.reply.Reprompt? ==> r == EmailRetry && unchanged(this))
          && (route.reply.Cancel? ==> waitingForEmail == old(waitingForEmail)[u := false] && emails == old(emails))
          && (route.reply.Accept? ==>
                waitingForEmail == old(waitingForEmail)[u := false] && emails == old(emails)[u := route.reply.email])
          && (!route.reply.Reprompt? ==> r == ResumeResult(old(progress), old(savedActive), u, repo, old(Lang(u))))
      ensures var route := old(RouteOf(u, text));
        !route.EmailInput? ==> unchanged(this`waitingForEmail, this`emails)
      ensures var route := old(RouteOf(u, text));
        route.LanguageChoice? ==>
          language == old(language)[u := route.lang]
          && r == ResumeResult(old(progress), old(savedActive), u, repo, route.lang)
      ensures var route := old(RouteOf(u, text));
        !route.LanguageChoice? ==> unchanged(this`language)
      ensures var route := old(RouteOf(u, text));
        route.ResetConfirmed? ==> progress == ResetUser(old(progress), u) && r == SectionMenu
      ensures var route := old(RouteOf(u, text));
        route.ContinueWhereLeft? ==>
          if old(FindActive(progress, u)).Some?
          then r == ResumeResult(old(progress), old(savedActive), u, repo, Lang(u))
          else r == NoSessionFound
      ensures var route := old(RouteOf(u, text));
        route.SectionChoice? ==>
          var qs := QuestionsFor(u, route.section);
          && progress == SelectSection(old(progress), u, route.section)
          && r == if |qs| > 0 then ShowQuestion(route.section, 0, qs[0]) else SectionUnavailable
      ensures var route := old(RouteOf(u, text));
        route.QuizInput? ==>
          var qs := QuestionsFor(u, route.active.section);
          if |qs| > 0 && route.active.index < |qs|
          then r.QuizStep? && (progress, r.outcome) == Progress.HandleQuiz(old(progress), u, route.active.section, route.action, qs)
          else r == SectionFinished && progress == old(progress)
      ensures old(RouteOf(u, text)).SmallTalk? ==> r == SmallTalkReply
      ensures var route := old(RouteOf(u, text));
        if || (route.EmailInput? && !route.reply.Reprompt?)
           || route.LanguageChoice?
           || (route.ContinueWhereLeft? && old(FindActive(progress, u)).Some?)
        then savedActive == old(savedActive) - {u}
        else unchanged(this`savedActive)
    {
      var route := RouteMessage(Waiting(u), text, LabelsOf(u), FindActive(progress, u));
      match route {
        case EmailInput(reply) =>
          r := ReadEmail(u, reply);
        case LanguageChoice(lang) =>
          r := ChooseLanguage(u, lang);
        case ResetConfirmed =>
          r := ResetAndStartNewSession(u);
        case ContinueWhereLeft =>
          r := ContinueWhereLeftOff(u);
        case SectionChoice(s) =>
          r := SectionCommand(u, s);
        case QuizInput(row, action) =>
          r := AnswerActiveQuiz(u, row, action);
        case SmallTalk =>
          r := SmallTalkReply;
      }
    }
  }
}
