# Quiz progress of the interview-practice Telegram bot, in Dafny

The bot (`main.py`) drills users on interview questions grouped in four
sections (IT Junior, IT Middle, QA/QC Junior, QA/QC Middle). Its state is
the `user_progress` table: per user and section a cursor holding the
current question index (or null when no run is active) and three tallies
(correct, incorrect, skipped). This project models that state machine and
the handlers that drive it:

- `wrappers.dfy`: `Option`.
- `sections.dfy`: the section enum, `button_labels`, `label_to_section`
  and `section_map`.
- `questions.dfy`: the rows of the questions/answers join and the grouping
  loop of `fetch_questions` as an imperative method. It is proved against a
  recursive specification with one entry per distinct question id, in
  first-appearance order, and no row lost. It also holds the first-match
  answer lookup.
- `progress.dfy`: the table as a `map<(User, Section), Cursor>`, plus the
  pure transitions `handle_quiz`, section selection, reset and
  `check_active_quiz`. Lemmas state what each step does, and the table
  invariants the steps keep.
- `runs.dfy`: whole runs of quiz steps. A run of |Q| advancing actions from
  index 0 ends in the summary and a cleared row, and the summary counts
  |Q| minus the unmatched texts. "Continue" messages change nothing. It
  also holds a worked three-question example.
- `routing.dfy`: how `handle_message` routes a text. The precedence is the
  email prompt, then the language buttons, the reset answers, the section
  buttons, the active quiz and small talk. It also holds the email-input
  classification and the quiz's reading of a text.
- `bot.dfy`: a `QuizBot` class whose fields are the state the handlers
  update in place:
  - `user_progress`
  - `users.language`
  - `waiting_for_email`
  - the stored emails
  - the `active_section` snapshot kept in `context.user_data`

  Its methods are the handlers. The in-place `handle_quiz` method is
  proved equal to the pure step. The interrupting handlers are proved to
  leave the progress table unchanged: `/language`, `/subscribe`, `/info`,
  the language buttons, email input and resumption.

Translated button texts are a `Labels` record per language. English is the
identity, and the Russian catalogue is a constructor parameter. The
question database is a constructor parameter `repo` that maps a section
and a language to its joined rows.

## Model

| member | source | states |
|---|---|---|
| Sections.CodeToLabel | main.py:69 | every section code maps to its button label, and nothing else is a key |
| Sections.LabelToCode | main.py:693 | every button label maps to its section code, and nothing else is a key |
| Sections.SectionOfLabel | main.py:693-696 | a text selects a section exactly when it is a key of `section_map`, and then it is that section's label |
| Sections.LabelRoundTrip | main.py:60-67 | pressing a section's button selects exactly that section |
| Sections.SummaryLabel | main.py:562 | the summary names a known section by its button label and echoes an unknown code |
| Sections.LabelMapsInverse | main.py:60-69 | `label_to_section` and `section_map` are inverse dictionaries |
| Questions.FirstMatch | main.py:495 | the first answer whose text equals the message, or none exactly when no answer has that text |
| Questions.GroupRows | main.py:104-120 | the loop's dict-and-append result equals the grouping specification `Grouped(rows)` |
| Questions.QuestionIdsDistinct | main.py:107-112 | each question id gets one entry |
| Questions.QuestionIdsAreRowIds | main.py:104-112 | an id has an entry exactly when some row carries it |
| Questions.QuestionIdsInFirstAppearanceOrder | main.py:104-120 | entries appear in the order their ids first occur among the rows |
| Questions.TextForIsFirstRowText | main.py:107-112 | an entry's question text is taken from the first row of its id |
| Questions.GroupedKeepsEveryRow | main.py:104-120 | the total number of answers equals the number of rows |
| Questions.GroupedSnoc | main.py:104-120 | one more row either appends its answer to its id's entry or adds a new entry holding just that answer |
| Progress.StoredIndexOrZero | main.py:396-399 | the stored index of an active row, 0 for a null index or a missing row |
| Progress.NextIndex | main.py:483 | the next index is (index+1) mod \|Q\|, and it is 0 exactly after the last question |
| Progress.Judge | main.py:476-495 | skip and continue are recognised first; a text is unmatched exactly when no answer has it, otherwise it selects the first answer carrying that text, as `next(...)` does |
| Progress.Credit | main.py:476-534 | skip, a correct answer and a wrong answer each add exactly one to their own counter; continue and unmatched text add nothing |
| Progress.FeedbackFor | main.py:496-527 | feedback is shown exactly for a matched answer, with its correctness and explanation |
| Progress.HandleQuiz | main.py:444-599 | only the row of (user, section) changes and the index stays in range; "no active quiz" exactly when the row is inactive, and then, as for continue, the table is unchanged |
| Progress.SkipStep | main.py:476-489 | skip adds one skipped question, keeps the other counters and moves the index by the wrap rule |
| Progress.MatchedAnswerStep | main.py:495-543 | a text matching an answer adds one correct or one incorrect as the first matching answer says, then moves on |
| Progress.UnmatchedTextStep | main.py:494-543 | a text matching no answer changes no counter but still moves the index |
| Progress.ContinueStep | main.py:490-493 | "No, continue my current session" leaves the table unchanged and re-sends the current question |
| Progress.SelectSection | main.py:276-280 | the section's index becomes 0, creating the row if absent; its counters and every other row are kept |
| Progress.ResetUser | main.py:185-188 | every row of the user is cleared and every other user's row is kept |
| Progress.FindActive | main.py:736-748 | none exactly when no section of the user is active; otherwise an active section with its stored index |
| Progress.ResetIsTotal | main.py:185-188 | after a reset no section of the user is active and all counters are 0 |
| Progress.TransitionsKeepInactiveZero | main.py:583-587 | selection, reset and quiz steps keep every inactive row at zero counters |
| Progress.ResetOfIdleUserIsIdentity | main.py:185-188 | when every inactive row holds zero counters, resetting a user with no active run changes nothing |
| Progress.StepsKeepOneActive | main.py:444-599 | resets and quiz steps never make a second section active |
| Progress.SelectFromIdle | main.py:276-280 | selecting a section when none (or only that one) is active leaves exactly that section active at index 0 |
| Progress.SelectCanActivateTwoSections | main.py:693-697 | selecting a section during another section's run leaves both active |
| Runs.Run | main.py:444-599 | a sequence of quiz steps keeps the index in range, yields one outcome per action and touches only its own row |
| Runs.CreditsAddUp | main.py:476-543 | over advancing actions, the tallies earned plus the unmatched texts equal the number of actions |
| Runs.OneTallyOrUnmatched | main.py:476-543 | an action other than continue either earns exactly one tally or is an unmatched text |
| Runs.PartialRun | main.py:530-554 | k < \|Q\| advancing actions from index 0 leave the row at index k with the earned tallies added, each step showing the next question |
| Runs.FullRun | main.py:552-587 | \|Q\| advancing actions from index 0 clear the row; the last outcome is the summary with the section's label and all tallies, and every earlier outcome shows the next question |
| Runs.FreshRunTally | main.py:552-575 | from zeroed counters, the summary's total is \|Q\| minus the number of unmatched texts |
| Runs.ContinuesChangeNothing | main.py:490-493 | removing every "continue" from a run leaves its final table unchanged |
| Runs.RepeatedContinue | main.py:490-493 | any number of "continue" messages in a row leave the table unchanged |
| Runs.ThreeQuestionRun | main.py:444-599 | worked example: wrong answer, skip, right answer on three questions ends with a summary of one correct, one incorrect and one skipped, and a cleared row |
| Routing.LanguageOfButton | main.py:661-662 | "English" selects English, "Русский" selects Russian, any other text is not a language button. The source file holds the Russian literal mis-decoded (UTF-8 bytes read as another code page, like its Cyrillic comments); the model uses the decoded text |
| Routing.QuizAction | main.py:476-495 | the skip text is skip; otherwise the reconfirm text is continue; otherwise the message is an answer text |
| Routing.SkipWordSpelling | main.py:622 | a text lowers to "skip" exactly when it is s, k, i, p in any case (the Kelvin sign counting as k) |
| Routing.ClassifyEmail | main.py:620-650 | "skip" in any case cancels; otherwise a text with both '@' and '.' is accepted as the email; anything else is asked for again |
| Routing.RouteMessage | main.py:620-731 | a pending email claims every message; then, each exactly when no earlier branch applies: a language button, the "Yes, reset progress" text, the "No, continue where I left off" text, a section label (choosing the section it labels); a text reaches the active quiz exactly when it is none of these, and small talk exactly when in addition nothing is active |
| Routing.EnglishLabelsDistinct | main.py:673-677 | the English reset, "continue where I left off" and reconfirm texts are neither language buttons nor section labels, and the reconfirm text differs from the other three |
| Routing.SectionButtonBeforeActiveQuiz | main.py:693-702 | in any language whose texts are distinct in that sense, a section button is a section choice even while a quiz is active |
| Routing.ReconfirmButtonReachesQuiz | main.py:673-719 | in any language whose texts are distinct, the "No, continue my current session" button misses the reset branch and reaches the active quiz as continue |
| Bot.ShownQuestion | main.py:396-404 | `send_question` shows the question at the stored index (null read as 0), or fails when that index is past the list |
| Bot.SaveSnapshot | main.py:253 | the snapshot holds the active row, or is cleared when there is none; other users' snapshots are kept |
| Bot.ResumeShowsCurrentQuestion | main.py:773-780 | resuming a snapshot that agrees with the table shows the question the user was on |
| Bot.InterruptResumesSameQuestion | main.py:750-786 | after an interrupt saves the active row, resumption in any language shows the same question index |
| Bot.IdleResumeShowsMenu | main.py:765-771 | with neither snapshot nor active row, resumption falls back to the section menu |
| Bot.QuizBot.SendQuestion | main.py:380-404 | shows the question at the stored index |
| Bot.QuizBot.ResetAndStartNewSession | main.py:160-208 | the progress table becomes the user's reset and the section menu is shown; nothing is active afterwards |
| Bot.QuizBot.StartCommand | main.py:123-157 | with a run in progress it only asks before resetting; otherwise it resets and shows the menu, and the table is unchanged |
| Bot.QuizBot.SectionCommand | main.py:255-290 | the table becomes the selection's upsert; the first question is shown, or the section is reported unavailable |
| Bot.QuizBot.CountAction | main.py:476-534 | the counter UPDATE adds exactly the verdict's tally to the row, keeps its index, and returns the verdict's feedback |
| Bot.QuizBot.MoveOn | main.py:536-587 | the index UPDATE moves to the next question, or after the last one reports the row's tallies under the section's label and clears the row |
| Bot.QuizBot.HandleQuiz | main.py:444-599 | the successive in-place counter and index updates yield exactly the table and outcome of `Progress.HandleQuiz` |
| Bot.QuizBot.ResumeQuizIfApplicable | main.py:750-786 | resumes the snapshot or else the active row, else falls back to `/start`; the snapshot is dropped and the table is unchanged |
| Bot.QuizBot.SetLanguageCommand | main.py:213-253 | saves the active row and offers the language buttons; the table is untouched |
| Bot.QuizBot.SubscribeCommand | main.py:292-330 | marks the user as waiting for an email and saves the active row; the table is untouched |
| Bot.QuizBot.InfoCommand | main.py:332-378 | saves the active row and resumes at once; the table is unchanged |
| Bot.QuizBot.ReadEmail | main.py:620-651 | cancel ends the wait, and an accepted email ends it and is stored; both then resume. Anything else re-prompts and changes nothing |
| Bot.QuizBot.ChooseLanguage | main.py:661-670 | the language is stored and the quiz resumes in it; the table is unchanged |
| Bot.QuizBot.ContinueWhereLeftOff | main.py:677-690 | resumes when a run is active, otherwise reports no session; the table is unchanged |
| Bot.QuizBot.AnswerActiveQuiz | main.py:702-724 | with the active index inside the fetched list the message performs `Progress.HandleQuiz`, otherwise the section is reported finished and nothing changes |
| Bot.QuizBot.HandleMessage | main.py:601-734 | each route does its handler's work. Email, language, "continue where I left off" and small talk leave the table unchanged. A quiz answer performs the quiz step, a section button the upsert, the reset answer the reset. The saved snapshot is dropped exactly when the handler resumes (an accepted or cancelled email, a language button, "continue where I left off" with a run active) and is otherwise unchanged |

## Where the code and the intended design differ

The model follows the code in each of these cases:

- A text that matches no answer is not ignored. The index update at
  main.py:536-543 sits outside `if selected_answer`, so the run moves on
  without counting anything (`Progress.UnmatchedTextStep`).
- Selecting a section resets only its index to 0, because the upsert at
  main.py:276-280 leaves the counters as they were
  (`Progress.SelectSection`).
- Section buttons are routed before the active-quiz check
  (main.py:693-702), so choosing a second section during a run leaves two
  sections active (`Progress.SelectCanActivateTwoSections`). Which one
  `check_active_quiz` then returns is not fixed by the SQL.
- A section with no questions is still made active at index 0 before it is
  reported unavailable (main.py:276-290).
- The reconfirm button offered by `/start` ("No, continue my current
  session", main.py:148) is not the text checked at main.py:677. It reaches
  the quiz, which re-sends the current question.
- Resumption checks the snapshot's index against the question list but then
  shows the question at the stored index (main.py:779-780, main.py:396-404).
  A stale snapshot can therefore show a different question, or index past
  the list (`Bot.QuestionMissing`).

## Left out

- The Telegram transport is not modelled: reply texts, keyboards, the
  separator and celebration messages, `asyncio.sleep`. A handler returns
  one `Reply` for what it finally shows. The fixed texts sent before it
  are not modelled, among them "Language updated.", "Thank you for
  subscribing!", the `/info` text and the greeting and help replies.
- The asyncpg pool, the SQL text and transactions are not modelled. The
  tables are in-memory maps. There is no crash atomicity between the
  separate counter and index UPDATEs.
- The `users` and `user_details` inserts in `reset_and_start_new_session`
  and the `last_active_date` update are not modelled. They do not touch
  `user_progress`. The model assumes a `users` row exists for every chat.
- The language cached in `context.user_data` and `users.language` are one
  map here, since every handler that sets one sets the other.
- gettext is not modelled. Only the four compared button texts are carried,
  as `Labels`.
- Exceptions and logging are not modelled, including the possibly unbound
  `questions` in `section_command`. `Bot.QuestionMissing` stands for the
  uncaught IndexError of `questions[index]`.
- Concurrency between a user's messages is not modelled. Each handler runs
  to completion before the next.
- Webhook, environment and bootstrap code are not modelled.
- Progress.FindActive: `check_active_quiz` returns whichever active row the
  database yields, since there is no ORDER BY. The model returns the first
  in section order (ITJ, ITM, QAJ, QAM). The two agree only while at most
  one section is active. Resets and quiz steps never add an active section
  (`Progress.StepsKeepOneActive`), and selecting from idle leaves exactly
  one (`Progress.SelectFromIdle`). A section button pressed during a run,
  however, leaves two sections active (`Progress.SelectCanActivateTwoSections`).
  From then on the source may get either row, and its separate queries need
  not agree, while the model always takes the first in section order.
- Routing.LowerChar: lower-cases only the characters whose lowercase is a
  letter of "skip", which are ASCII capitals and the Kelvin sign. Python's
  full `str.lower` is not modelled, but this is enough to decide
  `text.lower() == "skip"`.
- Progress.SelectSection: counters of a newly inserted row are taken as 0,
  the column default, which is not part of this model.
