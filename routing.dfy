/**
 * How `handle_message` (main.py:601-734) and `handle_quiz` read a message:
 * the order in which the email wait, the language buttons, the reset
 * prompt, the section buttons and an active quiz claim it, and the
 * classification of email input.
 */
module Routing {
  import opened Wrappers
  import opened Sections
  import opened Progress

  /** The languages stored in `users.language`. */
  datatype Lang = En | Ru

  /**
   * The Russian language button, "Русский". main.py holds this literal with
   * its UTF-8 bytes read in another code page; this is the decoded text.
   */
  const RussianButton: string := "\U{0420}\U{0443}\U{0441}\U{0441}\U{043a}\U{0438}\U{0439}"

  /** The language a language-keyboard button selects (main.py:243-246, main.py:661-662). */
  function LanguageOfButton(text: string): (r: Option<Lang>)
    ensures r == Some(En) <==> text == "English"
    ensures r == Some(Ru) <==> text == RussianButton
    ensures r.None? <==> text != "English" && text != RussianButton
  {
    if text in ["English", RussianButton] then Some(if text == RussianButton then Ru else En)
    else None
  }

  /**
   * The translated texts the handlers compare messages against, in the
   * user's language: "Skip question", "No, continue my current session",
   * "Yes, reset progress" and "No, continue where I left off".
   */
  datatype Labels = Labels(skipQuestion: string, continueSession: string, resetYes: string, continueWhereLeft: string)

  /** The English texts; the English translation is the identity (main.py:72-73). */
  const EnglishLabels: Labels :=
    Labels("Skip question", "No, continue my current session", "Yes, reset progress", "No, continue where I left off")

  /** How `handle_quiz` reads a message: skip first, then continue, else an answer (main.py:476-495). */
  function QuizAction(text: string, labels: Labels): (a: Action)
    ensures a.Skip? <==> text == labels.skipQuestion
    ensures a.Continue? <==> text != labels.skipQuestion && text == labels.continueSession
    ensures a.Reply? ==> a.text == text
  {
    if text == labels.skipQuestion then Skip
    else if text == labels.continueSession then Continue
    else Reply(text)
  }

  // ---------------------------------------------------------------------------
  // Email input while a subscription is pending (main.py:620-651)
  // ---------------------------------------------------------------------------

  /**
   * Lower-casing of one character, exact for every character that Python's
   * `str.lower` maps to a letter of "skip": ASCII capitals and the Kelvin
   * sign. Any other character is left as it is, which does not change
   * whether a text lowers to "skip".
   */
  function LowerChar(c: char): char
  {
    if 'A' <= c <= 'Z' then (c as int + 32) as char
    else if c == '\U{212A}' then 'k'
    else c
  }

  function Lowered(text: string): (r: string)
    ensures |r| == |text| && forall i :: 0 <= i < |text| ==> r[i] == LowerChar(text[i])
  {
    seq(|text|, i requires 0 <= i < |text| => LowerChar(text[i]))
  }

  /** `text.lower() == "skip"` (main.py:622). */
  predicate IsSkipWord(text: string)
  {
    Lowered(text) == "skip"
  }

  /** "skip" in any mix of cases, spelled out letter by letter. */
  lemma SkipWordSpelling(text: string)
    ensures IsSkipWord(text) <==>
      |text| == 4 && text[0] in "sS" && text[1] in "kK\U{212A}" && text[2] in "iI" && text[3] in "pP"
  {
    if |text| == 4 && text[0] in "sS" && text[1] in "kK\U{212A}" && text[2] in "iI" && text[3] in "pP" {
      assert Lowered(text) == "skip";
    }
  }

  /** What the email prompt does with a message. */
  datatype EmailReply = Cancel | Accept(email: string) | Reprompt

  /**
   * "skip" in any case cancels; otherwise a text holding both '@' and '.'
   * is stored as the email; anything else is asked for again
   * (main.py:622-650).
   */
  function ClassifyEmail(text: string): (r: EmailReply)
    ensures r.Cancel? <==> IsSkipWord(text)
    ensures r.Accept? <==> !IsSkipWord(text) && '@' in text && '.' in text
    ensures r.Accept? ==> r.email == text
  {
    if IsSkipWord(text) then Cancel
    else if '@' in text && '.' in text then Accept(text)
    else Reprompt
  }

  // ---------------------------------------------------------------------------
  // Message routing (main.py:620-731)
  // ---------------------------------------------------------------------------

  datatype Route =
    | EmailInput(reply: EmailReply)                   // main.py:620-651
    | LanguageChoice(lang: Lang)                      // main.py:661-670
    | ResetConfirmed                                  // main.py:673-676
    | ContinueWhereLeft                               // main.py:677-690
    | SectionChoice(section: Section)                 // main.py:693-697
    | QuizInput(active: ActiveRow, action: Action)    // main.py:702-724
    | SmallTalk                                       // main.py:725-731

  /** Neither a pending email, a language button, a reset answer nor a section button. */
  predicate PlainText(waitingForEmail: bool, text: string, labels: Labels)
  {
    && !waitingForEmail
    && LanguageOfButton(text).None?
    && text != labels.resetYes
    && text != labels.continueWhereLeft
    && SectionOfLabel(text).None?
  }

  /**
   * Which branch of `handle_message` takes a message: a pending email first,
   * then the language buttons, the two reset answers, the section buttons,
   * and only then an active quiz (the row `check_active_quiz` would return)
   * or small talk.
   */
  function RouteMessage(waitingForEmail: bool, text: string, labels: Labels, active: Option<ActiveRow>): (r: Route)
    ensures waitingForEmail ==> r == EmailInput(ClassifyEmail(text))
    ensures r.LanguageChoice? <==> !waitingForEmail && LanguageOfButton(text).Some?
    ensures r.LanguageChoice? ==> LanguageOfButton(text) == Some(r.lang)
    ensures r == ResetConfirmed <==>
      !waitingForEmail && LanguageOfButton(text).None? && text == labels.resetYes
    ensures r == ContinueWhereLeft <==>
      !waitingForEmail && LanguageOfButton(text).None? && text != labels.resetYes && text == labels.continueWhereLeft
    ensures r.SectionChoice? <==>
      && !waitingForEmail && LanguageOfButton(text).None?
      && text != labels.resetYes && text != labels.continueWhereLeft
      && SectionOfLabel(text).Some?
    ensures r.SectionChoice? ==> SectionOfLabel(text) == Some(r.section) && ButtonLabel(r.section) == text
    ensures r.QuizInput? <==> PlainText(waitingForEmail, text, labels) && active.Some?
    ensures r.QuizInput? ==> r.active == active.value && r.action == QuizAction(text, labels)
    ensures r.SmallTalk? <==> PlainText(waitingForEmail, text, labels) && active.None?
  {
    if waitingForEmail then EmailInput(ClassifyEmail(text))
    else if LanguageOfButton(text).Some? then LanguageChoice(LanguageOfButton(text).value)
    else if text == labels.resetYes then ResetConfirmed
    else if text == labels.continueWhereLeft then ContinueWhereLeft
    else if SectionOfLabel(text).Some? then SectionChoice(SectionOfLabel(text).value)
    else if active.Some? then QuizInput(active.value, QuizAction(text, labels))
    else SmallTalk
  }

  /**
   * Button texts that no other branch of the routing claims: the reset
   * answers are neither language buttons nor section labels, and the
   * reconfirm text is none of those nor one of the two reset answers.
   */
  predicate Distinct(labels: Labels)
  {
    && LanguageOfButton(labels.resetYes).None? && SectionOfLabel(labels.resetYes).None?
    && LanguageOfButton(labels.continueWhereLeft).None? && SectionOfLabel(labels.continueWhereLeft).None?
    && LanguageOfButton(labels.continueSession).None? && SectionOfLabel(labels.continueSession).None?
    && labels.continueSession != labels.resetYes && labels.continueSession != labels.continueWhereLeft
    && labels.continueSession != labels.skipQuestion
  }

  /** The English texts are distinct in that sense. */
  lemma EnglishLabelsDistinct()
    ensures Distinct(EnglishLabels)
  {
  }

  /**
   * A section button is taken as a section choice even while another
   * section's quiz is active: it never reaches the quiz, in any language
   * whose texts are distinct.
   */
  lemma SectionButtonBeforeActiveQuiz(s: Section, labels: Labels, active: Option<ActiveRow>)
    requires Distinct(labels)
    ensures RouteMessage(false, ButtonLabel(s), labels, active) == SectionChoice(s)
  {
    LabelRoundTrip(s);
  }

  /**
   * The reconfirm button "No, continue my current session" is not the text
   * checked at main.py:677; with a quiz active it reaches the quiz as
   * "continue" (main.py:490), in any language whose texts are distinct.
   */
  lemma ReconfirmButtonReachesQuiz(labels: Labels, active: ActiveRow)
    requires Distinct(labels)
    ensures RouteMessage(false, labels.continueSession, labels, Some(active)) == QuizInput(active, Continue)
  {
  }
}
