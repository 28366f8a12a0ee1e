/**
 * The closed set of quiz sections and the two dictionaries built from their
 * keyboard labels (main.py:52-69 and main.py:693).
 */
module Sections {
  import opened Wrappers

  datatype Section = ITJ | ITM | QAJ | QAM

  /** The sections in the order `for section in Section` visits them. */
  const AllSections: seq<Section> := [ITJ, ITM, QAJ, QAM]

  /** `section.value`: the code stored in the `section` column of `user_progress`. */
  function Code(s: Section): string
  {
    match s
    case ITJ => "ITJ"
    case ITM => "ITM"
    case QAJ => "QAJ"
    case QAM => "QAM"
  }

  /** `button_labels[section]`: the text of the section's keyboard button. */
  function ButtonLabel(s: Section): string
  {
    match s
    case ITJ => "IT. Junior +"
    case ITM => "IT. Middle +"
    case QAJ => "QA/QC. Junior +"
    case QAM => "QA/QC. Middle +"
  }

  lemma EverySectionListed(s: Section)
    ensures s in AllSections
  {
  }

  /** `label_to_section`: despite its name it maps a section code to its button label. */
  function CodeToLabel(): (m: map<string, string>)
    ensures forall s :: Code(s) in m && m[Code(s)] == ButtonLabel(s)
    ensures forall code :: code in m ==> exists s :: code == Code(s)
  {
    map[Code(ITJ) := ButtonLabel(ITJ), Code(ITM) := ButtonLabel(ITM),
        Code(QAJ) := ButtonLabel(QAJ), Code(QAM) := ButtonLabel(QAM)]
  }

  /** `section_map`: button label to section code, used to route keyboard input. */
  function LabelToCode(): (m: map<string, string>)
    ensures forall s :: ButtonLabel(s) in m && m[ButtonLabel(s)] == Code(s)
    ensures forall text :: text in m ==> exists s :: text == ButtonLabel(s)
  {
    map[ButtonLabel(ITJ) := Code(ITJ), ButtonLabel(ITM) := Code(ITM),
        ButtonLabel(QAJ) := Code(QAJ), ButtonLabel(QAM) := Code(QAM)]
  }

  /** The section whose button carries `text`, if any (`text in section_map`). */
  function SectionOfLabel(text: string): (r: Option<Section>)
    ensures r.Some? <==> text in LabelToCode()
    ensures r.Some? ==> ButtonLabel(r.value) == text && LabelToCode()[text] == Code(r.value)
  {
    if text == ButtonLabel(ITJ) then Some(ITJ)
    else if text == ButtonLabel(ITM) then Some(ITM)
    else if text == ButtonLabel(QAJ) then Some(QAJ)
    else if text == ButtonLabel(QAM) then Some(QAM)
    else None
  }

  /** Pressing a section's button selects exactly that section. */
  lemma LabelRoundTrip(s: Section)
    ensures SectionOfLabel(ButtonLabel(s)) == Some(s)
  {
  }

  /** The section named in the completion summary: `label_to_section.get(code, code)`. */
  function SummaryLabel(code: string): (r: string)
    ensures forall s :: code == Code(s) ==> r == ButtonLabel(s)
    ensures code !in CodeToLabel() ==> r == code
  {
    var labels := CodeToLabel();
    if code in labels then labels[code] else code
  }

  /** The two dictionaries are inverse to each other. */
  lemma LabelMapsInverse()
    ensures forall code :: code in CodeToLabel() ==> CodeToLabel()[code] in LabelToCode() && LabelToCode()[CodeToLabel()[code]] == code
    ensures forall text :: text in LabelToCode() ==> LabelToCode()[text] in CodeToLabel() && CodeToLabel()[LabelToCode()[text]] == text
  {
  }
}
