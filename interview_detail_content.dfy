/**
 * The interview detail panel (src/components/interview/InterviewDetailContent.tsx): the
 * interviewers' names in the header, the AI interview guide that is generated on request,
 * and the interviewer's feedback, both drawn line by line from Markdown.
 */
module InterviewDetailContent {
  import opened JsStrings
  import opened MarkdownLines

  // ---------------------------------------------------------------------------
  // The two Markdown displays
  // ---------------------------------------------------------------------------

  /** `/^\d+\./`: the line starts with one or more ASCII digits followed by a full stop. */
  predicate IsNumbered(line: string) {
    var digits := LeadingDigits(line, false);
    |digits| >= 1 && |digits| < |line| && line[|digits|] == '.'
  }

  /** The regular expression read literally: some position `k >= 1` has digits before it
      and a full stop at it. */
  lemma NumberedIff(line: string)
    ensures IsNumbered(line) <==>
      exists k :: 1 <= k < |line| && line[k] == '.' && forall i :: 0 <= i < k ==> IsDecimalDigit(line[i])
  {
    var digits := LeadingDigits(line, false);
    if IsNumbered(line) {
      var k := |digits|;
      assert forall i :: 0 <= i < k ==> line[i] == digits[i];
      assert line[k] == '.' && forall i :: 0 <= i < k ==> IsDecimalDigit(line[i]);
    }
    if exists k :: 1 <= k < |line| && line[k] == '.' && forall i :: 0 <= i < k ==> IsDecimalDigit(line[i]) {
      var k :| 1 <= k < |line| && line[k] == '.' && forall i :: 0 <= i < k ==> IsDecimalDigit(line[i]);
      assert forall i :: 0 <= i < |digits| ==> line[i] == digits[i];
      assert |digits| == k;
    }
  }

  /** How a guide line is drawn: `'## '` gives an `h2` without its first three
      characters, `'- '` a list item without two, a numbered line a `div` of the whole
      line, and anything else a paragraph. */
  function ClassifyGuideLine(line: string): (r: Block) {
    if StartsWith(line, "## ") then Heading(2, line[3..])
    else if StartsWith(line, "- ") then ListItem(line[2..])
    else if IsNumbered(line) then Verbatim(line)
    else Paragraph(line)
  }

  /** How a feedback line is drawn: the same rules without the numbered one. */
  function ClassifyFeedbackLine(line: string): (r: Block) {
    if StartsWith(line, "## ") then Heading(2, line[3..])
    else if StartsWith(line, "- ") then ListItem(line[2..])
    else Paragraph(line)
  }

  /** The two displays differ exactly on numbered lines: the guide puts them in a `div`,
      the feedback in a paragraph. */
  lemma GuideAndFeedbackDiffer(line: string)
    ensures ClassifyGuideLine(line) != ClassifyFeedbackLine(line) <==>
      !StartsWith(line, "## ") && !StartsWith(line, "- ") && IsNumbered(line)
    ensures ClassifyGuideLine(line) != ClassifyFeedbackLine(line) ==>
      ClassifyGuideLine(line) == Verbatim(line) && ClassifyFeedbackLine(line) == Paragraph(line)
  {
  }

  /** Only the marker of a line is dropped, in either display. */
  lemma LinesRoundTrip(line: string)
    ensures Markup(ClassifyGuideLine(line)) == line
    ensures Markup(ClassifyFeedbackLine(line)) == line
  {
    if StartsWith(line, "## ") {
      assert Hashes(2) + " " == "## ";
      HeadingLineRoundTrip(line, 2);
    } else if StartsWith(line, "- ") {
      ListLineRoundTrip(line);
    }
  }

  /** `aiGuide.split('\n').map(...)`. */
  function GuideBlocks(guide: string): (r: seq<Block>)
    ensures |r| == |Split(guide, '\n')|
    ensures forall i :: 0 <= i < |r| ==> r[i] == ClassifyGuideLine(Split(guide, '\n')[i])
  {
    RenderLines(Split(guide, '\n'), ClassifyGuideLine)
  }

  /** `feedback.split('\n').map(...)`. */
  function FeedbackBlocks(feedback: string): (r: seq<Block>)
    ensures |r| == |Split(feedback, '\n')|
    ensures forall i :: 0 <= i < |r| ==> r[i] == ClassifyFeedbackLine(Split(feedback, '\n')[i])
  {
    RenderLines(Split(feedback, '\n'), ClassifyFeedbackLine)
  }

  /** Both displays keep all of the text. */
  lemma DisplaysKeepEverything(guide: string, feedback: string)
    ensures Join(Markups(GuideBlocks(guide)), '\n') == guide
    ensures Join(Markups(FeedbackBlocks(feedback)), '\n') == feedback
  {
    forall line ensures Markup(ClassifyGuideLine(line)) == line && Markup(ClassifyFeedbackLine(line)) == line {
      LinesRoundTrip(line);
    }
    RenderLosesNothing(guide, ClassifyGuideLine);
    RenderLosesNothing(feedback, ClassifyFeedbackLine);
  }

  // ---------------------------------------------------------------------------
  // The interviewers in the header
  // ---------------------------------------------------------------------------

  /** The separator between two names. */
  const NameSeparator: char := '、'

  /** One `span` per interviewer: the name, followed by `'、'` unless it is the last. */
  function NameSpans(names: seq<string>): (r: seq<string>)
    ensures |r| == |names|
    ensures forall i :: 0 <= i < |names| ==>
      r[i] == names[i] + (if i < |names| - 1 then [NameSeparator] else [])
  {
    seq(|names|, i requires 0 <= i < |names| => names[i] + (if i < |names| - 1 then [NameSeparator] else []))
  }

  /** The text of a list of strings put one after the other. */
  function Concat(parts: seq<string>): (r: string)
    decreases |parts|
  {
    if parts == [] then [] else parts[0] + Concat(parts[1..])
  }

  /** The header reads as the names joined by `'、'`. */
  lemma {:induction false} NamesJoined(names: seq<string>)
    requires |names| >= 1
    ensures Concat(NameSpans(names)) == Join(names, NameSeparator)
    decreases |names|
  {
    var spans := NameSpans(names);
    if |names| == 1 {
      assert spans[1..] == [];
      assert spans[0] == names[0] + [];
    } else {
      NamesJoined(names[1..]);
      assert spans[1..] == NameSpans(names[1..]);
      assert spans[0] == names[0] + [NameSeparator];
    }
  }

  /** When no name holds a `'、'`, the header can be read back into the list of names;
      with no interviewer the header holds no name at all. */
  lemma HeaderReadsBack(names: seq<string>)
    requires forall i :: 0 <= i < |names| ==> NameSeparator !in names[i]
    ensures |names| >= 1 ==> Split(Concat(NameSpans(names)), NameSeparator) == names
    ensures names == [] ==> Concat(NameSpans(names)) == ""
  {
    if |names| >= 1 {
      NamesJoined(names);
      SplitJoin(names, NameSeparator);
    }
  }

  // ---------------------------------------------------------------------------
  // The panel's state
  // ---------------------------------------------------------------------------

  /** What the guide column shows: the spinner, the drawn guide, or the invitation to
      generate one. */
  datatype GuidePanel = Spinner | Guide(blocks: seq<Block>) | Invitation

  /** The panel's state. The guide template is handed in, as it is a fixed text. */
  class Content {
    const guideTemplate: string
    var aiGuide: string
    var isGeneratingAIGuide: bool
    var feedback: string
    var isEditingFeedback: bool
    var showPassConfirm: bool
    var showRejectConfirm: bool

    constructor(guideTemplate: string, feedbackTemplate: string)
      ensures this.guideTemplate == guideTemplate && aiGuide == "" && !isGeneratingAIGuide
      ensures feedback == feedbackTemplate && !isEditingFeedback && !showPassConfirm && !showRejectConfirm
    {
      this.guideTemplate := guideTemplate;
      aiGuide := "";
      isGeneratingAIGuide := false;
      feedback := feedbackTemplate;
      isEditingFeedback := false;
      showPassConfirm := false;
      showRejectConfirm := false;
    }

    /** `!aiGuide && !isGeneratingAIGuide`: the header's 生成指南 button. */
    predicate ShowsGenerateButton()
      reads this
    {
      aiGuide == "" && !isGeneratingAIGuide
    }

    /** The guide column. */
    function Panel(): (r: GuidePanel)
      reads this
      ensures r == Invitation <==> ShowsGenerateButton()
      ensures r.Guide? ==> r.blocks == GuideBlocks(aiGuide) && aiGuide != ""
    {
      if isGeneratingAIGuide then Spinner
      else if aiGuide != "" then Guide(GuideBlocks(aiGuide))
      else Invitation
    }

    /** The start of `generateAIGuide`, from either of its buttons, both of which show
        only with the invitation: the spinner shows. */
    method StartGuide()
      requires ShowsGenerateButton()
      modifies this
      ensures isGeneratingAIGuide && aiGuide == old(aiGuide) && Panel() == Spinner && !ShowsGenerateButton()
      ensures feedback == old(feedback) && isEditingFeedback == old(isEditingFeedback)
      ensures showPassConfirm == old(showPassConfirm) && showRejectConfirm == old(showRejectConfirm)
    {
      isGeneratingAIGuide := true;
    }

    /** The end of `generateAIGuide`'s wait: the template is the guide and the spinner
        goes. */
    method FinishGuide()
      requires isGeneratingAIGuide
      modifies this
      ensures aiGuide == guideTemplate && !isGeneratingAIGuide
      ensures guideTemplate != "" ==> Panel() == Guide(GuideBlocks(guideTemplate)) && !ShowsGenerateButton()
      ensures feedback == old(feedback) && isEditingFeedback == old(isEditingFeedback)
      ensures showPassConfirm == old(showPassConfirm) && showRejectConfirm == old(showRejectConfirm)
    {
      aiGuide := guideTemplate;
      isGeneratingAIGuide := false;
    }

    /** The 编辑 / 完成 button of the feedback. */
    method ToggleFeedbackEditing()
      modifies this
      ensures isEditingFeedback == !old(isEditingFeedback) && feedback == old(feedback)
      ensures aiGuide == old(aiGuide) && isGeneratingAIGuide == old(isGeneratingAIGuide)
      ensures showPassConfirm == old(showPassConfirm) && showRejectConfirm == old(showRejectConfirm)
    {
      isEditingFeedback := !isEditingFeedback;
    }

    /** The feedback editor stores its text. */
    method FeedbackChange(value: string)
      modifies this
      ensures feedback == value && isEditingFeedback == old(isEditingFeedback)
      ensures aiGuide == old(aiGuide) && isGeneratingAIGuide == old(isGeneratingAIGuide)
      ensures showPassConfirm == old(showPassConfirm) && showRejectConfirm == old(showRejectConfirm)
    {
      feedback := value;
    }

    /** The 通过 and 不合适 buttons open their confirmation; confirming (`handlePass`,
        `handleReject`) or cancelling closes it and changes nothing else. */
    method SetConfirm(pass: bool, open: bool)
      modifies this
      ensures pass ==> showPassConfirm == open && showRejectConfirm == old(showRejectConfirm)
      ensures !pass ==> showRejectConfirm == open && showPassConfirm == old(showPassConfirm)
      ensures aiGuide == old(aiGuide) && feedback == old(feedback) && isGeneratingAIGuide == old(isGeneratingAIGuide)
      ensures isEditingFeedback == old(isEditingFeedback)
    {
      if pass {
        showPassConfirm := open;
      } else {
        showRejectConfirm := open;
      }
    }
  }
}
