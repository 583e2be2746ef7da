/**
 * The candidate profile (src/components/CandidateProfile.tsx): the screening decision
 * (pending, approved, rejected) with its buttons, the AI reading of the resume
 * (empty, generating, complete), and the resume text drawn line by line from Markdown.
 */
module CandidateProfile {
  import opened JsStrings
  import opened MarkdownLines

  // ---------------------------------------------------------------------------
  // The screening decision
  // ---------------------------------------------------------------------------

  datatype CandidateStatus = Pending | Approved | Rejected

  /** The header's buttons: 不合适 and 通过 while pending, and the one button that undoes
      a decision. */
  datatype StatusAction = MarkRejected | MarkApproved | Undo

  /** The buttons the header offers in each status. */
  function OfferedActions(status: CandidateStatus): (r: set<StatusAction>)
    ensures status == Pending <==> MarkApproved in r
    ensures status == Pending <==> MarkRejected in r
    ensures status != Pending <==> r == {Undo}
  {
    if status == Pending then {MarkRejected, MarkApproved} else {Undo}
  }

  /** `handleStatusChange('rejected')`, `handleStatusChange('approved')` and
      `handleStatusReset`. */
  function ApplyAction(status: CandidateStatus, action: StatusAction): (r: CandidateStatus)
    ensures action == Undo <==> r == Pending
  {
    match action
    case MarkRejected => Rejected
    case MarkApproved => Approved
    case Undo => Pending
  }

  /** Every offered button changes the status; a decision is only ever made from pending,
      and its undo returns there. */
  lemma DecisionsGoThroughPending(status: CandidateStatus, action: StatusAction)
    requires action in OfferedActions(status)
    ensures ApplyAction(status, action) != status
    ensures status == Pending <==> ApplyAction(status, action) != Pending
    ensures var decided := ApplyAction(status, action);
      decided != Pending ==> OfferedActions(decided) == {Undo} && ApplyAction(decided, Undo) == status
  {
  }

  /** The text of the decision button: the decision, or how to undo it while the mouse
      is over it. */
  function StatusLabel(status: CandidateStatus, hovering: bool): (r: string)
    requires status != Pending
    ensures hovering <==> r in {"撤销通过", "撤销"}
    ensures !hovering ==> r in {"已通过", "已标记不合适"} && (r == "已通过" <==> status == Approved)
    ensures hovering ==> (r == "撤销通过" <==> status == Approved)
  {
    match status
    case Approved => if hovering then "撤销通过" else "已通过"
    case Rejected => if hovering then "撤销" else "已标记不合适"
  }

  // ---------------------------------------------------------------------------
  // The resume text
  // ---------------------------------------------------------------------------

  /** How a resume line is drawn: `'### '` gives an `h3` without its first four
      characters, `'#### '` an `h4` without five, `'- '` a list item without two, and
      anything else a paragraph of the whole line. The `'### '` test comes first. */
  function ClassifyResumeLine(line: string): (r: Block) {
    if StartsWith(line, "### ") then Heading(3, line[4..])
    else if StartsWith(line, "#### ") then Heading(4, line[5..])
    else if StartsWith(line, "- ") then ListItem(line[2..])
    else Paragraph(line)
  }

  /** A `'#### '` line is not taken by the `'### '` test, since its fourth character is a
      hash mark; it is drawn as an `h4`. */
  lemma FourHashesAreH4(text: string)
    ensures ClassifyResumeLine("#### " + text) == Heading(4, text)
    ensures ClassifyResumeLine("### " + text) == Heading(3, text)
  {
    var line := "#### " + text;
    assert line[3] == '#';
    assert !StartsWith(line, "### ");
    assert line[..5] == "#### ";
    assert line[5..] == text;
    var h3 := "### " + text;
    assert h3[..4] == "### " && h3[4..] == text;
  }

  /** The element drawn for a line, with its marker put back, is the line: nothing but the
      marker is dropped. */
  lemma ResumeLineRoundTrip(line: string)
    ensures Markup(ClassifyResumeLine(line)) == line
  {
    if StartsWith(line, "### ") {
      assert Hashes(3) + " " == "### ";
      HeadingLineRoundTrip(line, 3);
    } else if StartsWith(line, "#### ") {
      assert Hashes(4) + " " == "#### ";
      HeadingLineRoundTrip(line, 4);
    } else if StartsWith(line, "- ") {
      ListLineRoundTrip(line);
    }
  }

  /** `content.split('\n').map(...)`: one element per line, in order. */
  function ResumeBlocks(content: string): (r: seq<Block>)
    ensures |r| == |Split(content, '\n')|
    ensures forall i :: 0 <= i < |r| ==> r[i] == ClassifyResumeLine(Split(content, '\n')[i])
  {
    RenderLines(Split(content, '\n'), ClassifyResumeLine)
  }

  /** The drawn resume keeps every line: putting the markers back and joining the lines
      gives the stored text. */
  lemma ResumeDrawnInFull(content: string)
    ensures Join(Markups(ResumeBlocks(content)), '\n') == content
  {
    forall line ensures Markup(ClassifyResumeLine(line)) == line {
      ResumeLineRoundTrip(line);
    }
    RenderLosesNothing(content, ClassifyResumeLine);
  }

  // ---------------------------------------------------------------------------
  // The screen's state
  // ---------------------------------------------------------------------------

  datatype AnalysisStatus = Empty | Generating | Complete

  /** The profile's state: the decision, the AI reading, and the resume editor. */
  class Profile {
    var candidateStatus: CandidateStatus
    var isHoveringStatus: bool
    var analysisStatus: AnalysisStatus
    var content: string
    var isEditingContent: bool
    var isInterviewsExpanded: bool

    /** The profile opens pending, unread, showing the stored resume. */
    constructor(resumeContent: string)
      ensures candidateStatus == Pending && !isHoveringStatus && analysisStatus == Empty
      ensures content == resumeContent && !isEditingContent && !isInterviewsExpanded
    {
      candidateStatus := Pending;
      isHoveringStatus := false;
      analysisStatus := Empty;
      content := resumeContent;
      isEditingContent := false;
      isInterviewsExpanded := false;
    }

    /** Pressing one of the header's decision buttons. */
    method PressStatusButton(action: StatusAction)
      requires action in OfferedActions(candidateStatus)
      modifies this
      ensures candidateStatus == ApplyAction(old(candidateStatus), action)
      ensures candidateStatus != old(candidateStatus)
      ensures isHoveringStatus == old(isHoveringStatus) && analysisStatus == old(analysisStatus)
      ensures content == old(content) && isEditingContent == old(isEditingContent)
      ensures isInterviewsExpanded == old(isInterviewsExpanded)
    {
      DecisionsGoThroughPending(candidateStatus, action);
      if action == Undo {
        candidateStatus := Pending;
      } else if action == MarkApproved {
        candidateStatus := Approved;
      } else {
        candidateStatus := Rejected;
      }
    }

    /** The mouse enters or leaves the decision button. */
    method HoverStatus(hovering: bool)
      modifies this
      ensures isHoveringStatus == hovering
      ensures candidateStatus == old(candidateStatus) && analysisStatus == old(analysisStatus)
      ensures content == old(content) && isEditingContent == old(isEditingContent)
      ensures isInterviewsExpanded == old(isInterviewsExpanded)
    {
      isHoveringStatus := hovering;
    }

    /** `startAnalysis`, offered only before any reading: the reading starts. */
    method StartAnalysis()
      requires analysisStatus == Empty
      modifies this
      ensures analysisStatus == Generating
      ensures candidateStatus == old(candidateStatus) && content == old(content)
      ensures isEditingContent == old(isEditingContent) && isHoveringStatus == old(isHoveringStatus)
      ensures isInterviewsExpanded == old(isInterviewsExpanded)
    {
      analysisStatus := Generating;
    }

    /** The end of `startAnalysis`'s wait: the reading is complete. */
    method FinishAnalysis()
      requires analysisStatus == Generating
      modifies this
      ensures analysisStatus == Complete
      ensures candidateStatus == old(candidateStatus) && content == old(content)
      ensures isEditingContent == old(isEditingContent) && isHoveringStatus == old(isHoveringStatus)
      ensures isInterviewsExpanded == old(isInterviewsExpanded)
    {
      analysisStatus := Complete;
    }

    /** The 编辑 / 完成 button switches between the editor and the drawn text. */
    method ToggleEditing()
      modifies this
      ensures isEditingContent == !old(isEditingContent) && content == old(content)
      ensures candidateStatus == old(candidateStatus) && analysisStatus == old(analysisStatus)
      ensures isHoveringStatus == old(isHoveringStatus) && isInterviewsExpanded == old(isInterviewsExpanded)
    {
      isEditingContent := !isEditingContent;
    }

    /** The editor stores its text at once, so 取消 keeps the edits too. */
    method ContentChange(value: string)
      modifies this
      ensures content == value && isEditingContent == old(isEditingContent)
      ensures candidateStatus == old(candidateStatus) && analysisStatus == old(analysisStatus)
      ensures isHoveringStatus == old(isHoveringStatus) && isInterviewsExpanded == old(isInterviewsExpanded)
    {
      content := value;
    }

    /** `handleSaveContent`, and 取消 alike: the editor closes, the text stays. */
    method CloseEditor()
      modifies this
      ensures !isEditingContent && content == old(content)
      ensures candidateStatus == old(candidateStatus) && analysisStatus == old(analysisStatus)
      ensures isHoveringStatus == old(isHoveringStatus) && isInterviewsExpanded == old(isInterviewsExpanded)
    {
      isEditingContent := false;
    }

    /** The interview list opens and closes. */
    method ToggleInterviews()
      modifies this
      ensures isInterviewsExpanded == !old(isInterviewsExpanded)
      ensures candidateStatus == old(candidateStatus) && analysisStatus == old(analysisStatus)
      ensures content == old(content) && isEditingContent == old(isEditingContent)
      ensures isHoveringStatus == old(isHoveringStatus)
    {
      isInterviewsExpanded := !isInterviewsExpanded;
    }
  }
}
