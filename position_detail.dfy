/**
 * The position detail (src/pages/enterprise/positions/PositionDetail.tsx): the
 * position's description drawn from Markdown, and the AI reading of its competency model,
 * which fades in through four animation phases.
 */
module PositionDetail {
  import opened JsStrings
  import opened MarkdownLines

  // ---------------------------------------------------------------------------
  // The analysis and its animation
  // ---------------------------------------------------------------------------

  datatype AnalysisStatus = Empty | Generating | Complete

  datatype AnimationPhase = Frame | Chart | Details | Done

  /** The order of the phases. */
  function PhaseRank(phase: AnimationPhase): (r: nat) {
    match phase
    case Frame => 0
    case Chart => 1
    case Details => 2
    case Done => 3
  }

  /** The phase `startAnalysis` moves to after each of its waits. */
  function NextPhase(phase: AnimationPhase): (r: AnimationPhase)
    requires phase != Done
    ensures PhaseRank(r) == PhaseRank(phase) + 1
  {
    match phase
    case Frame => Chart
    case Chart => Details
    case Details => Done
  }

  /** `showFrame`: everything but the first phase. */
  predicate ShowFrame(phase: AnimationPhase) {
    phase != Frame
  }

  /** `showChart`: `['chart', 'details', 'complete'].includes(animationPhase)`. */
  predicate ShowChart(phase: AnimationPhase) {
    phase == Chart || phase == Details || phase == Done
  }

  /** `showDetails`: `['details', 'complete'].includes(animationPhase)`; it is computed
      and drawn nowhere. */
  predicate ShowDetails(phase: AnimationPhase) {
    phase == Details || phase == Done
  }

  /** The flags are nested, and each is a threshold on the order of the phases. */
  lemma FlagsNested(phase: AnimationPhase)
    ensures ShowDetails(phase) ==> ShowChart(phase)
    ensures ShowChart(phase) ==> ShowFrame(phase)
    ensures ShowFrame(phase) <==> PhaseRank(phase) >= 1
    ensures ShowChart(phase) <==> PhaseRank(phase) >= 1
    ensures ShowDetails(phase) <==> PhaseRank(phase) >= 2
  {
  }

  /** The spinner's caption for the phase, empty once done. */
  function LoadingCaption(phase: AnimationPhase): (r: string)
    ensures r == "" <==> phase == Done
  {
    match phase
    case Frame => "正在分析职位要求..."
    case Chart => "生成胜任力维度..."
    case Details => "完善模型解读..."
    case Done => ""
  }

  /** The three phases `startAnalysis` goes through after the frame end in the last one. */
  lemma ThreeStepsFinish()
    ensures NextPhase(NextPhase(NextPhase(Frame))) == Done
  {
  }

  // ---------------------------------------------------------------------------
  // The description
  // ---------------------------------------------------------------------------

  /** How a description line is drawn: `'### '` gives an `h3` without its first four
      characters, `'- '` a list item without two, anything else a paragraph of the whole
      line; there is no `'#### '` rule here. */
  function ClassifyContentLine(line: string): (r: Block) {
    if StartsWith(line, "### ") then Heading(3, line[4..])
    else if StartsWith(line, "- ") then ListItem(line[2..])
    else Paragraph(line)
  }

  /** A `'#### '` line is a paragraph here, hash marks and all. */
  lemma FourHashesAreParagraphs(text: string)
    ensures ClassifyContentLine("#### " + text) == Paragraph("#### " + text)
  {
    var line := "#### " + text;
    assert line[3] == '#' && line[0] == '#';
  }

  /** Only the marker of a line is dropped. */
  lemma ContentLineRoundTrip(line: string)
    ensures Markup(ClassifyContentLine(line)) == line
  {
    if StartsWith(line, "### ") {
      assert Hashes(3) + " " == "### ";
      HeadingLineRoundTrip(line, 3);
    } else if StartsWith(line, "- ") {
      ListLineRoundTrip(line);
    }
  }

  /** `content.split('\n').map(...)`. */
  function ContentBlocks(content: string): (r: seq<Block>)
    ensures |r| == |Split(content, '\n')|
    ensures forall i :: 0 <= i < |r| ==> r[i] == ClassifyContentLine(Split(content, '\n')[i])
  {
    RenderLines(Split(content, '\n'), ClassifyContentLine)
  }

  /** The drawn description keeps all of the text. */
  lemma ContentDrawnInFull(content: string)
    ensures Join(Markups(ContentBlocks(content)), '\n') == content
  {
    forall line ensures Markup(ClassifyContentLine(line)) == line {
      ContentLineRoundTrip(line);
    }
    RenderLosesNothing(content, ClassifyContentLine);
  }

  // ---------------------------------------------------------------------------
  // The screen's state
  // ---------------------------------------------------------------------------

  /** The screen's state. */
  class Detail {
    var analysisStatus: AnalysisStatus
    var animationPhase: AnimationPhase
    var content: string
    var isEditingContent: bool
    var showStatusDropdown: bool
    var showCompetencyEditModal: bool

    /** The status and the phase move together: before the analysis the phase is the
        frame, during it the animation is not done, and once complete it is. */
    ghost predicate Valid()
      reads this
    {
      && (analysisStatus == Empty ==> animationPhase == Frame)
      && (analysisStatus == Generating ==> animationPhase != Done)
      && (analysisStatus == Complete ==> animationPhase == Done)
    }

    constructor(content: string)
      ensures Valid()
      ensures analysisStatus == Empty && animationPhase == Frame && this.content == content
      ensures !isEditingContent && !showStatusDropdown && !showCompetencyEditModal
    {
      analysisStatus := Empty;
      animationPhase := Frame;
      this.content := content;
      isEditingContent := false;
      showStatusDropdown := false;
      showCompetencyEditModal := false;
    }

    /** The loading overlay. */
    predicate ShowsOverlay()
      reads this
    {
      analysisStatus == Generating && animationPhase != Done
    }

    /** The 编辑 button of the reading. */
    predicate ShowsEditButton()
      reads this
    {
      analysisStatus != Empty && animationPhase == Done
    }

    /** In a consistent state the overlay shows exactly while generating, the edit button
        exactly once complete, and never both. */
    lemma OverlayAndEditButton()
      requires Valid()
      ensures ShowsOverlay() <==> analysisStatus == Generating
      ensures ShowsEditButton() <==> analysisStatus == Complete
      ensures !(ShowsOverlay() && ShowsEditButton())
    {
    }

    /** `startAnalysis`, whose button shows only before any reading: generating, from the
        frame. */
    method StartAnalysis()
      requires Valid() && analysisStatus == Empty
      modifies this
      ensures Valid()
      ensures analysisStatus == Generating && animationPhase == Frame && ShowsOverlay()
      ensures content == old(content) && isEditingContent == old(isEditingContent)
      ensures showStatusDropdown == old(showStatusDropdown) && showCompetencyEditModal == old(showCompetencyEditModal)
    {
      analysisStatus := Generating;
      animationPhase := Frame;
    }

    /** The end of one of `startAnalysis`'s waits: the next phase, and with the last one
        the analysis is complete. */
    method AdvancePhase()
      requires Valid() && analysisStatus == Generating
      modifies this
      ensures Valid()
      ensures animationPhase == NextPhase(old(animationPhase))
      ensures analysisStatus == if animationPhase == Done then Complete else Generating
      ensures content == old(content) && isEditingContent == old(isEditingContent)
      ensures showStatusDropdown == old(showStatusDropdown) && showCompetencyEditModal == old(showCompetencyEditModal)
    {
      animationPhase := NextPhase(animationPhase);
      if animationPhase == Done {
        analysisStatus := Complete;
      }
    }

    /** The description's 编辑 button (its label does not change). */
    method ToggleEditing()
      modifies this
      ensures isEditingContent == !old(isEditingContent) && content == old(content)
      ensures analysisStatus == old(analysisStatus) && animationPhase == old(animationPhase)
      ensures showStatusDropdown == old(showStatusDropdown) && showCompetencyEditModal == old(showCompetencyEditModal)
    {
      isEditingContent := !isEditingContent;
    }

    /** The editor stores its text at once. */
    method ContentChange(value: string)
      modifies this
      ensures content == value && isEditingContent == old(isEditingContent)
      ensures analysisStatus == old(analysisStatus) && animationPhase == old(animationPhase)
      ensures showStatusDropdown == old(showStatusDropdown) && showCompetencyEditModal == old(showCompetencyEditModal)
    {
      content := value;
    }

    /** `handleSaveContent`, and 取消 alike, close the editor and keep the text. */
    method CloseEditor()
      modifies this
      ensures !isEditingContent && content == old(content)
      ensures analysisStatus == old(analysisStatus) && animationPhase == old(animationPhase)
      ensures showStatusDropdown == old(showStatusDropdown) && showCompetencyEditModal == old(showCompetencyEditModal)
    {
      isEditingContent := false;
    }

    /** The status button opens and closes its menu; `handleStatusChange` closes it and
        changes no status. */
    method SetStatusDropdown(open: bool)
      modifies this
      ensures showStatusDropdown == open && content == old(content)
      ensures analysisStatus == old(analysisStatus) && animationPhase == old(animationPhase)
      ensures isEditingContent == old(isEditingContent) && showCompetencyEditModal == old(showCompetencyEditModal)
    {
      showStatusDropdown := open;
    }

    /** The reading's 编辑 button, shown only once the animation is done, opens the
        competency editor; closing it or `handleCompetencyUpdate` shuts it and keeps the
        reading as it is. */
    method SetCompetencyEditModal(open: bool)
      requires open ==> ShowsEditButton()
      modifies this
      ensures showCompetencyEditModal == open && content == old(content)
      ensures analysisStatus == old(analysisStatus) && animationPhase == old(animationPhase)
      ensures showStatusDropdown == old(showStatusDropdown)
      ensures isEditingContent == old(isEditingContent)
    {
      showCompetencyEditModal := open;
    }
  }

  /** From the start, the analysis runs frame → chart → details → done, with the overlay
      up until the last step. */
  method RunAnalysis(d: Detail)
    requires d.Valid() && d.analysisStatus == Empty
    modifies d
    ensures d.Valid() && d.analysisStatus == Complete && d.animationPhase == Done && !d.ShowsOverlay()
    ensures d.content == old(d.content)
    ensures d.isEditingContent == old(d.isEditingContent)
    ensures d.showStatusDropdown == old(d.showStatusDropdown) && d.showCompetencyEditModal == old(d.showCompetencyEditModal)
  {
    d.StartAnalysis();
    assert d.animationPhase == Frame;
    d.AdvancePhase();
    assert d.animationPhase == Chart && d.ShowsOverlay();
    d.AdvancePhase();
    assert d.animationPhase == Details && d.ShowsOverlay();
    d.AdvancePhase();
  }
}
