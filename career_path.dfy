/**
 * The career path strip (src/components/CareerPath.tsx): the stages of a career drawn in
 * a row, the candidate's current stage highlighted, the earlier ones marked past and the
 * later ones future, and a stage's details opened by clicking it.
 */
module CareerPath {
  import opened Wrappers

  /** A stage; the lists of requirements and opportunities are only drawn. */
  datatype PathNode = PathNode(title: string, level: string, timeframe: string,
                               requirements: seq<string>, opportunities: seq<string>)

  /** `CAREER_PATHS`, without the requirement and opportunity texts. */
  const CareerPaths: seq<PathNode> := [
    PathNode("初级前端工程师", "P4-P5", "0-2年", [], []),
    PathNode("高级前端工程师", "P6-P7", "3-5年", [], []),
    PathNode("前端架构师", "P8", "5-8年", [], []),
    PathNode("技术专家", "P9", "8年以上", [], [])]

  /** `findIndex(node => node.title === currentPosition)`: the first stage with the
      title, or -1 when there is none. */
  function FindIndex(path: seq<PathNode>, title: string): (r: int)
    ensures -1 <= r < |path|
    ensures r >= 0 ==> path[r].title == title && forall j :: 0 <= j < r ==> path[j].title != title
    ensures r == -1 <==> forall j :: 0 <= j < |path| ==> path[j].title != title
    decreases |path|
  {
    if path == [] then -1
    else if path[0].title == title then 0
    else
      var rest := FindIndex(path[1..], title);
      assert forall j :: 0 < j < |path| ==> path[j] == path[1..][j - 1];
      if rest == -1 then -1 else rest + 1
  }

  /** How a stage is drawn. */
  datatype NodeStyle = NodeStyle(isPast: bool, isCurrent: bool, isFuture: bool)

  /** `isPast`, `isCurrent` and `isFuture` for the stage at `index`. */
  function StyleOf(path: seq<PathNode>, currentPosition: string, index: nat): (r: NodeStyle)
    requires index < |path|
    ensures r.isPast <==> index < FindIndex(path, currentPosition)
    ensures r.isCurrent <==> path[index].title == currentPosition
    ensures r.isFuture <==> index > FindIndex(path, currentPosition)
  {
    var currentIndex := FindIndex(path, currentPosition);
    NodeStyle(index < currentIndex, path[index].title == currentPosition, index > currentIndex)
  }

  /** No two stages share a title. */
  predicate UniqueTitles(path: seq<PathNode>) {
    forall i, j :: 0 <= i < j < |path| ==> path[i].title != path[j].title
  }

  /** With distinct titles and the current position among them, every stage is exactly
      one of past, current and future; the current one is at the found index. */
  lemma FoundPositionSplitsPath(path: seq<PathNode>, currentPosition: string, index: nat)
    requires UniqueTitles(path) && index < |path| && FindIndex(path, currentPosition) >= 0
    ensures var s := StyleOf(path, currentPosition, index);
      (if s.isPast then 1 else 0) + (if s.isCurrent then 1 else 0) + (if s.isFuture then 1 else 0) == 1
    ensures StyleOf(path, currentPosition, index).isCurrent <==> index == FindIndex(path, currentPosition)
  {
    var k := FindIndex(path, currentPosition);
    assert index != k ==> path[index].title != path[k].title;
  }

  /** A position that is not on the path leaves every stage future and none current. */
  lemma MissingPositionAllFuture(path: seq<PathNode>, currentPosition: string, index: nat)
    requires index < |path| && FindIndex(path, currentPosition) == -1
    ensures StyleOf(path, currentPosition, index) == NodeStyle(false, false, true)
  {
  }

  /** The built-in path has distinct titles. */
  lemma CareerPathsUnique()
    ensures UniqueTitles(CareerPaths)
  {
    var titles := [CareerPaths[0].title, CareerPaths[1].title, CareerPaths[2].title, CareerPaths[3].title];
    assert titles[0][0] == '初' && titles[1][0] == '高' && titles[2][0] == '前' && titles[3][0] == '技';
  }

  /** `index < CAREER_PATHS.length - 1`: a connector follows every stage but the last. */
  function Connectors(count: nat): (r: seq<bool>)
    ensures |r| == count
    ensures count > 0 ==> !r[count - 1]
    ensures forall i :: 0 <= i < count - 1 ==> r[i]
  {
    seq(count, i requires 0 <= i < count => i < count - 1)
  }

  /** The strip's state; `selectedNode` is the stage whose details are open. */
  class Strip {
    const currentPosition: string
    var selectedNode: Option<PathNode>

    constructor(currentPosition: string)
      ensures this.currentPosition == currentPosition && selectedNode == None
    {
      this.currentPosition := currentPosition;
      selectedNode := None;
    }

    /** A click on a stage: the open stage closes, any other one opens in its place;
        stages are told apart by title. */
    method NodeClick(node: PathNode)
      modifies this
      ensures old(selectedNode).Some? && old(selectedNode).value.title == node.title ==> selectedNode == None
      ensures !(old(selectedNode).Some? && old(selectedNode).value.title == node.title) ==> selectedNode == Some(node)
    {
      if selectedNode.Some? && selectedNode.value.title == node.title {
        selectedNode := None;
      } else {
        selectedNode := Some(node);
      }
    }
  }

  /** Clicking the same stage twice from no open stage opens and closes it. */
  method ClickTwice(s: Strip, node: PathNode)
    requires s.selectedNode == None
    modifies s
    ensures s.selectedNode == None
  {
    s.NodeClick(node);
    assert s.selectedNode == Some(node);
    s.NodeClick(node);
  }
}
