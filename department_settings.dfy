/**
 * The department tree of the enterprise settings (src/pages/enterprise/settings/DepartmentSettings.tsx):
 * the departments are drawn as a tree from the roots down, a node with children has an
 * expand button, and only an expanded node shows its children, one level deeper.
 */
module DepartmentSettings {
  import opened Wrappers
  import opened Lists

  /** A department; `parentId` is `null` for a top-level department. */
  datatype Department = Department(id: string, name: string, code: string, parentId: Option<string>, description: string)

  /** `MOCK_DEPARTMENTS`. */
  const MockDepartments: seq<Department> := [
    Department("1", "技术部", "TECH", None, "负责公司技术研发和架构设计"),
    Department("2", "前端组", "TECH-FE", Some("1"), "负责前端开发和架构设计"),
    Department("3", "后端组", "TECH-BE", Some("1"), "负责后端开发和架构设计"),
    Department("4", "产品部", "PROD", None, "负责产品规划和设计")]

  /** The expanded departments when the screen opens. */
  const InitialExpanded: set<string> := {"1"}

  // ---------------------------------------------------------------------------
  // Expanding and collapsing
  // ---------------------------------------------------------------------------

  /** `toggleDepartment`: the id leaves the set when it is in it and joins it otherwise;
      no other id changes. */
  function Toggle(expanded: set<string>, id: string): (r: set<string>)
    ensures id in r <==> id !in expanded
    ensures forall other :: other != id ==> (other in r <==> other in expanded)
  {
    if id in expanded then expanded - {id} else expanded + {id}
  }

  /** Toggling the same department twice restores the set. */
  lemma ToggleTwice(expanded: set<string>, id: string)
    ensures Toggle(Toggle(expanded, id), id) == expanded
  {
  }

  // ---------------------------------------------------------------------------
  // The tree
  // ---------------------------------------------------------------------------

  /** `getChildDepartments`: the departments whose parent is the given one (`None` for
      the roots), in list order. */
  function ChildDepartments(departments: seq<Department>, parentId: Option<string>): seq<Department>
    decreases |departments|
  {
    if departments == [] then []
    else
      (if departments[0].parentId == parentId then [departments[0]] else [])
      + ChildDepartments(departments[1..], parentId)
  }

  /** The children are exactly the departments with that parent, kept in list order. */
  lemma ChildrenExactly(departments: seq<Department>, parentId: Option<string>)
    ensures var r := ChildDepartments(departments, parentId);
      && (forall i :: 0 <= i < |r| ==> r[i] in departments && r[i].parentId == parentId)
      && (forall i :: 0 <= i < |departments| && departments[i].parentId == parentId ==> departments[i] in r)
      && IsSubsequence(r, departments)
  {
    ChildrenHaveParent(departments, parentId);
    ChildrenComplete(departments, parentId);
    ChildrenInOrder(departments, parentId);
  }

  lemma {:induction false} ChildrenHaveParent(departments: seq<Department>, parentId: Option<string>)
    ensures forall i :: 0 <= i < |ChildDepartments(departments, parentId)| ==>
      ChildDepartments(departments, parentId)[i] in departments
      && ChildDepartments(departments, parentId)[i].parentId == parentId
    decreases |departments|
  {
    if departments != [] {
      var rest := ChildDepartments(departments[1..], parentId);
      ChildrenHaveParent(departments[1..], parentId);
      var head := if departments[0].parentId == parentId then [departments[0]] else [];
      var r := head + rest;
      assert ChildDepartments(departments, parentId) == r;
      forall i | 0 <= i < |r| ensures r[i] in departments && r[i].parentId == parentId {
        if i >= |head| {
          assert r[i] == rest[i - |head|];
          assert rest[i - |head|] in departments[1..];
        }
      }
    }
  }

  lemma {:induction false} ChildrenComplete(departments: seq<Department>, parentId: Option<string>)
    ensures forall i :: 0 <= i < |departments| && departments[i].parentId == parentId ==>
      departments[i] in ChildDepartments(departments, parentId)
    decreases |departments|
  {
    if departments != [] {
      ChildrenComplete(departments[1..], parentId);
      assert forall i :: 0 < i < |departments| ==> departments[i] == departments[1..][i - 1];
    }
  }

  lemma {:induction false} ChildrenInOrder(departments: seq<Department>, parentId: Option<string>)
    ensures IsSubsequence(ChildDepartments(departments, parentId), departments)
    decreases |departments|
  {
    if departments != [] {
      var d := departments[0];
      var rest := ChildDepartments(departments[1..], parentId);
      ChildrenInOrder(departments[1..], parentId);
      if d.parentId == parentId {
        assert ChildDepartments(departments, parentId) == [d] + rest;
        assert ([d] + rest)[1..] == rest;
      } else {
        ChildrenHaveParent(departments[1..], parentId);
        assert ChildDepartments(departments, parentId) == rest;
        assert rest != [] ==> rest[0] != d;
      }
    }
  }

  /** Rows all drawn at `level` or deeper. */
  predicate AllAtLeast(rows: seq<Row>, level: nat) {
    forall k :: 0 <= k < |rows| ==> rows[k].level >= level
  }

  /** Rows all drawing departments of the list. */
  predicate AllFrom(rows: seq<Row>, departments: seq<Department>) {
    forall k :: 0 <= k < |rows| ==> rows[k].department in departments
  }

  /** One drawn row: the department, its indentation level, whether it has the expand
      button, and whether its arrow is turned (the node is expanded). */
  datatype Row = Row(department: Department, level: nat, hasToggle: bool, isExpanded: bool)

  /** The row `renderDepartment` draws for a department itself: the expand button is there
      exactly when the department has children. */
  function HeadRow(departments: seq<Department>, d: Department, level: nat, expanded: set<string>): (r: Row)
    ensures r.department == d && r.level == level
    ensures r.hasToggle <==> exists i :: 0 <= i < |departments| && departments[i].parentId == Some(d.id)
    ensures r.isExpanded <==> d.id in expanded
  {
    var children := ChildDepartments(departments, Some(d.id));
    ChildrenExactly(departments, Some(d.id));
    assert children != [] ==> children[0] in departments;
    Row(d, level, children != [], d.id in expanded)
  }

  /** `renderDepartment`, flattened into the rows it draws from top to bottom: the
      department's own row, then, when it is expanded and has children, the rows of each
      child one level deeper. A cycle in the parent links would make the source recurse
      without end; `fuel` bounds the depth. */
  function RenderDepartment(departments: seq<Department>, d: Department, level: nat, expanded: set<string>, fuel: nat)
    : seq<Row>
    decreases fuel, 0, 0
  {
    if fuel == 0 then []
    else
      var children := ChildDepartments(departments, Some(d.id));
      [HeadRow(departments, d, level, expanded)]
      + (if d.id in expanded && children != [] then RenderAll(departments, children, level + 1, expanded, fuel - 1)
         else [])
  }

  /** `children.map(child => renderDepartment(child, level))`. */
  function RenderAll(departments: seq<Department>, ds: seq<Department>, level: nat, expanded: set<string>, fuel: nat)
    : seq<Row>
    decreases fuel, 1, |ds|
  {
    if ds == [] then []
    else RenderDepartment(departments, ds[0], level, expanded, fuel) + RenderAll(departments, ds[1..], level, expanded, fuel)
  }

  /** The whole tree: the roots at level 0. */
  function RenderTree(departments: seq<Department>, expanded: set<string>, fuel: nat): seq<Row> {
    RenderAll(departments, ChildDepartments(departments, None), 0, expanded, fuel)
  }

  /** A collapsed department, or one without children, is its own row alone. */
  lemma CollapsedShowsOneRow(departments: seq<Department>, d: Department, level: nat, expanded: set<string>, fuel: nat)
    requires fuel > 0
    requires d.id !in expanded || ChildDepartments(departments, Some(d.id)) == []
    ensures RenderDepartment(departments, d, level, expanded, fuel) == [HeadRow(departments, d, level, expanded)]
  {
  }

  /** An expanded department with children is followed by its first child's row, one
      level deeper. */
  lemma ExpandedShowsFirstChild(departments: seq<Department>, d: Department, level: nat, expanded: set<string>,
                                fuel: nat)
    requires fuel > 1 && d.id in expanded && ChildDepartments(departments, Some(d.id)) != []
    ensures var rows := RenderDepartment(departments, d, level, expanded, fuel);
      |rows| >= 2 && rows[1] == HeadRow(departments, ChildDepartments(departments, Some(d.id))[0], level + 1, expanded)
  {
    var children := ChildDepartments(departments, Some(d.id));
    var first := RenderDepartment(departments, children[0], level + 1, expanded, fuel - 1);
    var below := RenderAll(departments, children, level + 1, expanded, fuel - 1);
    assert below == first + RenderAll(departments, children[1..], level + 1, expanded, fuel - 1);
    assert first[0] == HeadRow(departments, children[0], level + 1, expanded);
  }

  /** Every row below a department is drawn deeper than it, and every row of a list of
      siblings is at least at their level. */
  lemma {:induction false} SubtreeIsDeeper(departments: seq<Department>, d: Department, level: nat,
                                           expanded: set<string>, fuel: nat)
    ensures RenderDepartment(departments, d, level, expanded, fuel) == [] ||
      AllAtLeast(RenderDepartment(departments, d, level, expanded, fuel)[1..], level + 1)
    decreases fuel, 0, 0
  {
    if fuel > 0 {
      var children := ChildDepartments(departments, Some(d.id));
      var rows := RenderDepartment(departments, d, level, expanded, fuel);
      if d.id in expanded && children != [] {
        var below := RenderAll(departments, children, level + 1, expanded, fuel - 1);
        SiblingsAtLeastLevel(departments, children, level + 1, expanded, fuel - 1);
        assert rows[1..] == below;
      } else {
        assert rows[1..] == [];
      }
    }
  }

  lemma {:induction false} SiblingsAtLeastLevel(departments: seq<Department>, ds: seq<Department>, level: nat,
                                                expanded: set<string>, fuel: nat)
    ensures AllAtLeast(RenderAll(departments, ds, level, expanded, fuel), level)
    decreases fuel, 1, |ds|
  {
    if ds != [] {
      SubtreeIsDeeper(departments, ds[0], level, expanded, fuel);
      SiblingsAtLeastLevel(departments, ds[1..], level, expanded, fuel);
      var first := RenderDepartment(departments, ds[0], level, expanded, fuel);
      var rest := RenderAll(departments, ds[1..], level, expanded, fuel);
      var rows := first + rest;
      assert RenderAll(departments, ds, level, expanded, fuel) == rows;
      assert first != [] ==> fuel > 0 && first[0] == HeadRow(departments, ds[0], level, expanded);
      forall k | 0 <= k < |rows| ensures rows[k].level >= level {
        if k == 0 && first != [] {
        } else if k < |first| {
          assert rows[k] == first[1..][k - 1];
        } else {
          assert rows[k] == rest[k - |first|];
        }
      }
    }
  }

  /** Every drawn row is a department of the list, given that the departments drawn from
      are. */
  lemma {:induction false} RowsAreDepartments(departments: seq<Department>, ds: seq<Department>, level: nat,
                                              expanded: set<string>, fuel: nat)
    requires forall i :: 0 <= i < |ds| ==> ds[i] in departments
    ensures AllFrom(RenderAll(departments, ds, level, expanded, fuel), departments)
    decreases fuel, 1, |ds|
  {
    if ds != [] {
      assert forall i :: 0 <= i < |ds[1..]| ==> ds[1..][i] == ds[i + 1];
      RowsAreDepartments(departments, ds[1..], level, expanded, fuel);
      SubtreeRowsAreDepartments(departments, ds[0], level, expanded, fuel);
      var first := RenderDepartment(departments, ds[0], level, expanded, fuel);
      var rest := RenderAll(departments, ds[1..], level, expanded, fuel);
      var rows := first + rest;
      assert RenderAll(departments, ds, level, expanded, fuel) == rows;
      forall k | 0 <= k < |rows| ensures rows[k].department in departments {
        if k < |first| {
          assert rows[k] == first[k];
        } else {
          assert rows[k] == rest[k - |first|];
        }
      }
    }
  }

  lemma {:induction false} SubtreeRowsAreDepartments(departments: seq<Department>, d: Department, level: nat,
                                                     expanded: set<string>, fuel: nat)
    requires d in departments
    ensures AllFrom(RenderDepartment(departments, d, level, expanded, fuel), departments)
    decreases fuel, 0, 0
  {
    if fuel > 0 {
      var children := ChildDepartments(departments, Some(d.id));
      var rows := RenderDepartment(departments, d, level, expanded, fuel);
      if d.id in expanded && children != [] {
        var below := RenderAll(departments, children, level + 1, expanded, fuel - 1);
        ChildrenExactly(departments, Some(d.id));
        RowsAreDepartments(departments, children, level + 1, expanded, fuel - 1);
        assert rows == [HeadRow(departments, d, level, expanded)] + below;
        forall k | 0 <= k < |rows| ensures rows[k].department in departments {
          if k > 0 {
            assert rows[k] == below[k - 1];
          }
        }
      } else {
        assert rows == [HeadRow(departments, d, level, expanded)];
      }
    }
  }

  /** The roots are 技术部 and 产品部, and only 技术部 has children: its two groups. */
  lemma MockChildren()
    ensures ChildDepartments(MockDepartments, None) == [MockDepartments[0], MockDepartments[3]]
    ensures ChildDepartments(MockDepartments, Some("1")) == [MockDepartments[1], MockDepartments[2]]
    ensures ChildDepartments(MockDepartments, Some("2")) == []
    ensures ChildDepartments(MockDepartments, Some("3")) == []
    ensures ChildDepartments(MockDepartments, Some("4")) == []
  {
    var ds := MockDepartments;
    assert ds[1..][1..] == ds[2..] && ds[2..][1..] == ds[3..] && ds[3..][1..] == [];
  }

  /** The tree as the screen opens: 技术部 expanded with its two groups below it, then
      产品部, which has no children. */
  lemma InitialTree()
    ensures RenderTree(MockDepartments, InitialExpanded, 2) == [
      Row(MockDepartments[0], 0, true, true),
      Row(MockDepartments[1], 1, false, false),
      Row(MockDepartments[2], 1, false, false),
      Row(MockDepartments[3], 0, false, false)]
  {
    var ds := MockDepartments;
    var e := InitialExpanded;
    MockChildren();
    var r1 := RenderDepartment(ds, ds[1], 1, e, 1);
    var r2 := RenderDepartment(ds, ds[2], 1, e, 1);
    assert r1 == [Row(ds[1], 1, false, false)];
    assert r2 == [Row(ds[2], 1, false, false)];
    assert RenderAll(ds, [ds[2]], 1, e, 1) == r2 by {
      assert [ds[2]][1..] == [];
    }
    assert RenderAll(ds, [ds[1], ds[2]], 1, e, 1) == r1 + r2 by {
      assert [ds[1], ds[2]][1..] == [ds[2]];
    }
    var r0 := RenderDepartment(ds, ds[0], 0, e, 2);
    assert r0 == [Row(ds[0], 0, true, true)] + r1 + r2;
    var r3 := RenderDepartment(ds, ds[3], 0, e, 2);
    assert r3 == [Row(ds[3], 0, false, false)];
    assert RenderAll(ds, [ds[3]], 0, e, 2) == r3 by {
      assert [ds[3]][1..] == [];
    }
    assert RenderAll(ds, [ds[0], ds[3]], 0, e, 2) == r0 + r3 by {
      assert [ds[0], ds[3]][1..] == [ds[3]];
    }
  }

  // ---------------------------------------------------------------------------
  // The screen's state
  // ---------------------------------------------------------------------------

  /** The screen's state; the search text is stored but filters nothing. */
  class Screen {
    var searchTerm: string
    var showDeleteConfirm: Option<string>
    var showFormModal: bool
    var expandedDepartments: set<string>

    constructor()
      ensures searchTerm == "" && showDeleteConfirm == None && !showFormModal
      ensures expandedDepartments == InitialExpanded
    {
      searchTerm := "";
      showDeleteConfirm := None;
      showFormModal := false;
      expandedDepartments := InitialExpanded;
    }

    /** The rows on screen. */
    function Rows(fuel: nat): seq<Row>
      reads this
    {
      RenderTree(MockDepartments, expandedDepartments, fuel)
    }

    /** `toggleDepartment`. */
    method ToggleDepartment(id: string)
      modifies this
      ensures expandedDepartments == Toggle(old(expandedDepartments), id)
      ensures searchTerm == old(searchTerm) && showDeleteConfirm == old(showDeleteConfirm)
      ensures showFormModal == old(showFormModal)
    {
      var newExpanded := expandedDepartments;
      if id in newExpanded {
        newExpanded := newExpanded - {id};
      } else {
        newExpanded := newExpanded + {id};
      }
      expandedDepartments := newExpanded;
    }

    /** The search box stores its text; it filters nothing, so the tree stays as drawn. */
    method SearchChange(value: string)
      modifies this
      ensures searchTerm == value
      ensures expandedDepartments == old(expandedDepartments) && showDeleteConfirm == old(showDeleteConfirm)
      ensures showFormModal == old(showFormModal)
    {
      searchTerm := value;
    }

    /** The delete button asks for confirmation of that department. */
    method AskDelete(id: string)
      modifies this
      ensures showDeleteConfirm == Some(id)
      ensures expandedDepartments == old(expandedDepartments) && showFormModal == old(showFormModal)
      ensures searchTerm == old(searchTerm)
    {
      showDeleteConfirm := Some(id);
    }

    /** Confirming or cancelling the deletion closes the dialog; nothing is deleted. */
    method CloseDelete()
      modifies this
      ensures showDeleteConfirm == None
      ensures expandedDepartments == old(expandedDepartments) && showFormModal == old(showFormModal)
      ensures searchTerm == old(searchTerm)
    {
      showDeleteConfirm := None;
    }

    /** The add button opens the form; `handleFormSubmit` closes it and adds nothing. */
    method SetFormModal(open: bool)
      modifies this
      ensures showFormModal == open
      ensures expandedDepartments == old(expandedDepartments) && showDeleteConfirm == old(showDeleteConfirm)
      ensures searchTerm == old(searchTerm)
    {
      showFormModal := open;
    }
  }
}
