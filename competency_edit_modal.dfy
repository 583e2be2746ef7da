/**
 * The competency-model editor (src/components/CompetencyEditModal.tsx): each dimension
 * has a weight typed as text and clamped to 0..100 and a free-text description; the model
 * can only be saved when the weights add up to exactly 100.
 */
module CompetencyEditModal {
  import opened Wrappers
  import opened JsStrings
  import opened Lists

  /** One dimension of the model; `caption` is the source's `label`. */
  datatype Dimension = Dimension(key: string, caption: string, weight: int, description: Option<string>, color: string)

  /** `Math.min(100, Math.max(0, n))`. */
  function Clamp(n: int): (r: int)
    ensures 0 <= r <= 100
    ensures 0 <= n <= 100 ==> r == n
    ensures n < 0 ==> r == 0
    ensures n > 100 ==> r == 100
  {
    if n < 0 then 0 else if n > 100 then 100 else n
  }

  /** `parseInt(value) || 0`: the number the typed text starts with, or 0 when it does
      not start with one. */
  function ParsedWeight(value: string): (r: int)
    ensures ParseInt(value).None? ==> r == 0
    ensures ParseInt(value).Some? ==> r == ParseInt(value).value
  {
    match ParseInt(value)
    case None => 0
    case Some(n) => n
  }

  /** The number a weight field shows reads back as that weight. */
  lemma ParsedWeightOfShownWeight(w: int)
    ensures ParsedWeight(IntToString(w)) == w
  {
    ParseIntOfIntToString(w, []);
    assert IntToString(w) + [] == IntToString(w);
  }

  /** The keys of the dimensions, in order. */
  function Keys(dims: seq<Dimension>): (r: seq<string>)
    ensures |r| == |dims| && forall i :: 0 <= i < |dims| ==> r[i] == dims[i].key
  {
    seq(|dims|, i requires 0 <= i < |dims| => dims[i].key)
  }

  /** `handleWeightChange`'s update: the dimension with the key gets the new weight held
      to 0..100, every other dimension is left as it is, and the order is kept. */
  function UpdateWeight(dims: seq<Dimension>, key: string, newWeight: int): (r: seq<Dimension>)
    ensures |r| == |dims|
    ensures forall i :: 0 <= i < |dims| && dims[i].key == key ==> r[i] == dims[i].(weight := Clamp(newWeight))
    ensures forall i :: 0 <= i < |dims| && dims[i].key != key ==> r[i] == dims[i]
    decreases |dims|
  {
    if dims == [] then []
    else
      var d := dims[0];
      [if d.key == key then d.(weight := Clamp(newWeight)) else d] + UpdateWeight(dims[1..], key, newWeight)
  }

  /** `handleDescriptionChange`'s update: only the description of the dimension with the
      key changes; no weight changes. */
  function UpdateDescription(dims: seq<Dimension>, key: string, value: string): (r: seq<Dimension>)
    ensures |r| == |dims|
    ensures forall i :: 0 <= i < |dims| && dims[i].key == key ==> r[i] == dims[i].(description := Some(value))
    ensures forall i :: 0 <= i < |dims| && dims[i].key != key ==> r[i] == dims[i]
    ensures forall i :: 0 <= i < |dims| ==> r[i].weight == dims[i].weight
    decreases |dims|
  {
    if dims == [] then []
    else
      var d := dims[0];
      [if d.key == key then d.(description := Some(value)) else d] + UpdateDescription(dims[1..], key, value)
  }

  /** `dimensions.reduce((sum, dim) => sum + dim.weight, 0)`. */
  function TotalWeight(dims: seq<Dimension>): int
    decreases |dims|
  {
    if dims == [] then 0 else dims[0].weight + TotalWeight(dims[1..])
  }

  /** Two lists with the same weights position by position have the same total. */
  lemma {:induction false} SameWeightsSameTotal(a: seq<Dimension>, b: seq<Dimension>)
    requires |a| == |b| && forall i :: 0 <= i < |a| ==> a[i].weight == b[i].weight
    ensures TotalWeight(a) == TotalWeight(b)
    decreases |a|
  {
    if a != [] {
      SameWeightsSameTotal(a[1..], b[1..]);
    }
  }

  /** A description edit never changes the total. */
  lemma DescriptionKeepsTotal(dims: seq<Dimension>, key: string, value: string)
    ensures TotalWeight(UpdateDescription(dims, key, value)) == TotalWeight(dims)
  {
    SameWeightsSameTotal(UpdateDescription(dims, key, value), dims);
  }

  /** A weight edit for a key no dimension has changes nothing. */
  lemma WeightEditOfUnknownKey(dims: seq<Dimension>, key: string, newWeight: int)
    requires key !in Keys(dims)
    ensures UpdateWeight(dims, key, newWeight) == dims
  {
    var r := UpdateWeight(dims, key, newWeight);
    forall i | 0 <= i < |dims| ensures r[i] == dims[i] {
      assert Keys(dims)[i] == dims[i].key;
    }
  }

  /** With distinct keys, a weight edit moves the total by exactly the change of that one
      weight. */
  lemma {:induction false} WeightEditTotal(dims: seq<Dimension>, key: string, newWeight: int, j: int)
    requires NoDuplicates(Keys(dims)) && 0 <= j < |dims| && dims[j].key == key
    ensures TotalWeight(UpdateWeight(dims, key, newWeight)) == TotalWeight(dims) - dims[j].weight + Clamp(newWeight)
    decreases |dims|
  {
    var r := UpdateWeight(dims, key, newWeight);
    assert r[1..] == UpdateWeight(dims[1..], key, newWeight);
    KeysOfTail(dims);
    if j == 0 {
      WeightEditOfUnknownKey(dims[1..], key, newWeight);
    } else {
      assert Keys(dims)[0] != Keys(dims)[j];
      WeightEditTotal(dims[1..], key, newWeight, j - 1);
    }
  }

  /** The keys after the first are distinct and do not include the first. */
  lemma KeysOfTail(dims: seq<Dimension>)
    requires NoDuplicates(Keys(dims)) && dims != []
    ensures NoDuplicates(Keys(dims[1..])) && dims[0].key !in Keys(dims[1..])
  {
    var tail := dims[1..];
    forall a, b | 0 <= a < b < |tail| ensures Keys(tail)[a] != Keys(tail)[b] {
      assert Keys(dims)[a + 1] != Keys(dims)[b + 1];
    }
    forall i | 0 <= i < |tail| ensures Keys(tail)[i] != dims[0].key {
      assert Keys(dims)[i + 1] != Keys(dims)[0];
    }
  }

  // ---------------------------------------------------------------------------
  // Saving
  // ---------------------------------------------------------------------------

  /** The text before the total in the error message. */
  const TotalErrorPrefix := "权重总和必须为100%，当前总和为"

  /** `权重总和必须为100%，当前总和为${totalWeight}%`. */
  function TotalError(total: int): (r: string)
    ensures StartsWith(r, TotalErrorPrefix) && EndsWith(r, "%")
    ensures ParseInt(r[|TotalErrorPrefix|..]) == Some(total)
  {
    var tail := IntToString(total) + "%";
    ParseIntOfIntToString(total, "%");
    AfterPrefix(TotalErrorPrefix, tail);
    TotalErrorPrefix + tail
  }

  lemma AfterPrefix(p: string, t: string)
    ensures StartsWith(p + t, p) && (p + t)[|p|..] == t
    ensures t != [] && t[|t| - 1] == '%' ==> EndsWith(p + t, "%")
  {
    assert (p + t)[..|p|] == p;
  }

  /** What pressing save leads to: the error shown, or the dimensions handed to
      `onSubmit` before the editor closes. */
  datatype SubmitOutcome = Rejected(error: string) | Submitted(dimensions: seq<Dimension>)

  /** `handleSubmit`: saving is refused exactly when the weights do not add up to 100,
      with a message naming the total; otherwise the edited dimensions are handed on
      unchanged. */
  function Submit(dims: seq<Dimension>): (r: SubmitOutcome)
    ensures r.Rejected? <==> TotalWeight(dims) != 100
    ensures r.Rejected? ==> StartsWith(r.error, TotalErrorPrefix) && ParseInt(r.error[|TotalErrorPrefix|..]) == Some(TotalWeight(dims))
    ensures r.Submitted? ==> r.dimensions == dims
  {
    var total := TotalWeight(dims);
    if total != 100 then Rejected(TotalError(total)) else Submitted(dims)
  }

  /** The editor's state: the dimensions being edited, the error on show, and what has
      been handed to `onSubmit` and `onClose`. */
  class Editor {
    var dimensions: seq<Dimension>
    var error: Option<string>
    var submitted: Option<seq<Dimension>>
    var closed: bool

    /** `useState(initialDimensions)` with no error. */
    constructor(initialDimensions: seq<Dimension>)
      ensures dimensions == initialDimensions && error == None && submitted == None && !closed
    {
      dimensions := initialDimensions;
      error := None;
      submitted := None;
      closed := false;
    }

    /** `handleWeightChange`: the weight is updated and the error cleared. */
    method HandleWeightChange(key: string, value: string)
      modifies this
      ensures dimensions == UpdateWeight(old(dimensions), key, ParsedWeight(value)) && error == None
      ensures submitted == old(submitted) && closed == old(closed)
    {
      var newWeight := ParsedWeight(value);
      dimensions := UpdateWeight(dimensions, key, newWeight);
      error := None;
    }

    /** `handleDescriptionChange`: the description is updated; the error stays. */
    method HandleDescriptionChange(key: string, value: string)
      modifies this
      ensures dimensions == UpdateDescription(old(dimensions), key, value)
      ensures error == old(error) && submitted == old(submitted) && closed == old(closed)
    {
      dimensions := UpdateDescription(dimensions, key, value);
    }

    /** `handleSubmit`: either the error is shown and nothing is handed on, or the
        dimensions go to `onSubmit` and then `onClose` runs. */
    method HandleSubmit()
      modifies this
      ensures dimensions == old(dimensions)
      ensures TotalWeight(dimensions) != 100 ==>
        error == Some(TotalError(TotalWeight(dimensions))) && submitted == old(submitted) && closed == old(closed)
      ensures TotalWeight(dimensions) == 100 ==>
        error == old(error) && submitted == Some(dimensions) && closed
    {
      match Submit(dimensions)
      case Rejected(message) =>
        error := Some(message);
      case Submitted(dims) =>
        submitted := Some(dims);
        closed := true;
    }
  }
}
