/**
 * The truncated text cell of the list screens (src/components/TruncatedField.tsx): the
 * width it may take depends on the kind of field unless a width is given.
 */
module TruncatedField {
  import opened Wrappers

  /** The kind of field: one constructor per declared type string ('name', 'position',
      'email', 'phone', 'address'). The list screens also pass type strings outside
      those five ('info', 'location'); `Other` carries such a string. The string 'name'
      stands for the constructor `Name`, not for `Other("name")`. */
  datatype FieldType = Name | Position | Email | Phone | Address | Other(typeString: string)

  /** The width of each kind when none is given, in pixels. */
  function DefaultWidth(kind: FieldType): (r: int)
    ensures r in {120, 150, 200}
    ensures r == 200 <==> kind == Email || kind == Address
    ensures r == 120 <==> kind == Name || kind == Phone
  {
    match kind
    case Name => 120
    case Position => 150
    case Email => 200
    case Phone => 120
    case Address => 200
    case Other(_) => 150
  }

  /** `getMaxWidth`: `maxWidth || default`. An absent width and the width 0 are both
      falsy and give the default; any other number is taken as it is, negative ones
      included. */
  function MaxWidth(kind: FieldType, maxWidth: Option<int>): (r: int)
    ensures maxWidth.Some? && maxWidth.value != 0 ==> r == maxWidth.value
    ensures maxWidth.None? || maxWidth.value == 0 ==> r == DefaultWidth(kind)
  {
    match maxWidth
    case None => DefaultWidth(kind)
    case Some(w) => if w == 0 then DefaultWidth(kind) else w
  }

  /** A width of 0 behaves as no width at all, and a given width overrides the kind; the
      list screens' `'info'` and `'location'` cells get 150. */
  lemma WidthCases(kind: FieldType, w: int)
    ensures MaxWidth(kind, Some(0)) == MaxWidth(kind, None)
    ensures w != 0 ==> forall other :: MaxWidth(kind, Some(w)) == MaxWidth(other, Some(w))
    ensures MaxWidth(Other("info"), None) == 150 && MaxWidth(Other("location"), None) == 150
  {
  }
}
