/** `model::TriFacet`: a triangle as three vertex indices, the record a mesh index buffer holds. */
module ModelFacet {
  import opened Wrappers
  import opened PlyTypes
  import Elements

  /** The value of a `TriFacet`: its `vertex_indices: [i32; 3]`. */
  type Triangle = t: seq<I32> | |t| == 3 witness [0, 0, 0]

  /** `size_of::<TriFacet>()`. */
  const Size: nat := 12

  /** `IntoElement::element`: facets are found under the face element. */
  function Element(): (e: Elements.Element)
    ensures Elements.Name(e) == "face"
  {
    Elements.Face
  }

  function New(): (t: Triangle)
    ensures forall i :: 0 <= i < 3 ==> t[i] == 0
  {
    [0, 0, 0]
  }

  /**
   * `set_property` on the value: a three-entry `ListInt` named vertex_indices replaces the
   * record; a list of any other length, another name or another kind changes nothing.
   */
  function WithProperty(t: Triangle, key: string, property: Property): (r: Triangle)
    ensures key == "vertex_indices" && property.ListInt? && |property.li| == 3 ==> r == property.li
    ensures key != "vertex_indices" || !property.ListInt? || |property.li| != 3 ==> r == t
  {
    if key == "vertex_indices" && property.ListInt? && |property.li| == 3 then property.li else t
  }

  lemma WithPropertyIdempotent(t: Triangle, key: string, property: Property)
    ensures WithProperty(WithProperty(t, key, property), key, property) == WithProperty(t, key, property)
  {
  }

  /** The ply_rs reading of one record: `new()` then `set_property` for each property in order. */
  function Apply(t: Triangle, row: Row): Triangle
  {
    if row == [] then t
    else WithProperty(Apply(t, row[..|row| - 1]), row[|row| - 1].0, row[|row| - 1].1)
  }

  function ReadRecord(row: Row): Triangle
  {
    Apply(New(), row)
  }

  /** The last three-entry vertex_indices list of a row, if any. */
  function LastTriangle(row: Row): Option<Triangle>
  {
    if row == [] then None
    else if row[|row| - 1].0 == "vertex_indices" && row[|row| - 1].1.ListInt? && |row[|row| - 1].1.li| == 3
    then Some(row[|row| - 1].1.li)
    else LastTriangle(row[..|row| - 1])
  }

  /** A read record is the last usable triangle list of its row, else zeros: bad lists are skipped silently. */
  lemma {:induction false} ReadRecordLastTriangle(row: Row)
    ensures ReadRecord(row) == (if LastTriangle(row).Some? then LastTriangle(row).value else New())
  {
    if row != [] {
      ReadRecordLastTriangle(row[..|row| - 1]);
    }
  }

  /** Every record of an element, in file order. */
  function ReadAll(rows: seq<Row>): (r: seq<Triangle>)
    ensures |r| == |rows|
    ensures forall i :: 0 <= i < |rows| ==> r[i] == ReadRecord(rows[i])
  {
    seq(|rows|, i requires 0 <= i < |rows| => ReadRecord(rows[i]))
  }

  /** `bytemuck::cast_slice` of one record. */
  function Words(t: Triangle): (w: seq<Word>)
    ensures |w| * 4 == Size
    ensures forall i :: 0 <= i < 3 ==> w[i] == I32Bits(t[i])
  {
    [I32Bits(t[0]), I32Bits(t[1]), I32Bits(t[2])]
  }

  /** `TriFacet` updated in place by the parser. */
  class TriFacet {
    const vertexIndices: array<I32>

    constructor ()
      ensures vertexIndices.Length == 3 && vertexIndices[..] == New()
      ensures fresh(vertexIndices)
    {
      vertexIndices := new I32[3](_ => 0);
    }

    method SetProperty(key: string, property: Property)
      requires vertexIndices.Length == 3
      modifies vertexIndices
      ensures vertexIndices[..] == WithProperty(old(vertexIndices[..]), key, property)
    {
      match (key, property)
      case ("vertex_indices", ListInt(v)) =>
        if |v| == 3 {
          vertexIndices[0], vertexIndices[1], vertexIndices[2] := v[0], v[1], v[2];
        }
      case (_, _) =>
    }
  }
}
