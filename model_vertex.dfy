/** `model::PlainVertex`: the position record the vertex buffer holds. */
module ModelVertex {
  import opened Wrappers
  import opened PlyTypes

  /** The value of a `PlainVertex`: its `position: [f32; 3]`. */
  type Position = p: seq<F32> | |p| == 3 witness [Zero, Zero, Zero]

  /** `size_of::<PlainVertex>()`: three 4-byte floats under `repr(C)`. */
  const Size: nat := 12

  /** `desc().array_stride`: the layout advances by one whole record. */
  const Stride: nat := Size

  /** `PropertyAccess::new`: the origin. */
  function New(): (p: Position)
    ensures forall i :: 0 <= i < 3 ==> p[i] == Zero
  {
    [Zero, Zero, Zero]
  }

  /** The coordinate slot a property name addresses, if any. */
  function Axis(key: string): (r: int)
    ensures -1 <= r < 3
    ensures r == 0 <==> key == "x"
    ensures r == 1 <==> key == "y"
    ensures r == 2 <==> key == "z"
  {
    match key
    case "x" => 0
    case "y" => 1
    case "z" => 2
    case _ => -1
  }

  /** `set_property` on the value: a Float named x, y or z overwrites that one coordinate. */
  function WithProperty(p: Position, key: string, property: Property): (r: Position)
    ensures property.Float? && Axis(key) >= 0 ==>
              r[Axis(key)] == property.f &&
              forall j :: 0 <= j < 3 && j != Axis(key) ==> r[j] == p[j]
    ensures !property.Float? || Axis(key) < 0 ==> r == p
  {
    if property.Float? && Axis(key) >= 0 then p[Axis(key) := property.f] else p
  }

  /** Setting the same property twice is the same as setting it once. */
  lemma WithPropertyIdempotent(p: Position, key: string, property: Property)
    ensures WithProperty(WithProperty(p, key, property), key, property) == WithProperty(p, key, property)
  {
  }

  /** Of two Float writes to one coordinate, the later one wins. */
  lemma LastWriteWins(p: Position, key: string, v1: F32, v2: F32)
    ensures WithProperty(WithProperty(p, key, Float(v1)), key, Float(v2)) == WithProperty(p, key, Float(v2))
  {
  }

  /** The last Float value in a row for a given property name. */
  function LastFloat(row: Row, key: string): Option<F32>
  {
    if row == [] then None
    else if row[|row| - 1].0 == key && row[|row| - 1].1.Float? then Some(row[|row| - 1].1.f)
    else LastFloat(row[..|row| - 1], key)
  }

  /** The ply_rs reading of one record: `new()` then `set_property` for each property in order. */
  function Apply(p: Position, row: Row): Position
  {
    if row == [] then p
    else WithProperty(Apply(p, row[..|row| - 1]), row[|row| - 1].0, row[|row| - 1].1)
  }

  function ReadRecord(row: Row): Position
  {
    Apply(New(), row)
  }

  /** Each coordinate of a read record is the last Float given for its name, else zero. */
  lemma {:induction false} ReadRecordCoordinate(row: Row, key: string)
    requires Axis(key) >= 0
    ensures ReadRecord(row)[Axis(key)] == (if LastFloat(row, key).Some? then LastFloat(row, key).value else Zero)
  {
    if row != [] {
      ReadRecordCoordinate(row[..|row| - 1], key);
    }
  }

  /** Every record of an element, in file order. */
  function ReadAll(rows: seq<Row>): (r: seq<Position>)
    ensures |r| == |rows|
    ensures forall i :: 0 <= i < |rows| ==> r[i] == ReadRecord(rows[i])
  {
    seq(|rows|, i requires 0 <= i < |rows| => ReadRecord(rows[i]))
  }

  /** `bytemuck::cast_slice` of one record: its three float bit patterns. */
  function Words(p: Position): (w: seq<Word>)
    ensures |w| * 4 == Size
    ensures forall i :: 0 <= i < 3 ==> w[i] == p[i].bits
  {
    [p[0].bits, p[1].bits, p[2].bits]
  }

  /** `PlainVertex` updated in place by the parser. */
  class PlainVertex {
    const position: array<F32>

    constructor ()
      ensures position.Length == 3 && position[..] == New()
      ensures fresh(position)
    {
      position := new F32[3](_ => Zero);
    }

    /** The `Copy` value the parser pushes into its `Vec`. */
    function Value(): Position
      requires position.Length == 3
      reads position
    {
      position[..]
    }

    method SetProperty(key: string, property: Property)
      requires position.Length == 3
      modifies position
      ensures position[..] == WithProperty(old(position[..]), key, property)
    {
      match (key, property)
      case ("x", Float(v)) => position[0] := v;
      case ("y", Float(v)) => position[1] := v;
      case ("z", Float(v)) => position[2] := v;
      case (_, _) =>
    }
  }
}
