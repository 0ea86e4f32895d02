/** `model::Wireframe`: a triangle expanded into its three edges, the record a wireframe index buffer holds. */
module ModelWireframe {
  import opened Wrappers
  import opened PlyTypes
  import Elements
  import Panics

  /** The value of a `Wireframe` record: its `vertex_indices: [i32; 6]`. */
  type Edges = e: seq<I32> | |e| == 6 witness [0, 0, 0, 0, 0, 0]

  /** `size_of::<model::Wireframe>()`. */
  const Size: nat := 24

  /** `IntoElement::element`: wireframe records are read from the face element. */
  function Element(): (e: Elements.Element)
    ensures Elements.Name(e) == "face"
  {
    Elements.Face
  }

  function New(): (e: Edges)
    ensures forall i :: 0 <= i < 6 ==> e[i] == 0
  {
    [0, 0, 0, 0, 0, 0]
  }

  /** The line list of a triangle [a, b, c]: the edges (a, b), (b, c), (c, a). */
  function EdgesOf(t: seq<I32>): (e: Edges)
    requires |t| == 3
    ensures forall i :: 0 <= i < 3 ==> e[2 * i] == t[i] && e[2 * i + 1] == t[(i + 1) % 3]
  {
    [t[0], t[1], t[1], t[2], t[2], t[0]]
  }

  /** Each index of the triangle occurs in its edge list exactly twice as often as in the triangle. */
  lemma EdgesDoubleEachIndex(t: seq<I32>)
    requires |t| == 3
    ensures multiset(EdgesOf(t)) == multiset(t) + multiset(t)
  {
    var e := EdgesOf(t);
    assert e == [t[0]] + [t[1]] + [t[1]] + [t[2]] + [t[2]] + [t[0]];
    assert t == [t[0]] + [t[1]] + [t[2]];
  }

  /**
   * `set_property` on the value: a three-entry `ListInt` named vertex_indices becomes its edge
   * list; a `ListInt` of any other length panics; another name or kind changes nothing.
   */
  function WithProperty(e: Edges, key: string, property: Property): (r: Result<Edges, Panics.Reason>)
    ensures r.Panic? <==> key == "vertex_indices" && property.ListInt? && |property.li| != 3
    ensures key == "vertex_indices" && property.ListInt? && |property.li| == 3 ==> r == Ok(EdgesOf(property.li))
    ensures key != "vertex_indices" || !property.ListInt? ==> r == Ok(e)
  {
    if key == "vertex_indices" && property.ListInt? then
      if |property.li| == 3 then Ok(EdgesOf(property.li)) else Panic(Panics.WrongIndexCount)
    else Ok(e)
  }

  /** After a successful set from [a, b, c], each of a, b and c occurs exactly twice as often as in the triangle. */
  lemma EachIndexTwice(e: Edges, key: string, a: I32, b: I32, c: I32, x: I32)
    requires key == "vertex_indices"
    ensures WithProperty(e, key, ListInt([a, b, c])).Ok?
    ensures multiset(WithProperty(e, key, ListInt([a, b, c])).value)[x] == 2 * multiset([a, b, c])[x]
  {
    EdgesDoubleEachIndex([a, b, c]);
  }

  /** The ply_rs reading of one record; the first panicking property aborts it. */
  function Apply(e: Edges, row: Row): Result<Edges, Panics.Reason>
  {
    if row == [] then Ok(e)
    else
      match Apply(e, row[..|row| - 1])
      case Panic(why) => Panic(why)
      case Ok(e') => WithProperty(e', row[|row| - 1].0, row[|row| - 1].1)
  }

  function ReadRecord(row: Row): Result<Edges, Panics.Reason>
  {
    Apply(New(), row)
  }

  /** A row panics while read exactly when one of its vertex_indices lists is not a triangle. */
  predicate BadEntry(entry: (string, Property))
  {
    entry.0 == "vertex_indices" && entry.1.ListInt? && |entry.1.li| != 3
  }

  lemma {:induction false} ReadRecordPanics(e: Edges, row: Row)
    ensures Apply(e, row).Panic? <==> exists i :: 0 <= i < |row| && BadEntry(row[i])
  {
    if row != [] {
      var init, last := row[..|row| - 1], row[|row| - 1];
      ReadRecordPanics(e, init);
      var before := Apply(e, init);
      if before.Ok? {
        assert WithProperty(before.value, last.0, last.1).Panic? <==> BadEntry(last);
      }
      if exists i :: 0 <= i < |row| && BadEntry(row[i]) {
        var i :| 0 <= i < |row| && BadEntry(row[i]);
        if i < |init| {
          assert init[i] == row[i];
        }
      } else {
        assert forall i :: 0 <= i < |init| ==> init[i] == row[i];
      }
    }
  }

  /** Every record of an element, in file order; the first failing record's panic wins. */
  function ReadAll(rows: seq<Row>): (r: Result<seq<Edges>, Panics.Reason>)
    ensures r.Ok? ==> |r.value| == |rows| && forall i :: 0 <= i < |rows| ==> ReadRecord(rows[i]) == Ok(r.value[i])
    ensures r.Panic? ==> exists i :: 0 <= i < |rows| && ReadRecord(rows[i]).Panic?
  {
    if rows == [] then Ok([])
    else
      match ReadAll(rows[..|rows| - 1])
      case Panic(why) => Panic(why)
      case Ok(done) =>
        match ReadRecord(rows[|rows| - 1])
        case Panic(why) => Panic(why)
        case Ok(last) => Ok(done + [last])
  }

  /** `bytemuck::cast_slice` of one record. */
  function Words(e: Edges): (w: seq<Word>)
    ensures |w| * 4 == Size
    ensures forall i :: 0 <= i < 6 ==> w[i] == I32Bits(e[i])
  {
    [I32Bits(e[0]), I32Bits(e[1]), I32Bits(e[2]), I32Bits(e[3]), I32Bits(e[4]), I32Bits(e[5])]
  }

  /** `model::Wireframe` updated in place by the parser. */
  class Wireframe {
    const vertexIndices: array<I32>

    constructor ()
      ensures vertexIndices.Length == 6 && vertexIndices[..] == New()
      ensures fresh(vertexIndices)
    {
      vertexIndices := new I32[6](_ => 0);
    }

    /** Returns false where the source panics; the record is then left as it was. */
    method SetProperty(key: string, property: Property) returns (ok: bool)
      requires vertexIndices.Length == 6
      modifies vertexIndices
      ensures ok == WithProperty(old(vertexIndices[..]), key, property).Ok?
      ensures ok ==> vertexIndices[..] == WithProperty(old(vertexIndices[..]), key, property).value
      ensures !ok ==> vertexIndices[..] == old(vertexIndices[..])
    {
      ok := true;
      if key == "vertex_indices" && property.ListInt? {
        var v := property.li;
        if |v| == 3 {
          vertexIndices[0], vertexIndices[1], vertexIndices[2] := v[0], v[1], v[1];
          vertexIndices[3], vertexIndices[4], vertexIndices[5] := v[2], v[2], v[0];
          assert vertexIndices[..] == EdgesOf(v);
        } else {
          ok := false;
        }
      }
    }
  }
}
