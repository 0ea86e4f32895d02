/**
 * The values the PLY parser (the ply_rs crate, an external collaborator) hands to the
 * visualiser: scalar and list properties, the header reduced to element counts, and a
 * file reduced to its parsed header and the property rows of its two elements.
 */
module PlyTypes {
  import opened Wrappers

  /** An `f32`, kept as its bit pattern: no arithmetic is done on coordinates. */
  datatype F32 = F32(bits: U32)

  /** `0.0f32`, whose bit pattern is all zeros. */
  const Zero: F32 := F32(0)

  newtype I32 = x: int | -0x8000_0000 <= x < 0x8000_0000

  type U32 = x: nat | x < 0x1_0000_0000

  /** Rust's `count as u32`: truncation to the low 32 bits. */
  function AsU32(n: nat): (r: U32)
    ensures n < 0x1_0000_0000 ==> r == n
  {
    n % 0x1_0000_0000
  }

  /** A 4-byte GPU word, as an unsigned value. */
  type Word = U32

  /** The two's-complement bit pattern of an `i32`, as `bytemuck::cast_slice` lays it out. */
  function I32Bits(x: I32): (w: Word)
    ensures x >= 0 ==> w == x as int
    ensures x < 0 ==> w >= 0x8000_0000 && w - 0x1_0000_0000 == x as int
  {
    if x >= 0 then x as int else x as int + 0x1_0000_0000
  }

  /** The property kinds of `ply::Property`. */
  datatype Property =
    | Char(c: int) | UChar(uc: int) | Short(sh: int) | UShort(ush: int)
    | Int(i: I32) | UInt(ui: nat) | Float(f: F32) | Double(d: nat)
    | ListChar(lc: seq<int>) | ListUChar(luc: seq<int>)
    | ListShort(ls: seq<int>) | ListUShort(lus: seq<int>)
    | ListInt(li: seq<I32>) | ListUInt(lui: seq<nat>)
    | ListFloat(lf: seq<F32>) | ListDouble(ld: seq<nat>)

  /** One record as the parser reads it: each declared property with its value, in order. */
  type Row = seq<(string, Property)>

  /** A PLY header reduced to what is used here: element name to record count. */
  type Header = map<string, nat>

  /**
   * A PLY file after `read_header` (None when the header does not parse) with the
   * rows `read_payload_for_element` yields for the `vertex` and the `face` element.
   */
  datatype PlyFile = PlyFile(header: Option<Header>, vertexRows: seq<Row>, faceRows: seq<Row>)
}
