/** The schema vocabulary: the two element names the visualiser recognises in a PLY header. */
module Elements {
  import opened Wrappers

  datatype Element = Vertex | Face

  /** `Element::from`: the exact, case-sensitive names "vertex" and "face". */
  function FromName(s: string): (r: Option<Element>)
    ensures r == Some(Vertex) <==> s == "vertex"
    ensures r == Some(Face) <==> s == "face"
    ensures r == None <==> s != "vertex" && s != "face"
  {
    match s
    case "vertex" => Some(Vertex)
    case "face" => Some(Face)
    case _ => None
  }

  /** `From<Element> for String`: the wire name of an element; it reads back as the same element. */
  function Name(e: Element): (s: string)
    ensures FromName(s) == Some(e)
  {
    match e
    case Vertex => "vertex"
    case Face => "face"
  }

  /** Distinct elements have distinct wire names. */
  lemma NameInjective(e1: Element, e2: Element)
    ensures Name(e1) == Name(e2) ==> e1 == e2
  {
    if Name(e1) == Name(e2) {
      assert FromName(Name(e1)) == Some(e1) && FromName(Name(e2)) == Some(e2);
    }
  }

  /** Any name that is recognised is the wire name of what it is recognised as. */
  lemma FromNameInverse(s: string)
    ensures FromName(s).Some? ==> Name(FromName(s).value) == s
  {
  }
}
