/**
 * The file-name patterns. `(?<instance>[0-9]+)\.(?<artifact>.+)\.ply` is searched for anywhere
 * in the string, leftmost match first, with the greedy quantifiers of the `regex` crate; `.`
 * matches every character but a newline.
 */
module PlyNames {
  import opened Wrappers
  import opened PlyTypes

  predicate IsDigit(c: char)
  {
    '0' <= c <= '9'
  }

  predicate DigitsBetween(s: string, i: nat, j: nat)
    requires i <= j <= |s|
  {
    forall x :: i <= x < j ==> IsDigit(s[x])
  }

  predicate NoNewlineBetween(s: string, i: nat, j: nat)
    requires i <= j <= |s|
  {
    forall x :: i <= x < j ==> s[x] != '\n'
  }

  /** The literal `.ply` starts at k. */
  predicate PlyAt(s: string, k: nat)
  {
    k + 4 <= |s| && s[k] == '.' && s[k + 1] == 'p' && s[k + 2] == 'l' && s[k + 3] == 'y'
  }

  /**
   * The pattern matches s with the instance group at [i, j), the `.` at j, the artifact group
   * at [j + 1, k) and `.ply` at k.
   */
  predicate MatchesAt(s: string, i: nat, j: nat, k: nat)
  {
    i < j && j + 1 < k && k <= |s| && DigitsBetween(s, i, j) && s[j] == '.'
    && NoNewlineBetween(s, j + 1, k) && PlyAt(s, k)
  }

  /** Where the run of digits starting at i ends: what greedy `[0-9]+` consumes. */
  function DigitRunEnd(s: string, i: nat): (j: nat)
    requires i <= |s|
    ensures i <= j <= |s| && DigitsBetween(s, i, j) && (j == |s| || !IsDigit(s[j]))
    decreases |s| - i
  {
    if i < |s| && IsDigit(s[i]) then DigitRunEnd(s, i + 1) else i
  }

  /** The first newline at or after i, or the end: how far greedy `.+` can reach. */
  function LineEnd(s: string, i: nat): (m: nat)
    requires i <= |s|
    ensures i <= m <= |s| && NoNewlineBetween(s, i, m) && (m == |s| || s[m] == '\n')
    decreases |s| - i
  {
    if i < |s| && s[i] != '\n' then LineEnd(s, i + 1) else i
  }

  /** The last `.ply` starting in [lo, hi]: where backtracking from greedy `.+` stops. */
  function LastPly(s: string, lo: nat, hi: nat): (r: Option<nat>)
    ensures r.Some? ==> lo <= r.value <= hi && PlyAt(s, r.value)
    ensures r.Some? ==> forall k :: r.value < k <= hi ==> !PlyAt(s, k)
    ensures r.None? ==> forall k :: lo <= k <= hi ==> !PlyAt(s, k)
    decreases hi
  {
    if hi < lo then None
    else if PlyAt(s, hi) then Some(hi)
    else if hi == lo then None
    else LastPly(s, lo, hi - 1)
  }

  /**
   * The match attempt starting at i: the whole digit run, then `.`, then the longest artifact
   * within the line that is followed by `.ply`.
   */
  function MatchAt(s: string, i: nat): (r: Option<(nat, nat)>)
    requires i <= |s|
    ensures r.Some? ==> MatchesAt(s, i, r.value.0, r.value.1)
    ensures r.Some? ==> forall j: nat, k: nat :: MatchesAt(s, i, j, k) ==> j == r.value.0 && k <= r.value.1
    ensures r.None? ==> forall j: nat, k: nat :: !MatchesAt(s, i, j, k)
  {
    if i < |s| && IsDigit(s[i]) then
      var j := DigitRunEnd(s, i);
      if j < |s| && s[j] == '.' then
        var m := LineEnd(s, j + 1);
        match LastPly(s, j + 2, m)
        case Some(k) => Some((j, k))
        case None => None
      else None
    else None
  }

  /** Match attempts from i onwards; the first that succeeds wins. */
  function Search(s: string, i: nat): (r: Option<(nat, nat, nat)>)
    requires i <= |s|
    ensures r.Some? ==> i <= r.value.0 <= |s| && MatchAt(s, r.value.0) == Some((r.value.1, r.value.2))
    ensures r.Some? ==> forall x :: i <= x < r.value.0 ==> MatchAt(s, x).None?
    ensures r.None? ==> forall x :: i <= x <= |s| ==> MatchAt(s, x).None?
    decreases |s| - i
  {
    match MatchAt(s, i)
    case Some((j, k)) => Some((i, j, k))
    case None => if i == |s| then None else Search(s, i + 1)
  }

  /** `PLY_RE.captures(s)`: the instance and artifact groups of the leftmost match. */
  function Captures(s: string): (r: Option<(string, string)>)
    ensures r.None? <==> forall i: nat, j: nat, k: nat :: !MatchesAt(s, i, j, k)
    ensures r.Some? ==> exists i: nat, j: nat, k: nat :: MatchesAt(s, i, j, k) && r.value == (s[i..j], s[j + 1..k])
  {
    match Search(s, 0)
    case None =>
      forall i: nat, j: nat, k: nat | i <= |s|
        ensures !MatchesAt(s, i, j, k)
      {
        assert MatchAt(s, i).None?;
      }
      None
    case Some((i, j, k)) => Some((s[i..j], s[j + 1..k]))
  }

  /** The match `Captures` reports is the leftmost one, and its artifact group the longest there. */
  lemma CapturesLeftmostLongest(s: string, i: nat, j: nat, k: nat)
    requires Search(s, 0) == Some((i, j, k))
    ensures Captures(s) == Some((s[i..j], s[j + 1..k]))
    ensures forall i': nat, j': nat, k': nat :: MatchesAt(s, i', j', k') ==> i <= i'
    ensures forall k': nat :: MatchesAt(s, i, j, k') ==> k' <= k
  {
    forall i': nat, j': nat, k': nat | i' < i
      ensures !MatchesAt(s, i', j', k')
    {
      assert MatchAt(s, i').None?;
    }
  }

  /** A canonical file name: a decimal instance, a dot, an artifact name on one line, `.ply`. */
  function CanonicalName(digits: string, artifact: string): (s: string)
    ensures |s| == |digits| + |artifact| + 5
    ensures s[..|digits|] == digits && s[|digits|] == '.'
    ensures s[|digits| + 1..|s| - 4] == artifact && s[|s| - 4..] == ".ply"
  {
    digits + "." + artifact + ".ply"
  }

  /** Whatever the artifact looks like, the canonical name gives back exactly its parts. */
  lemma {:induction false} CapturesCanonical(digits: string, artifact: string)
    requires |digits| > 0 && DigitsBetween(digits, 0, |digits|)
    requires |artifact| > 0 && NoNewlineBetween(artifact, 0, |artifact|)
    ensures Captures(CanonicalName(digits, artifact)) == Some((digits, artifact))
  {
    var s := CanonicalName(digits, artifact);
    var d, n := |digits|, |s|;
    assert forall x :: 0 <= x < d ==> s[x] == digits[x];
    assert s[d] == '.';
    assert forall x :: d + 1 <= x < n - 4 ==> s[x] == artifact[x - d - 1];
    assert s[n - 4..] == ".ply";
    assert MatchesAt(s, 0, d, n - 4);
    var r := Search(s, 0).value;
    assert r.0 == 0 by {
      assert !(0 < r.0);
    }
    assert r.1 == d by {
      assert MatchesAt(s, 0, r.1, r.2);
    }
    assert r.2 == n - 4 by {
      assert PlyAt(s, r.2);
      assert r.2 <= n - 4;
    }
    assert s[0..d] == digits;
    assert s[d + 1..n - 4] == artifact;
  }

  /** The loose pattern `(.+)\.(.+)\.ply` matches with a dot at j and `.ply` at k. */
  predicate LooseMatchesAt(s: string, j: nat, k: nat)
  {
    1 <= j && j + 1 < k && k <= |s| && s[j - 1] != '\n' && s[j] == '.'
    && NoNewlineBetween(s, j + 1, k) && PlyAt(s, k)
  }

  /** `Regex::new(r"(.+)\.(.+)\.ply").is_match(s)`. */
  predicate LooseMatch(s: string)
  {
    exists j: nat, k: nat | j < |s| && k <= |s| :: LooseMatchesAt(s, j, k)
  }

  /**
   * Every name the strict pattern accepts makes any full path ending in it acceptable to the
   * loose pattern, so the loose filter never hides a file the injector could take.
   */
  lemma StrictImpliesLoose(dir: string, name: string)
    requires Captures(name).Some?
    ensures LooseMatch(dir + "/" + name)
  {
    var r := Search(name, 0).value;
    var j, k := r.1, r.2;
    assert MatchesAt(name, r.0, j, k);
    var s := dir + "/" + name;
    var o := |dir| + 1;
    LooseShift(s, name, o, j, k);
  }

  /** A loose match inside a suffix of s is a loose match of s. */
  lemma LooseShift(s: string, name: string, o: nat, j: nat, k: nat)
    requires o + |name| == |s| && s[o..] == name
    requires 1 <= j && j + 1 < k && k <= |name| && name[j - 1] != '\n' && name[j] == '.'
    requires NoNewlineBetween(name, j + 1, k) && PlyAt(name, k)
    ensures LooseMatch(s)
  {
    assert forall x :: 0 <= x < |name| ==> s[o + x] == name[x];
    assert forall x :: o + j + 1 <= x < o + k ==> s[x] == name[x - o];
    assert LooseMatchesAt(s, o + j, o + k);
  }

  function DigitValue(c: char): (v: nat)
    requires IsDigit(c)
    ensures v < 10
  {
    (c as int - '0' as int) as nat
  }

  /** The decimal value of a string of digits. */
  function DecimalValue(s: string): nat
    requires DigitsBetween(s, 0, |s|)
  {
    if s == [] then 0 else 10 * DecimalValue(s[..|s| - 1]) + DigitValue(s[|s| - 1])
  }

  /**
   * `str::parse::<u32>()`: an optional `+`, then at least one digit and nothing else, with a
   * value below 2^32; anything else is an error.
   */
  function ParseU32(s: string): (r: Option<U32>)
    ensures var t := if 0 < |s| && s[0] == '+' then s[1..] else s;
      r.Some? <==> 0 < |t| && DigitsBetween(t, 0, |t|) && DecimalValue(t) < 0x1_0000_0000
    ensures var t := if 0 < |s| && s[0] == '+' then s[1..] else s;
      r.Some? ==> DigitsBetween(t, 0, |t|) && r.value == DecimalValue(t)
  {
    var t := if 0 < |s| && s[0] == '+' then s[1..] else s;
    if 0 < |t| && DigitsBetween(t, 0, |t|) && DecimalValue(t) < 0x1_0000_0000 then Some(DecimalValue(t))
    else None
  }

  function DigitChar(v: nat): (c: char)
    requires v < 10
    ensures IsDigit(c) && DigitValue(c) == v
  {
    ('0' as int + v) as char
  }

  /** Digits and the values below ten correspond one to one: a digit's value is written as that digit. */
  lemma DigitCharOfValue(c: char)
    requires IsDigit(c)
    ensures DigitChar(DigitValue(c)) == c
  {
  }

  /** The shortest decimal rendering of n. */
  function Decimal(n: nat): (s: string)
    ensures 0 < |s| && DigitsBetween(s, 0, |s|)
  {
    if n < 10 then [DigitChar(n)] else Decimal(n / 10) + [DigitChar(n % 10)]
  }

  lemma {:induction false} DecimalValueOfDecimal(n: nat)
    ensures DecimalValue(Decimal(n)) == n
  {
    if 10 <= n {
      var s := Decimal(n);
      assert s[..|s| - 1] == Decimal(n / 10);
      DecimalValueOfDecimal(n / 10);
    }
  }

  /** Parsing the decimal rendering of a 32-bit value gives the value back. */
  lemma ParseDecimal(n: U32)
    ensures ParseU32(Decimal(n)) == Some(n)
  {
    DecimalValueOfDecimal(n);
  }
}
