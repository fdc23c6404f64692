// The few java.lang.String and java.lang.Integer operations the core relies on,
// written with the exact Java semantics the callers depend on: indexOf returns -1
// when nothing is found, Integer.valueOf accepts an optional sign and rejects values
// outside 32 bits, trim() strips every character up to U+0020, split(",") drops
// trailing empty fields, and int division truncates toward zero.

module JavaText {

  datatype Option<T> = None | Some(value: T)

  const IntMin: int := -0x8000_0000
  const IntMax: int := 0x7fff_ffff

  predicate IsInt32(x: int) { IntMin <= x <= IntMax }

  // ---------------------------------------------------------------- searching

  /** The scan of indexOf(char) from position i on. */
  function IndexOfCharFrom(s: string, c: char, i: nat): (r: int)
    requires i <= |s|
    ensures r == -1 || (i <= r < |s| && s[r] == c)
    ensures forall j :: i <= j < |s| && (r == -1 || j < r) ==> s[j] != c
    decreases |s| - i
  {
    if i == |s| then -1
    else if s[i] == c then i
    else IndexOfCharFrom(s, c, i + 1)
  }

  /** String.indexOf(char): the first position of c in s, or -1. */
  function IndexOfChar(s: string, c: char): (r: int)
    ensures -1 <= r < |s|
    ensures r >= 0 ==> s[r] == c && c !in s[..r]
    ensures r == -1 <==> c !in s
  {
    var r := IndexOfCharFrom(s, c, 0);
    assert r >= 0 ==> forall j :: 0 <= j < r ==> s[..r][j] == s[j];
    r
  }

  /** t occurs in s starting at position i. */
  predicate OccursAt(s: string, t: string, i: int)
  {
    0 <= i && i + |t| <= |s| && s[i..i + |t|] == t
  }

  function IndexOfFrom(s: string, t: string, i: nat): (r: int)
    requires i <= |s|
    ensures r == -1 || (i <= r && OccursAt(s, t, r))
    ensures r == -1 ==> forall j :: i <= j ==> !OccursAt(s, t, j)
    ensures r >= 0 ==> forall j :: i <= j < r ==> !OccursAt(s, t, j)
    decreases |s| - i
  {
    if i + |t| > |s| then -1
    else if s[i..i + |t|] == t then i
    else IndexOfFrom(s, t, i + 1)
  }

  /** The first c in a + [c] + b is the one after a, when a holds none. */
  lemma IndexOfCharAfter(a: string, c: char, b: string)
    requires c !in a
    ensures IndexOfChar(a + [c] + b, c) == |a|
  {
    var s := a + [c] + b;
    assert s[|a|] == c;
    assert s[..|a|] == a;
  }

  /** String.indexOf(String): the first position where t occurs in s, or -1. */
  function IndexOf(s: string, t: string): (r: int)
    ensures r == -1 || OccursAt(s, t, r)
    ensures r == -1 <==> forall j :: !OccursAt(s, t, j)
    ensures r >= 0 ==> forall j :: j < r ==> !OccursAt(s, t, j)
  {
    IndexOfFrom(s, t, 0)
  }

  /** String.contains. */
  predicate Contains(s: string, t: string)
  {
    IndexOf(s, t) >= 0
  }

  predicate StartsWith(s: string, p: string)
  {
    |p| <= |s| && s[..|p|] == p
  }

  predicate EndsWith(s: string, p: string)
  {
    |p| <= |s| && s[|s| - |p|..] == p
  }

  lemma ContainsAt(s: string, a: string, t: string, b: string)
    requires s == a + t + b
    ensures Contains(s, t)
  {
    assert s[|a|..|a| + |t|] == t;
    assert OccursAt(s, t, |a|);
  }

  // ---------------------------------------------------------------- trimming

  predicate IsBlank(c: char) { c <= ' ' }

  function TrimStart(s: string): (r: string)
    ensures |r| <= |s| && r == s[|s| - |r|..]
    ensures |r| > 0 ==> !IsBlank(r[0])
    ensures forall i :: 0 <= i < |s| - |r| ==> IsBlank(s[i])
  {
    if |s| > 0 && IsBlank(s[0]) then TrimStart(s[1..]) else s
  }

  function TrimEnd(s: string): (r: string)
    ensures |r| <= |s| && r == s[..|r|]
    ensures |r| > 0 ==> !IsBlank(r[|r| - 1])
    ensures forall i :: |r| <= i < |s| ==> IsBlank(s[i])
  {
    if |s| > 0 && IsBlank(s[|s| - 1]) then TrimEnd(s[..|s| - 1]) else s
  }

  /** String.trim(): drop every leading and trailing character up to U+0020. */
  function Trim(s: string): (r: string)
  {
    TrimEnd(TrimStart(s))
  }

  lemma TrimShape(s: string)
    ensures exists i :: OccursAt(s, Trim(s), i)
    ensures |Trim(s)| > 0 ==> !IsBlank(Trim(s)[0]) && !IsBlank(Trim(s)[|Trim(s)| - 1])
  {
    var a := TrimStart(s);
    var r := TrimEnd(a);
    var i := |s| - |a|;
    assert a == s[i..];
    assert r == a[..|r|] == s[i..i + |r|];
    assert Trim(s) == r;
    assert OccursAt(s, Trim(s), i);
  }

  // ------------------------------------------------------- integer conversion

  predicate IsDigit(c: char) { '0' <= c <= '9' }

  predicate AllDigits(s: string) { forall i :: 0 <= i < |s| ==> IsDigit(s[i]) }

  function DigitValue(c: char): nat requires IsDigit(c) { c as int - '0' as int }

  function DigitChar(d: nat): char requires d < 10 { ('0' as int + d) as char }

  /** The decimal value of a string of ASCII digits. */
  function DigitsValue(s: string): nat
    requires AllDigits(s)
  {
    if |s| == 0 then 0 else DigitsValue(s[..|s| - 1]) * 10 + DigitValue(s[|s| - 1])
  }

  lemma NoDigitIsSign(s: string)
    requires AllDigits(s)
    ensures '-' !in s && ';' !in s && ',' !in s && '<' !in s && '>' !in s
  {
  }

  /** Integer.valueOf(s, 10) / Integer.parseInt(s): None stands for NumberFormatException. */
  function ParseInt(s: string): (r: Option<int>)
    ensures r.Some? ==> IsInt32(r.value)
  {
    if |s| == 0 then None
    else
      var signed := s[0] == '-' || s[0] == '+';
      var digits := if signed then s[1..] else s;
      if |digits| == 0 || !AllDigits(digits) then None
      else
        var magnitude := DigitsValue(digits);
        var v: int := if s[0] == '-' then -(magnitude as int) else magnitude;
        if IsInt32(v) then Some(v) else None
  }

  /** The value ParseInt gives, or the fallback when the string does not parse. */
  function ParseIntOr(s: string, fallback: int): int
  {
    match ParseInt(s)
    case Some(v) => v
    case None => fallback
  }

  function NatToString(n: nat): (r: string)
    ensures |r| > 0 && AllDigits(r)
  {
    if n < 10 then [DigitChar(n)] else NatToString(n / 10) + [DigitChar(n % 10)]
  }

  /** Integer.toString / String.valueOf(int) / "%d". */
  function IntToString(i: int): string
  {
    if i < 0 then "-" + NatToString(-i) else NatToString(i)
  }

  lemma {:induction false} DigitsOfNatToString(n: nat)
    ensures DigitsValue(NatToString(n)) == n
  {
    var s := NatToString(n);
    if n >= 10 {
      DigitsOfNatToString(n / 10);
      assert s[..|s| - 1] == NatToString(n / 10);
    }
  }

  /** Parsing what Integer.toString printed gives the number back. */
  lemma ParseIntToString(i: int)
    requires IsInt32(i)
    ensures ParseInt(IntToString(i)) == Some(i)
  {
    if i < 0 {
      ParseNegativeToString(i);
    } else {
      ParseNatToString(i);
    }
  }

  lemma ParseNatToString(n: nat)
    requires IsInt32(n)
    ensures ParseInt(NatToString(n)) == Some(n)
  {
    var s := NatToString(n);
    assert IsDigit(s[0]);
    DigitsOfNatToString(n);
  }

  lemma ParseNegativeToString(i: int)
    requires IsInt32(i) && i < 0
    ensures ParseInt("-" + NatToString(-i)) == Some(i)
  {
    var s := "-" + NatToString(-i);
    assert s[0] == '-' && s[1..] == NatToString(-i);
    DigitsOfNatToString(-i);
  }

  /** The low 32 bits of x read as a signed int: Java's int overflow and (int) casts. */
  function Wrap32(x: int): (r: int)
    ensures IsInt32(r)
    ensures (r - x) % 0x1_0000_0000 == 0
    ensures IsInt32(x) ==> r == x
  {
    var m := x % 0x1_0000_0000;
    if m > IntMax then m - 0x1_0000_0000 else m
  }

  predicate IsInt64(x: int) { -0x8000_0000_0000_0000 <= x < 0x8000_0000_0000_0000 }

  /** The low 64 bits of x read as a signed long: Java's long overflow. */
  function Wrap64(x: int): (r: int)
    ensures IsInt64(r)
    ensures (r - x) % 0x1_0000_0000_0000_0000 == 0
    ensures IsInt64(x) ==> r == x
  {
    var m := x % 0x1_0000_0000_0000_0000;
    if m >= 0x8000_0000_0000_0000 then m - 0x1_0000_0000_0000_0000 else m
  }

  /** Java's integer division, which truncates toward zero. */
  function JavaDiv(a: int, b: int): (q: int)
    requires b != 0
    ensures (a >= 0) == (a - b * q >= 0) || a - b * q == 0
    ensures -(if b < 0 then -b else b) < a - b * q < (if b < 0 then -b else b)
  {
    var ua := if a < 0 then -a else a;
    var ub := if b < 0 then -b else b;
    var uq := ua / ub;
    if (a < 0) == (b < 0) then uq else -uq
  }

  // ---------------------------------------------------------------- splitting

  /** Every field of s between occurrences of c, empty fields included. */
  function SplitAll(s: string, c: char): (r: seq<string>)
    ensures |r| > 0
    ensures forall i :: 0 <= i < |r| ==> c !in r[i]
    decreases |s|
  {
    var p := IndexOfChar(s, c);
    if p < 0 then [s] else [s[..p]] + SplitAll(s[p + 1..], c)
  }

  function JoinWith(fields: seq<string>, c: char): string
    requires |fields| > 0
  {
    if |fields| == 1 then fields[0] else fields[0] + [c] + JoinWith(fields[1..], c)
  }

  lemma {:induction false} JoinSplitAll(s: string, c: char)
    ensures JoinWith(SplitAll(s, c), c) == s
    decreases |s|
  {
    var p := IndexOfChar(s, c);
    if p >= 0 {
      JoinSplitAll(s[p + 1..], c);
      assert s == s[..p] + [c] + s[p + 1..];
    }
  }

  /** Splitting at the first separator. */
  lemma SplitAllAfter(a: string, c: char, b: string)
    requires c !in a
    ensures SplitAll(a + [c] + b, c) == [a] + SplitAll(b, c)
  {
    var s := a + [c] + b;
    IndexOfCharAfter(a, c, b);
    assert s[..|a|] == a && s[|a| + 1..] == b;
  }

  function DropTrailingEmpty(fields: seq<string>): (r: seq<string>)
    ensures |r| <= |fields| && r == fields[..|r|]
    ensures |r| > 0 ==> r[|r| - 1] != ""
    ensures forall i :: |r| <= i < |fields| ==> fields[i] == ""
  {
    if |fields| > 0 && fields[|fields| - 1] == "" then DropTrailingEmpty(fields[..|fields| - 1])
    else fields
  }

  /** A non-empty field survives, with everything before it. */
  lemma DropTrailingEmptyKeeps(fields: seq<string>, k: nat)
    requires k < |fields| && fields[k] != ""
    ensures k < |DropTrailingEmpty(fields)| && DropTrailingEmpty(fields)[..k + 1] == fields[..k + 1]
  {
  }

  /** String.split on a one-character separator: trailing empty fields are dropped,
      and an empty input gives one empty field. */
  function JavaSplit(s: string, c: char): seq<string>
  {
    if s == "" then [""] else DropTrailingEmpty(SplitAll(s, c))
  }

  /** String.join(sep, parts). */
  function Join(parts: seq<string>, sep: string): string
  {
    if |parts| == 0 then "" else if |parts| == 1 then parts[0] else parts[0] + sep + Join(parts[1..], sep)
  }
}
