// Shared vocabulary for the model: optional values, and the few JavaScript
// string operations the route handlers and pages rely on (`trim`,
// `toLowerCase`, `includes`, `endsWith`, `split`, `substring`), restricted to
// the ASCII behaviour that the model needs.

module Common {

  datatype Option<T> = None | Some(value: T)

  /** A handler's outcome: a value, or the typed error of an early return. */
  datatype Result<T, E> = Ok(value: T) | Err(error: E)

  function Min(a: int, b: int): int
  {
    if a <= b then a else b
  }

  /** JavaScript truthiness of an optional string: missing or "" is falsy. */
  predicate Present(s: Option<string>)
  {
    s.Some? && s.value != ""
  }

  /** `value || null` for an optional string: a falsy value is stored as null. */
  function NullIfEmpty(s: Option<string>): (r: Option<string>)
    ensures r.Some? <==> Present(s)
    ensures r.Some? ==> r == s
  {
    if Present(s) then s else None
  }

  // ---------------------------------------------------------------------
  // Whitespace and trimming

  /** The ASCII white-space characters that `String.prototype.trim` strips. */
  predicate IsSpace(c: char)
  {
    c == ' ' || c == '\t' || c == '\n' || c == '\r' || c == '\U{000B}' || c == '\U{000C}'
  }

  function TrimStart(s: string): (r: string)
    ensures |r| <= |s| && r == s[|s| - |r|..]
    ensures forall i :: 0 <= i < |s| - |r| ==> IsSpace(s[i])
    ensures r == [] || !IsSpace(r[0])
  {
    if s != [] && IsSpace(s[0]) then TrimStart(s[1..]) else s
  }

  function TrimEnd(s: string): (r: string)
    ensures |r| <= |s| && r == s[..|r|]
    ensures forall i :: |r| <= i < |s| ==> IsSpace(s[i])
    ensures r == [] || !IsSpace(r[|r| - 1])
  {
    if s != [] && IsSpace(s[|s| - 1]) then TrimEnd(s[..|s| - 1]) else s
  }

  /** `needle` occurs in `hay` starting at index `i`. */
  predicate OccursAt(hay: string, needle: string, i: int)
  {
    0 <= i && i + |needle| <= |hay| && hay[i..i + |needle|] == needle
  }

  /** Every character of `s` is white space (vacuously so for ""). */
  predicate AllSpace(s: string)
  {
    forall i :: 0 <= i < |s| ==> IsSpace(s[i])
  }

  /** `r` sits at index `k` of `s` with nothing but white space before and after it. */
  predicate SpaceFramed(s: string, r: string, k: int)
  {
    && OccursAt(s, r, k)
    && (forall i :: 0 <= i < k ==> IsSpace(s[i]))
    && (forall i :: k + |r| <= i < |s| ==> IsSpace(s[i]))
  }

  /** `s.trim()`: the text between the leading and trailing white space. */
  function Trim(s: string): (r: string)
    ensures r == [] || (!IsSpace(r[0]) && !IsSpace(r[|r| - 1]))
    ensures exists k :: SpaceFramed(s, r, k)
    ensures r == [] <==> AllSpace(s)
  {
    TrimInfix(s);
    TrimEmpty(s);
    TrimEnd(TrimStart(s))
  }

  lemma TrimInfix(s: string)
    ensures SpaceFramed(s, TrimEnd(TrimStart(s)), |s| - |TrimStart(s)|)
  {
    var t := TrimStart(s);
    var r := TrimEnd(t);
    var d := |s| - |t|;
    SliceOfSuffix(s, d, |r|);
    SpaceAfter(s, d, |r|);
  }

  /** White space at the end of the suffix `s[d..]` is white space at the end of `s`. */
  lemma SpaceAfter(s: string, d: nat, n: nat)
    requires d + n <= |s|
    requires forall i :: n <= i < |s[d..]| ==> IsSpace(s[d..][i])
    ensures forall i :: d + n <= i < |s| ==> IsSpace(s[i])
  {
    forall i | d + n <= i < |s| ensures IsSpace(s[i]) {
      assert s[i] == s[d..][i - d];
    }
  }

  lemma SliceOfSuffix(s: string, d: nat, n: nat)
    requires d + n <= |s|
    ensures s[d..][..n] == s[d..d + n]
  {
  }

  lemma TrimEmpty(s: string)
    ensures TrimEnd(TrimStart(s)) == [] <==> AllSpace(s)
  {
    var t := TrimStart(s);
    if t != [] {
      assert t[0] == s[|s| - |t|] && !IsSpace(t[0]);
    }
  }

  // ---------------------------------------------------------------------
  // Case

  /** `toLowerCase` on one character, for the ASCII letters. */
  function LowerChar(c: char): (r: char)
    ensures !('A' <= r <= 'Z')
    ensures ('A' <= c <= 'Z') || r == c
  {
    if 'A' <= c <= 'Z' then (c as int + 32) as char else c
  }

  function Lower(s: string): (r: string)
    ensures |r| == |s|
    ensures forall i :: 0 <= i < |s| ==> r[i] == LowerChar(s[i])
  {
    if s == [] then [] else [LowerChar(s[0])] + Lower(s[1..])
  }

  /** `toUpperCase` on one character, for the ASCII letters. */
  function UpperChar(c: char): (r: char)
    ensures !('a' <= r <= 'z')
    ensures ('a' <= c <= 'z') || r == c
  {
    if 'a' <= c <= 'z' then (c as int - 32) as char else c
  }

  function Upper(s: string): (r: string)
    ensures |r| == |s|
    ensures forall i :: 0 <= i < |s| ==> r[i] == UpperChar(s[i])
  {
    if s == [] then [] else [UpperChar(s[0])] + Upper(s[1..])
  }

  // ---------------------------------------------------------------------
  // Substrings

  /** `hay.includes(needle)`, scanning left to right. */
  function Includes(hay: string, needle: string): (r: bool)
    ensures r <==> exists i :: OccursAt(hay, needle, i)
  {
    if needle <= hay then
      assert OccursAt(hay, needle, 0);
      true
    else if hay == [] then
      false
    else
      IncludesStep(hay, needle);
      Includes(hay[1..], needle)
  }

  /** An occurrence that is not at the start is an occurrence in the tail. */
  lemma IncludesStep(hay: string, needle: string)
    requires hay != [] && !(needle <= hay)
    ensures (exists i :: OccursAt(hay, needle, i)) <==> (exists i :: OccursAt(hay[1..], needle, i))
  {
    forall i | OccursAt(hay[1..], needle, i) ensures OccursAt(hay, needle, i + 1) {
      assert hay[i + 1..i + 1 + |needle|] == hay[1..][i..i + |needle|];
    }
    forall i | OccursAt(hay, needle, i) ensures OccursAt(hay[1..], needle, i - 1) {
      assert hay[1..][i - 1..i - 1 + |needle|] == hay[i..i + |needle|];
    }
  }

  /** `s.endsWith(suffix)`. */
  predicate EndsWith(s: string, suffix: string)
  {
    |suffix| <= |s| && s[|s| - |suffix|..] == suffix
  }

  /** `s.substring(0, n) + "..."` when `s` is longer than `n`, `s` otherwise. */
  function Ellipsize(s: string, n: nat): (r: string)
    ensures |s| <= n ==> r == s
    ensures |s| > n ==> |r| == n + 3 && r[..n] == s[..n] && r[n..] == "..."
  {
    if |s| > n then s[..n] + "..." else s
  }

  // ---------------------------------------------------------------------
  // Splitting

  /** Index of the first `sep` in `s`, or `|s|` when there is none. */
  function FirstIndexOf(s: string, sep: char): (k: nat)
    ensures k <= |s|
    ensures forall i :: 0 <= i < k ==> s[i] != sep
    ensures k < |s| ==> s[k] == sep
  {
    if s == [] || s[0] == sep then 0 else 1 + FirstIndexOf(s[1..], sep)
  }

  /** `s.split(sep)` for a one-character separator: "" splits to [""]. */
  function Split(s: string, sep: char): (parts: seq<string>)
    ensures |parts| >= 1
    ensures forall p :: p in parts ==> sep !in p
    decreases |s|
  {
    var k := FirstIndexOf(s, sep);
    assert sep !in s[..k];
    if k == |s| then [s] else [s[..k]] + Split(s[k + 1..], sep)
  }

  /** Joining the parts of a split with the separator gives the input back. */
  function Join(parts: seq<string>, sep: char): string
  {
    if parts == [] then "" else if |parts| == 1 then parts[0] else parts[0] + [sep] + Join(parts[1..], sep)
  }

  lemma {:induction false} SplitJoin(s: string, sep: char)
    ensures Join(Split(s, sep), sep) == s
    decreases |s|
  {
    var k := FirstIndexOf(s, sep);
    if k < |s| {
      var tail := Split(s[k + 1..], sep);
      SplitJoin(s[k + 1..], sep);
      assert Split(s, sep) == [s[..k]] + tail;
      JoinCons(s[..k], tail, sep);
      assert s == s[..k] + [sep] + s[k + 1..];
    }
  }

  lemma JoinCons(a: string, tail: seq<string>, sep: char)
    requires tail != []
    ensures Join([a] + tail, sep) == a + [sep] + Join(tail, sep)
  {
    var parts := [a] + tail;
    assert parts[0] == a && parts[1..] == tail;
  }

  /** Splitting a join of separator-free parts gives the parts back. */
  lemma {:induction false} JoinSplit(parts: seq<string>, sep: char)
    requires |parts| >= 1
    requires forall p :: p in parts ==> sep !in p
    ensures Split(Join(parts, sep), sep) == parts
  {
    var s := Join(parts, sep);
    var a := parts[0];
    var k := FirstIndexOf(s, sep);
    if |parts| == 1 {
      assert sep !in s by { assert a in parts; }
    } else {
      var rest := parts[1..];
      assert s == a + [sep] + Join(rest, sep);
      assert sep !in a by { assert a in parts; }
      assert s[|a|] == sep;
      assert forall i :: 0 <= i < |a| ==> s[i] == a[i] && a[i] in a;
      assert k == |a|;
      assert s[k + 1..] == Join(rest, sep);
      assert forall p :: p in rest ==> p in parts;
      JoinSplit(rest, sep);
      assert s[..k] == a;
    }
  }

  // ---------------------------------------------------------------------
  // Counting rows

  /** Number of elements of `s` satisfying `p` (a JavaScript `filter(p).length`). */
  function CountIf<T>(s: seq<T>, p: T -> bool): (n: nat)
    ensures n <= |s|
  {
    if s == [] then 0 else (if p(s[0]) then 1 else 0) + CountIf(s[1..], p)
  }

  /** `filter(p)`. */
  function Filter<T(!new)>(s: seq<T>, p: T -> bool): (r: seq<T>)
    ensures |r| == CountIf(s, p)
    ensures forall x :: x in r <==> x in s && p(x)
  {
    if s == [] then [] else (if p(s[0]) then [s[0]] else []) + Filter(s[1..], p)
  }

  // ---------------------------------------------------------------------
  // Request values

  /** A value of a JSON request body, as far as the handlers inspect it. */
  datatype JsValue = Missing | Null | Str(s: string) | Num(n: int) | Bool(b: bool) | List(items: seq<string>)

  /** JavaScript truthiness: undefined, null, "", 0 and false are falsy; arrays are truthy. */
  predicate Truthy(v: JsValue)
  {
    match v
    case Missing => false
    case Null => false
    case Str(s) => s != ""
    case Num(n) => n != 0
    case Bool(b) => b
    case List(_) => true
  }

  // ---------------------------------------------------------------------
  // Arithmetic facts for rounding

  lemma DivBounds(x: int, d: nat)
    requires d > 0
    ensures d * (x / d) <= x < d * (x / d) + d
  {
  }

  /** Dividing both sides' multiples by a positive factor keeps a strict order. */
  lemma MulLessCancel(d: nat, a: int, b: int)
    requires d > 0 && d * a < d * b
    ensures a < b
  {
    if a >= b {
      MulMonotone(d, b, a);
    }
  }

  lemma MulMonotone(d: nat, a: int, b: int)
    requires a <= b
    ensures d * a <= d * b
  {
    assert d * b - d * a == d * (b - a);
  }

  // ---------------------------------------------------------------------
  // Decimal text

  function DigitChar(d: nat): char
    requires d < 10
  {
    "0123456789"[d]
  }

  /** `String(n)` for a natural number: its decimal digits, without leading zeros. */
  function NatToString(n: nat): (r: string)
    ensures |r| >= 1
    ensures forall c :: c in r ==> '0' <= c <= '9'
    ensures (n < 10) <==> |r| == 1
  {
    if n < 10 then [DigitChar(n)] else NatToString(n / 10) + [DigitChar(n % 10)]
  }

  /** Different numbers are written differently. */
  lemma {:induction false} NatToStringInjective(a: nat, b: nat)
    requires NatToString(a) == NatToString(b)
    ensures a == b
  {
    if a >= 10 && b >= 10 {
      var ra, rb := NatToString(a), NatToString(b);
      assert ra[..|ra| - 1] == NatToString(a / 10);
      assert rb[..|rb| - 1] == NatToString(b / 10);
      NatToStringInjective(a / 10, b / 10);
      assert DigitChar(a % 10) == ra[|ra| - 1] == DigitChar(b % 10);
    }
  }
}
