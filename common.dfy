/** Small value-level helpers shared by the server and client models:
    an Option type for the source's `null`/`undefined`, JavaScript's
    falsy-string default (`s || dflt`), ASCII case conversion, decimal
    rendering of naturals, `Array.prototype.find`, a conditional `map`, scaling a `Math.random()` draw to an index,
    and `Array.prototype.slice(0, n)`. */
module Common {

  datatype Option<T> = None | Some(value: T)

  /** `s || dflt` for a string: the empty string is falsy in JavaScript. */
  function OrDefault(s: string, dflt: string): (r: string)
    ensures s != "" ==> r == s
    ensures s == "" ==> r == dflt
  {
    if s == "" then dflt else s
  }

  function UpperChar(c: char): char {
    if 'a' <= c <= 'z' then (c as int - 32) as char else c
  }

  function LowerChar(c: char): char {
    if 'A' <= c <= 'Z' then (c as int + 32) as char else c
  }

  /** `String.prototype.toUpperCase` on the ASCII letters. */
  function ToUpper(s: string): (r: string)
    ensures |r| == |s|
    ensures forall i :: 0 <= i < |s| ==> r[i] == UpperChar(s[i])
  {
    seq(|s|, i requires 0 <= i < |s| => UpperChar(s[i]))
  }

  /** `String.prototype.toLowerCase` on the ASCII letters. */
  function ToLower(s: string): (r: string)
    ensures |r| == |s|
    ensures forall i :: 0 <= i < |s| ==> r[i] == LowerChar(s[i])
  {
    seq(|s|, i requires 0 <= i < |s| => LowerChar(s[i]))
  }

  /** Case-insensitive equality as the source writes it: `a.toLowerCase() === b.toLowerCase()`. */
  predicate SameIgnoringCase(a: string, b: string) {
    ToLower(a) == ToLower(b)
  }

  /** Upper-casing a lower-cased string gives back the upper-cased original,
      so any case variant of a string upper-cases to the same text. */
  lemma UpperOfLower(s: string)
    ensures ToUpper(ToLower(s)) == ToUpper(s)
  {
    forall i | 0 <= i < |s|
      ensures ToUpper(ToLower(s))[i] == ToUpper(s)[i]
    {
      var c := s[i];
      if 'A' <= c <= 'Z' {
        assert LowerChar(c) as int == c as int + 32;
      } else if 'a' <= c <= 'z' {
        assert LowerChar(c) == c;
      }
    }
  }

  function DigitChar(d: nat): char
    requires d < 10
  {
    ('0' as int + d) as char
  }

  /** The number a string of decimal digits spells, most significant digit first. */
  function DecimalValue(s: string): int {
    if s == [] then 0 else DecimalValue(s[..|s| - 1]) * 10 + (s[|s| - 1] as int - '0' as int)
  }

  /** The decimal text of `n`, as a template literal `${n}` renders a
      non-negative integer: digits that spell `n`, with no leading zero. */
  function NatToString(n: nat): (r: string)
    ensures |r| > 0
    ensures forall i :: 0 <= i < |r| ==> '0' <= r[i] <= '9'
    ensures DecimalValue(r) == n
    ensures n > 0 ==> r[0] != '0'
    ensures n == 0 ==> r == "0"
    decreases n
  {
    if n < 10 then [DigitChar(n)]
    else
      var front := NatToString(n / 10);
      var r := front + [DigitChar(n % 10)];
      assert r[..|r| - 1] == front;
      r
  }

  /** Distinct naturals render as distinct strings. */
  lemma NatToStringInjective(a: nat, b: nat)
    ensures NatToString(a) == NatToString(b) <==> a == b
  {
  }

  /** What `Math.random()` can return. */
  predicate IsUnitDraw(u: real) {
    0.0 <= u < 1.0
  }

  /** `Math.floor(u * n)` for a draw `u`: an index below `n`. */
  function ScaledIndex(u: real, n: nat): (k: nat)
    requires IsUnitDraw(u) && n > 0
    ensures k < n
    ensures k as real <= u * n as real < k as real + 1.0
  {
    ScaledBelow(u, n as real);
    (u * n as real).Floor
  }

  /** A draw scales a positive bound to a value within `[0, b)`. */
  lemma ScaledBelow(u: real, b: real)
    requires IsUnitDraw(u) && b > 0.0
    ensures 0.0 <= u * b < b
  {
    assert b - u * b == (1.0 - u) * b;
    assert (1.0 - u) * b > 0.0;
  }

  /** `[x, ...s].slice(0, cap)` for a list already within the cap: `x`
      goes first, the list follows, and the result stays within the cap. */
  lemma PushCapped<T>(x: T, s: seq<T>, cap: int)
    requires 0 < cap && |s| <= cap
    ensures |SlicePrefix([x] + s, cap)| <= cap
    ensures SlicePrefix([x] + s, cap)[0] == x
    ensures SlicePrefix([x] + s, cap)[1..] == s[..|SlicePrefix([x] + s, cap)| - 1]
  {
    var r := SlicePrefix([x] + s, cap);
    assert ([x] + s)[1..] == s;
    assert r == ([x] + s)[..|r|];
  }

  /** `Array.prototype.find(p)`: the first element satisfying `p`, or
      none exactly when no element does. */
  function Find<T(==)>(xs: seq<T>, p: T -> bool): (r: Option<T>)
    ensures r.None? <==> forall i :: 0 <= i < |xs| ==> !p(xs[i])
    ensures r.Some? ==> exists i :: (0 <= i < |xs| && xs[i] == r.value && p(r.value)
                                     && forall j :: 0 <= j < i ==> !p(xs[j]))
    ensures r.Some? ==> r.value in xs
  {
    if xs == [] then None
    else if p(xs[0]) then Some(xs[0])
    else
      assert forall i :: 1 <= i < |xs| ==> xs[i] == xs[1..][i - 1];
      var r := Find(xs[1..], p);
      if r.Some? then
        var i :| 0 <= i < |xs[1..]| && xs[1..][i] == r.value && p(r.value)
                 && forall j :: 0 <= j < i ==> !p(xs[1..][j]);
        assert xs[i + 1] == r.value;
        r
      else r
  }

  /** `xs.map(x => pick(x) ? f(x) : x)`: the picked elements are
      replaced in place and every other element is kept. */
  function MapWhere<T>(xs: seq<T>, pick: T -> bool, f: T -> T): (r: seq<T>)
    ensures |r| == |xs|
    ensures forall i :: 0 <= i < |xs| && !pick(xs[i]) ==> r[i] == xs[i]
    ensures forall i :: 0 <= i < |xs| && pick(xs[i]) ==> r[i] == f(xs[i])
  {
    seq(|xs|, i requires 0 <= i < |xs| => if pick(xs[i]) then f(xs[i]) else xs[i])
  }

  /** `s.slice(0, n)` for an integer `n`: a negative end counts from the end of the array. */
  function SlicePrefix<T>(s: seq<T>, n: int): (r: seq<T>)
    ensures n >= 0 ==> |r| == if n < |s| then n else |s|
    ensures n < 0 ==> |r| == if |s| + n > 0 then |s| + n else 0
    ensures r == s[..|r|]
  {
    if n >= 0 then
      (if n < |s| then s[..n] else s)
    else
      (if |s| + n > 0 then s[..|s| + n] else [])
  }
}
