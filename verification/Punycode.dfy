/** Punycode as RFC 3492 defines it: the decoding procedure of section 6.2 for arbitrary text. The
    integers are unbounded; the RFC leaves their size to the implementation. */
module Punycode {
  import opened Optional

  const BASE := 36
  const TMIN := 1
  const TMAX := 26
  const SKEW := 38
  const DAMP := 700
  const INITIAL_BIAS := 72
  const INITIAL_N := 128
  const MAX_CODE_POINT := 0x10FFFF

  /** `a / b` of unsigned integers. */
  function Quotient(a: nat, b: nat): (q: nat)
    requires b > 0
    ensures q <= a && q * b <= a < q * b + b
  {
    QuotientBounds(a, b);
    a / b
  }

  lemma QuotientBounds(a: int, b: int)
    requires b > 0 && a >= 0
    ensures 0 <= a / b <= a && a / b * b <= a < a / b * b + b
  {
    var q := a / b;
    assert a == q * b + a % b;
    if q < 0 { Scaled(-q, b); }
    if q > 0 { Scaled(b, q); }
  }

  lemma Scaled(k: int, x: int)
    requires k >= 1 && x >= 0
    ensures k * x >= x && -k * x <= -x
  {
  }

  function Product(a: nat, b: nat): nat {
    a * b
  }

  /** The threshold of a digit (section 3.3 and 6.2). */
  function Threshold(k: nat, bias: nat): (t: nat)
    ensures TMIN <= t <= TMAX
  {
    if k <= bias then TMIN else if k >= bias + TMAX then TMAX else k - bias
  }

  /** Section 6.1. */
  function Adapt(delta: nat, points: nat, first: bool): nat
    requires points > 0
  {
    var d := if first then delta / DAMP else delta / 2;
    AdaptLoop(d + Quotient(d, points), 0)
  }

  function AdaptLoop(delta: nat, k: nat): nat {
    if delta > (BASE - TMIN) * TMAX / 2 then AdaptLoop(delta / (BASE - TMIN), k + BASE)
    else k + (BASE - TMIN + 1) * delta / (delta + SKEW)
  }

  /** Section 5: letters in either case are 0 to 25, digits 26 to 35. */
  function DigitValue(c: char): Option<nat> {
    if 'a' <= c <= 'z' then Some((c - 'a') as nat)
    else if 'A' <= c <= 'Z' then Some((c - 'A') as nat)
    else if '0' <= c <= '9' then Some((c - '0') as nat + 26)
    else None
  }

  /** One generalized variable-length integer, added to `i`; the rest of the text follows. */
  function DecodeInteger(text: string, k: nat, bias: nat, i: nat, w: nat): (r: Option<(nat, string)>)
    ensures r.Some? ==> |r.value.1| < |text|
  {
    if text == [] then None
    else
      match DigitValue(text[0])
      case None => None
      case Some(digit) =>
        var t := Threshold(k, bias);
        if digit < t then Some((i + Product(digit, w), text[1..]))
        else DecodeInteger(text[1..], k + BASE, bias, i + Product(digit, w), Product(w, BASE - t))
  }

  datatype Machine = Machine(n: nat, i: nat, bias: nat, output: seq<nat>)

  /** What the decoder does with the next integer: advance the state, adapt, insert. */
  function Insertion(s: Machine, i: nat): (r: Machine)
    requires s.i <= i
    ensures |r.output| == |s.output| + 1
  {
    var len := |s.output| + 1;
    var at := i % len;
    var n := s.n + i / len;
    Machine(n, at + 1, Adapt(i - s.i, len, s.i == 0), s.output[..at] + [n] + s.output[at..])
  }

  /** The main loop of section 6.2. */
  function DecodeLoop(text: string, s: Machine): Option<seq<nat>>
    decreases |text|
  {
    if text == [] then Some(s.output)
    else
      match DecodeInteger(text, BASE, s.bias, s.i, 1)
      case None => None
      case Some((i, rest)) =>
        if i < s.i then None
        else
          var r := Insertion(s, i);
          if r.n < INITIAL_N then None else DecodeLoop(rest, r)
  }

  /** The number of characters before the last delimiter, or 0 if there is none. */
  function BasicLength(text: string): (b: nat)
    ensures b < |text| || (b == 0 && text == [])
    ensures b > 0 ==> text[b] == '-' && '-' !in text[b + 1..]
  {
    if text == [] then 0
    else if text[|text| - 1] == '-' then |text| - 1
    else
      var b := BasicLength(text[..|text| - 1]);
      assert b > 0 ==> text[b + 1..] == text[..|text| - 1][b + 1..] + [text[|text| - 1]];
      b
  }

  function CodePoints(s: string): (r: seq<nat>)
    ensures |r| == |s| && forall i :: 0 <= i < |s| ==> r[i] == s[i] as nat
  {
    seq(|s|, i requires 0 <= i < |s| => s[i] as nat)
  }

  predicate IsBasic(c: nat) { c < INITIAL_N }

  function Decode(text: string): Option<seq<nat>> {
    var b := BasicLength(text);
    var basic := CodePoints(text[..b]);
    if exists i :: 0 <= i < b && !IsBasic(basic[i]) then None
    else DecodeLoop(if b > 0 then text[b + 1..] else text, Machine(INITIAL_N, 0, INITIAL_BIAS, basic))
  }
}
