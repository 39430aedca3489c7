/** Why the encoder's text decodes to the label: variable-length integers round trip, and the decoder's
    state is a count of the positions the encoder has passed. */
module PunycodeProof {
  import opened Optional
  import opened Punycode

  // ---------------------------------------------------------------- variable-length integers

  function Alphabet(d: nat): (c: char)
    requires d < BASE
    ensures DigitValue(c) == Some(d) && c != '-'
  {
    if d < 26 then 'a' + d as char else '0' + (d - 26) as char
  }

  /** The digit written for `q`, and what is left of `q`. */
  function Digit(q: nat, t: nat): (d: nat)
    requires TMIN <= t <= TMAX && t <= q
    ensures t <= d < BASE
  {
    t + (q - t) % (BASE - t)
  }

  function Rest(q: nat, t: nat): (r: nat)
    requires TMIN <= t <= TMAX && t <= q
    ensures r <= q / 10 && r < q
  {
    Shrinks(q, t);
    Quotient(q - t, BASE - t)
  }

  lemma Shrinks(q: nat, t: nat)
    requires TMIN <= t <= TMAX && t <= q
    ensures Quotient(q - t, BASE - t) <= q / 10 && Quotient(q - t, BASE - t) < q
  {
    var x := Quotient(q - t, BASE - t);
    assert x * (BASE - t) >= x * 10 by { Scale(x, BASE - t, 10); }
  }

  lemma Scale(x: nat, a: nat, b: nat)
    requires a >= b
    ensures x * a >= x * b
  {
  }

  function EncodeInteger(q: nat, k: nat, bias: nat): (text: string)
    ensures text != [] && '-' !in text
  {
    var t := Threshold(k, bias);
    if q < t then [Alphabet(q)]
    else [Alphabet(Digit(q, t))] + EncodeInteger(Rest(q, t), k + BASE, bias)
  }

  lemma DivisionStep(q: nat, t: nat, w: nat)
    requires TMIN <= t <= TMAX && t <= q
    ensures Product(Digit(q, t), w) + Product(Rest(q, t), Product(w, BASE - t)) == Product(q, w)
  {
    var y, x := BASE - t, q - t;
    var z, m := x / y, x % y;
    assert x == z * y + m;
    assert (t + m) * w + z * (w * y) == (t + m + z * y) * w by { Regroup(t + m, z, w, y); }
  }

  lemma Regroup(a: int, z: int, w: int, y: int)
    ensures a * w + z * (w * y) == (a + z * y) * w
  {
  }

  /** Section 3.3: the decoder reads back the integer and stops where it ends. */
  lemma {:induction false} IntegerRoundTrip(q: nat, k: nat, bias: nat, i: nat, w: nat, rest: string)
    ensures DecodeInteger(EncodeInteger(q, k, bias) + rest, k, bias, i, w) == Some((i + Product(q, w), rest))
    decreases q
  {
    hide Product, Digit, Rest, Threshold, Alphabet, DigitValue;
    var t := Threshold(k, bias);
    var text := EncodeInteger(q, k, bias) + rest;
    if q < t {
      assert text[1..] == rest;
    } else {
      var d := Digit(q, t);
      var more := Rest(q, t);
      assert text[0] == Alphabet(d) && text[1..] == EncodeInteger(more, k + BASE, bias) + rest;
      DecodeMore(text, d, k, bias, i, w);
      IntegerRoundTrip(more, k + BASE, bias, i + Product(d, w), Product(w, BASE - t), rest);
      DivisionStep(q, t, w);
    }
  }

  lemma DecodeMore(text: string, d: nat, k: nat, bias: nat, i: nat, w: nat)
    requires text != [] && DigitValue(text[0]) == Some(d) && d >= Threshold(k, bias)
    ensures DecodeInteger(text, k, bias, i, w) ==
            DecodeInteger(text[1..], k + BASE, bias, i + Product(d, w), Product(w, BASE - Threshold(k, bias)))
  {
    hide Product;
  }

  // ---------------------------------------------------------------- what has been handled

  predicate Passed(c: nat, at: nat, n: nat, j: nat) {
    c < n || (c == n && at < j)
  }

  /** The code points below `n`, and those equal to `n` before position `j`. */
  function Handled(name: seq<nat>, n: nat, j: nat): (r: seq<nat>)
    ensures |r| <= |name|
  {
    if name == [] then []
    else
      var l := |name| - 1;
      Handled(name[..l], n, j) + if Passed(name[l], l, n, j) then [name[l]] else []
  }

  /** How many of them stand before position `j`. */
  function Position(name: seq<nat>, n: nat, j: nat): (r: nat)
    requires j <= |name|
  {
    |Handled(name[..j], n, j)|
  }

  lemma {:induction false} HandledBeyond(name: seq<nat>, n: nat, j: nat, k: nat)
    requires |name| <= j && |name| <= k
    ensures Handled(name, n, j) == Handled(name, n, k)
  {
    if name != [] { HandledBeyond(name[..|name| - 1], n, j, k); }
  }

  lemma {:induction false} HandledSkip(name: seq<nat>, n: nat, j: nat)
    requires j < |name| && name[j] != n
    ensures Handled(name, n, j + 1) == Handled(name, n, j)
  {
    var l := |name| - 1;
    if j < l { HandledSkip(name[..l], n, j); } else { HandledBeyond(name[..l], n, j, j + 1); }
  }

  /** Handling one more code point inserts it at its position. */
  lemma {:induction false} HandledInsert(name: seq<nat>, n: nat, j: nat)
    requires j < |name| && name[j] == n
    ensures var h, p := Handled(name, n, j), Position(name, n, j);
            p <= |h| && Handled(name, n, j + 1) == h[..p] + [n] + h[p..]
  {
    var l := |name| - 1;
    var pre := name[..l];
    if j < l {
      HandledInsert(pre, n, j);
      assert pre[..j] == name[..j];
    } else {
      HandledBeyond(pre, n, j, j + 1);
      assert pre == name[..j];
    }
  }

  lemma {:induction false} HandledNext(name: seq<nat>, n: nat, j: nat)
    requires |name| <= j
    ensures Handled(name, n, j) == Handled(name, n + 1, 0)
  {
    if name != [] { HandledNext(name[..|name| - 1], n, j); }
  }

  lemma {:induction false} HandledGap(name: seq<nat>, n: nat, m: nat)
    requires n <= m && forall i :: 0 <= i < |name| ==> name[i] < n || name[i] >= m
    ensures Handled(name, n, 0) == Handled(name, m, 0)
  {
    if name != [] { HandledGap(name[..|name| - 1], n, m); }
  }

  lemma {:induction false} HandledAll(name: seq<nat>, n: nat, j: nat)
    requires |Handled(name, n, j)| == |name|
    ensures Handled(name, n, j) == name
  {
    if name != [] {
      var l := |name| - 1;
      HandledAll(name[..l], n, j);
      assert name == name[..l] + [name[l]];
    }
  }

  /** Something is left, and it is at `n` or above. */
  lemma {:induction false} HandledSome(name: seq<nat>, n: nat)
    ensures |Handled(name, n, 0)| < |name| <==> exists i :: 0 <= i < |name| && name[i] >= n
  {
    if name != [] {
      var l := |name| - 1;
      HandledSome(name[..l], n);
      if name[l] < n && exists i :: 0 <= i < |name| && name[i] >= n {
        var i :| 0 <= i < |name| && name[i] >= n;
        assert name[..l][i] >= n;
      }
    }
  }

  /** Positions grow by one past each code point handled before the scan or in it. */
  lemma {:induction false} PositionStep(name: seq<nat>, n: nat, j: nat)
    requires j < |name|
    ensures Position(name, n, j + 1) == Position(name, n, j) + if name[j] <= n then 1 else 0
  {
    var next := name[..j + 1];
    assert next[..j] == name[..j];
    HandledBeyond(name[..j], n, j, j + 1);
  }

  lemma PositionEnds(name: seq<nat>, n: nat)
    ensures Position(name, n, 0) == 0 && Position(name, n, |name|) == |Handled(name, n, |name|)|
  {
    assert name[..|name|] == name;
  }

  // ---------------------------------------------------------------- the decoder's state

  /** The decoder, `delta` steps on, is about to insert `n` at the encoder's position: the states
      (n, i) of a decoder holding `h` code points are counted by n * (h + 1) + i. */
  ghost predicate InStep(s: Machine, delta: int, name: seq<nat>, n: nat, j: nat) {
    && j <= |name|
    && s.output == Handled(name, n, j)
    && s.i <= |s.output| && INITIAL_N <= s.n <= n
    && s.n * (|s.output| + 1) + s.i + delta == n * (|s.output| + 1) + Position(name, n, j)
  }

  lemma InStepStart(name: seq<nat>, bias: nat)
    ensures InStep(Machine(INITIAL_N, 0, bias, Handled(name, INITIAL_N, 0)), 0, name, INITIAL_N, 0)
  {
  }

  lemma InStepScan(s: Machine, delta: int, name: seq<nat>, n: nat, j: nat)
    requires InStep(s, delta, name, n, j) && j < |name| && name[j] != n
    ensures InStep(s, delta + if name[j] < n then 1 else 0, name, n, j + 1)
  {
    HandledSkip(name, n, j);
    PositionStep(name, n, j);
  }

  lemma InStepGap(s: Machine, delta: int, name: seq<nat>, n: nat, m: nat)
    requires InStep(s, delta, name, n, 0)
    requires n <= m && forall i :: 0 <= i < |name| ==> name[i] < n || name[i] >= m
    ensures InStep(s, delta + (m - n) * (|s.output| + 1), name, m, 0)
  {
    HandledGap(name, n, m);
    PositionEnds(name, n);
    PositionEnds(name, m);
    var y := |s.output| + 1;
    assert n * y + (m - n) * y == m * y by { Distribute(n, m - n, y); }
  }

  lemma InStepEnd(s: Machine, delta: int, name: seq<nat>, n: nat)
    requires InStep(s, delta, name, n, |name|)
    ensures InStep(s, delta + 1, name, n + 1, 0)
  {
    HandledNext(name, n, |name|);
    PositionEnds(name, n);
    PositionEnds(name, n + 1);
    var y := |s.output| + 1;
    Distribute(n, 1, y);
  }

  lemma Distribute(a: int, b: int, y: int)
    ensures (a + b) * y == a * y + b * y
  {
  }

  lemma QuotientIs(i: int, x: int, at: int, len: int)
    requires len > 0 && 0 <= at < len && i == x * len + at
    ensures i / len == x && i % len == at
  {
    var q, r := i / len, i % len;
    assert i == q * len + r;
    assert (x - q) * len == r - at by { Distribute(x, -q, len); }
    if x > q {
      MulAtLeast(x - q, len);
    } else if x < q {
      MulAtLeast(q - x, len);
      Distribute(x - q, q - x, len);
    }
  }

  lemma MulAtLeast(k: int, len: int)
    requires k >= 1 && len > 0
    ensures k * len >= len
  {
  }

  /** The integer `delta` makes the decoder insert the code point the encoder stands at. */
  lemma InStepInsert(s: Machine, delta: nat, name: seq<nat>, n: nat, j: nat)
    requires InStep(s, delta, name, n, j) && j < |name| && name[j] == n
    ensures var r := Insertion(s, s.i + delta);
            r.n == n && InStep(r, 0, name, n, j + 1) && r.bias == Adapt(delta, |s.output| + 1, s.i == 0)
  {
    var len := |s.output| + 1;
    var p := Position(name, n, j);
    HandledInsert(name, n, j);
    PositionStep(name, n, j);
    assert s.i + delta == (n - s.n) * len + p by { Distribute(n, 0 - s.n, len); }
    QuotientIs(s.i + delta, n - s.n, p, len);
  }

  /** `delta` written as an integer, then read. */
  lemma DecodeStep(s: Machine, delta: nat, name: seq<nat>, n: nat, j: nat, rest: string)
    requires InStep(s, delta, name, n, j) && j < |name| && name[j] == n
    ensures DecodeLoop(EncodeInteger(delta, BASE, s.bias) + rest, s) == DecodeLoop(rest, Insertion(s, s.i + delta))
  {
    assert BASE == 36;
    hide *;
    IntegerRoundTrip(delta, BASE, s.bias, s.i, 1, rest);
    InStepInsert(s, delta, name, n, j);
    InStepBase(s, delta, name, n, j);
    OneInteger(EncodeInteger(delta, BASE, s.bias) + rest, s, s.i + delta, rest);
  }

  lemma InStepBase(s: Machine, delta: nat, name: seq<nat>, n: nat, j: nat)
    requires InStep(s, delta, name, n, j)
    ensures n >= INITIAL_N && Product(delta, 1) == delta
  {
  }

  lemma OneInteger(text: string, s: Machine, i: nat, rest: string)
    requires text != [] && DecodeInteger(text, BASE, s.bias, s.i, 1) == Some((i, rest)) && s.i <= i && Insertion(s, i).n >= INITIAL_N
    ensures |rest| < |text| && DecodeLoop(text, s) == DecodeLoop(rest, Insertion(s, i))
  {
    hide Insertion, DecodeInteger;
  }

  /** The text so far takes the decoder from its first state to `s`, whatever follows. */
  ghost predicate LeadsTo(text: string, basic: seq<nat>, s: Machine) {
    forall rest {:trigger DecodeLoop(rest, s)} :: DecodeLoop(text + rest, Machine(INITIAL_N, 0, INITIAL_BIAS, basic)) == DecodeLoop(rest, s)
  }

  lemma LeadsFurther(text: string, basic: seq<nat>, s: Machine, delta: nat, name: seq<nat>, n: nat, j: nat)
    requires LeadsTo(text, basic, s) && InStep(s, delta, name, n, j) && j < |name| && name[j] == n
    ensures LeadsTo(text + EncodeInteger(delta, BASE, s.bias), basic, Insertion(s, s.i + delta))
  {
    var r := Insertion(s, s.i + delta);
    var start := Machine(INITIAL_N, 0, INITIAL_BIAS, basic);
    var e := EncodeInteger(delta, BASE, s.bias);
    forall rest ensures DecodeLoop(text + e + rest, start) == DecodeLoop(rest, r) {
      DecodeStep(s, delta, name, n, j, rest);
      assert text + e + rest == text + (e + rest);
    }
  }

  // ---------------------------------------------------------------- the delimiter

  lemma {:induction false} DelimiterFound(basic: string, tail: string)
    requires '-' !in tail
    ensures BasicLength(basic + ['-'] + tail) == |basic|
    ensures BasicLength(tail) == 0
  {
    var text := basic + ['-'] + tail;
    if tail == [] {
      assert text[|text| - 1] == '-';
    } else {
      var l := |tail| - 1;
      assert tail[l] in tail;
      DelimiterFound(basic, tail[..l]);
      assert text[..|text| - 1] == basic + ['-'] + tail[..l];
      assert text[|text| - 1] == tail[l];
    }
  }

  /** Section 6.3's layout: basic code points, a delimiter if there are any, then the integers. */
  lemma DecodeLayout(basic: string, tail: string, name: seq<nat>, s: Machine)
    requires '-' !in tail && (forall i :: 0 <= i < |basic| ==> IsBasic(basic[i] as nat))
    requires LeadsTo(tail, CodePoints(basic), s) && s.output == name
    ensures Decode((if basic == [] then [] else basic + ['-']) + tail) == Some(name)
  {
    DelimiterFound(basic, tail);
    assert tail + [] == tail;
    assert DecodeLoop([], s) == Some(name);
    var text := (if basic == [] then [] else basic + ['-']) + tail;
    if basic == [] {
      assert text == tail && text[..0] == basic;
    } else {
      assert text == basic + ['-'] + tail;
      assert text[..|basic|] == basic && text[|basic| + 1..] == tail;
    }
  }

  // ---------------------------------------------------------------- overflow

  const MAX_UNSIGNED := 0xFFFF_FFFF

  /** The number of decoder states from (pn, pi) to the encoder's position. */
  ghost function Gap(name: seq<nat>, pn: nat, pi: nat, n: nat, j: nat): int
    requires j <= |name|
  {
    n * (|Handled(name, n, j)| + 1) + Position(name, n, j) - pn * (|Handled(name, n, j)| + 1) - pi
  }

  /** Whether some integer of the label's encoding, from (n, j) on, does not fit 32 bits: the last
      insertion was made in decoder state (pn, pi). */
  ghost predicate Overflows(name: seq<nat>, pn: nat, pi: nat, n: nat, j: nat)
    requires j <= |name|
    decreases MAX_CODE_POINT + 1 - n, |name| - j
  {
    if n > MAX_CODE_POINT then false
    else if j == |name| then Overflows(name, pn, pi, n + 1, 0)
    else if name[j] == n then
      Gap(name, pn, pi, n, j) > MAX_UNSIGNED || Overflows(name, n, Position(name, n, j) + 1, n, j + 1)
    else Overflows(name, pn, pi, n, j + 1)
  }

  ghost predicate TooBig(name: seq<nat>) {
    Overflows(name, INITIAL_N, 0, INITIAL_N, 0)
  }

  ghost predicate ValidName(name: seq<nat>) {
    forall i :: 0 <= i < |name| ==> name[i] <= MAX_CODE_POINT
  }

  /** While something is left, the next integer is at least the distance already covered. */
  lemma {:induction false} GapGrows(name: seq<nat>, pn: nat, pi: nat, n: nat, j: nat)
    requires ValidName(name) && j <= |name| && |Handled(name, n, j)| < |name| && pn <= n
    requires n <= MAX_CODE_POINT || j == 0
    requires Gap(name, pn, pi, n, j) > MAX_UNSIGNED
    ensures Overflows(name, pn, pi, n, j)
    decreases MAX_CODE_POINT + 1 - n, |name| - j
  {
    hide *;
    OverflowsUnfold(name, pn, pi, n, j);
    if n > MAX_CODE_POINT {
      AllHandled(name, n);
    } else if j == |name| {
      GapNext(name, pn, pi, n);
      GapGrows(name, pn, pi, n + 1, 0);
    } else if name[j] != n {
      GapScan(name, pn, pi, n, j);
      GapGrows(name, pn, pi, n, j + 1);
    }
  }

  lemma OverflowsUnfold(name: seq<nat>, pn: nat, pi: nat, n: nat, j: nat)
    requires j <= |name|
    ensures n <= MAX_CODE_POINT && j == |name| ==> Overflows(name, pn, pi, n, j) == Overflows(name, pn, pi, n + 1, 0)
    ensures n <= MAX_CODE_POINT && j < |name| && name[j] != n ==> Overflows(name, pn, pi, n, j) == Overflows(name, pn, pi, n, j + 1)
    ensures n <= MAX_CODE_POINT && j < |name| && name[j] == n && Gap(name, pn, pi, n, j) > MAX_UNSIGNED ==> Overflows(name, pn, pi, n, j)
  {
    hide Gap, Handled, Position;
  }

  lemma AllHandled(name: seq<nat>, n: nat)
    requires ValidName(name) && n > MAX_CODE_POINT
    ensures |Handled(name, n, 0)| >= |name|
  {
    HandledSome(name, n);
  }

  lemma GapNext(name: seq<nat>, pn: nat, pi: nat, n: nat)
    requires pn <= n
    ensures Handled(name, n + 1, 0) == Handled(name, n, |name|) && Gap(name, pn, pi, n + 1, 0) >= Gap(name, pn, pi, n, |name|)
  {
    HandledNext(name, n, |name|);
    PositionEnds(name, n);
    PositionEnds(name, n + 1);
    hide Handled, Position;
    Distribute(n, 1, |Handled(name, n, |name|)| + 1);
  }

  lemma GapScan(name: seq<nat>, pn: nat, pi: nat, n: nat, j: nat)
    requires j < |name| && name[j] != n
    ensures Handled(name, n, j + 1) == Handled(name, n, j) && Gap(name, pn, pi, n, j + 1) >= Gap(name, pn, pi, n, j)
  {
    HandledSkip(name, n, j);
    PositionStep(name, n, j);
    hide Handled, Position;
  }

  lemma {:induction false} OverflowsScan(name: seq<nat>, pn: nat, pi: nat, n: nat, j: nat)
    requires n <= MAX_CODE_POINT && j <= |name| && forall i :: j <= i < |name| ==> name[i] != n
    ensures Overflows(name, pn, pi, n, j) == Overflows(name, pn, pi, n + 1, 0)
    decreases |name| - j
  {
    if j < |name| { OverflowsScan(name, pn, pi, n, j + 1); }
  }

  lemma {:induction false} OverflowsGap(name: seq<nat>, pn: nat, pi: nat, n: nat, m: nat)
    requires n <= m <= MAX_CODE_POINT && forall i :: 0 <= i < |name| ==> name[i] < n || name[i] >= m
    ensures Overflows(name, pn, pi, n, 0) == Overflows(name, pn, pi, m, 0)
    decreases m - n
  {
    if n < m {
      OverflowsScan(name, pn, pi, n, 0);
      OverflowsGap(name, pn, pi, n + 1, m);
    }
  }

  /** No label of up to 3855 code points overflows. */
  lemma {:induction false} ShortNamesFit(name: seq<nat>, pn: nat, pi: nat, n: nat, j: nat)
    requires j <= |name| <= 3855 && INITIAL_N <= pn <= n
    ensures !Overflows(name, pn, pi, n, j)
    decreases MAX_CODE_POINT + 1 - n, |name| - j
  {
    if n > MAX_CODE_POINT {
    } else if j == |name| {
      ShortNamesFit(name, pn, pi, n + 1, 0);
    } else if name[j] != n {
      ShortNamesFit(name, pn, pi, n, j + 1);
    } else {
      var len := |Handled(name, n, j)| + 1;
      HandledInsert(name, n, j);
      assert n * len - pn * len == (n - pn) * len by { Distribute(n, 0 - pn, len); }
      assert (n - pn) * len <= (MAX_CODE_POINT - INITIAL_N) * 3855 by { Bounded(n - pn, MAX_CODE_POINT - INITIAL_N, len, 3855); }
      ShortNamesFit(name, n, Position(name, n, j) + 1, n, j + 1);
    }
  }

  lemma Bounded(a: nat, b: nat, x: nat, y: nat)
    requires a <= b && x <= y
    ensures a * x <= b * y
  {
    Scale(x, b, a);
    Scale(b, y, x);
  }

  /** The bound is tight: 3855 basic code points and the last of Unicode overflow. */
  lemma OverflowExists()
    ensures TooBig(seq(3855, _ => 0) + [MAX_CODE_POINT])
  {
    var name := seq(3855, _ => 0) + [MAX_CODE_POINT];
    HandledSome(name, INITIAL_N);
    assert name[3855] >= INITIAL_N;
    var h := |Handled(name, INITIAL_N, 0)|;
    OverflowsGap(name, INITIAL_N, 0, INITIAL_N, MAX_CODE_POINT);
    HandledGap(name, INITIAL_N, MAX_CODE_POINT);
    AllBasic(name[..3855]);
    assert name == name[..3855] + [MAX_CODE_POINT];
    HandledSnoc(name[..3855], MAX_CODE_POINT);
    PositionEnds(name, MAX_CODE_POINT);
    GapGrows(name, INITIAL_N, 0, MAX_CODE_POINT, 0);
  }

  lemma HandledSnoc(s: seq<nat>, c: nat)
    ensures Handled(s + [c], c, 0) == Handled(s, c, 0)
  {
    assert (s + [c])[..|s|] == s;
  }

  lemma {:induction false} AllBasic(s: seq<nat>)
    requires forall i :: 0 <= i < |s| ==> s[i] == 0
    ensures Handled(s, MAX_CODE_POINT, 0) == s
  {
    if s != [] {
      AllBasic(s[..|s| - 1]);
      assert s == s[..|s| - 1] + [0];
    }
  }

  /** A code point waiting at or after `j` has not been handled. */
  lemma {:induction false} HandledLeft(name: seq<nat>, n: nat, j: nat, k: nat)
    requires j <= k < |name| && name[k] == n
    ensures |Handled(name, n, j)| < |name|
    decreases k - j
  {
    if name[j] == n {
      HandledInsert(name, n, j);
    } else {
      HandledSkip(name, n, j);
      HandledLeft(name, n, j + 1, k);
    }
  }

  lemma {:induction false} NothingLeft(name: seq<nat>, pn: nat, pi: nat, n: nat, j: nat)
    requires j <= |name| && forall i :: 0 <= i < |name| ==> name[i] < n
    ensures !Overflows(name, pn, pi, n, j)
    decreases MAX_CODE_POINT + 1 - n, |name| - j
  {
    if n > MAX_CODE_POINT {
    } else if j == |name| {
      NothingLeft(name, pn, pi, n + 1, 0);
    } else {
      NothingLeft(name, pn, pi, n, j + 1);
    }
  }
}
