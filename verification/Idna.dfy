/** libuv's conversion of one label, already decoded into code points, to ASCII. All quantities stay
    within 32 bits except where the code checks for overflow; the bounded types prove it. */
module Idna {
  import opened Optional
  import opened Punycode
  import opened PunycodeProof

  type Unsigned = x: int | 0 <= x <= MAX_UNSIGNED

  /** What the UTF-8 decoder returns for malformed input. */
  const INVALID: Unsigned := MAX_UNSIGNED

  datatype Status = Returned(value: int) | EINVAL | E2BIG

  /** The moving output pointer: characters that do not fit are dropped. `text` is everything sent. */
  class Output {
    const buffer: array<char>
    var at: nat
    ghost var text: string

    ghost predicate Valid()
      reads this, buffer
    {
      at == (if |text| <= buffer.Length then |text| else buffer.Length) && buffer[..at] == text[..at]
    }

    constructor (buffer: array<char>)
      ensures Valid() && text == [] && this.buffer == buffer
    {
      this.buffer := buffer;
      at, text := 0, [];
    }

    method Put(c: char)
      requires Valid()
      modifies this, buffer
      ensures Valid() && text == old(text) + [c]
    {
      text := text + [c];
      if at < buffer.Length {
        buffer[at] := c;
        at := at + 1;
      }
    }
  }

  // ---------------------------------------------------------------- the first two scans

  ghost predicate DecodedName(name: seq<nat>) {
    |name| < MAX_UNSIGNED && forall i :: 0 <= i < |name| ==> name[i] <= MAX_CODE_POINT || name[i] == INVALID
  }

  method CountPoints(name: seq<nat>) returns (ok: bool, h: Unsigned, todo: Unsigned)
    requires DecodedName(name)
    ensures ok <==> ValidName(name)
    ensures ok ==> h == |Handled(name, INITIAL_N, 0)| && h + todo == |name|
  {
    h, todo, ok := 0, 0, true;
    var i := 0;
    while i < |name|
      invariant 0 <= i <= |name| && ValidName(name[..i])
      invariant h == |Handled(name[..i], INITIAL_N, 0)| && h + todo == i
    {
      assert name[..i + 1][..i] == name[..i];
      if name[i] < 128 {
        h := h + 1;
      } else if name[i] == INVALID {
        return false, h, todo;
      } else {
        todo := todo + 1;
      }
      i := i + 1;
    }
    assert name[..|name|] == name;
  }

  /** The basic code points of a label, as characters. */
  function Basics(name: seq<nat>): string {
    if name == [] then []
    else
      var l := |name| - 1;
      Basics(name[..l]) + if name[l] < INITIAL_N then [name[l] as char] else []
  }

  function Delimited(basics: string): string {
    if basics == [] then [] else basics + ['-']
  }

  lemma {:induction false} BasicsHandled(name: seq<nat>)
    ensures CodePoints(Basics(name)) == Handled(name, INITIAL_N, 0)
    ensures forall i :: 0 <= i < |Basics(name)| ==> IsBasic(Basics(name)[i] as nat)
  {
    if name != [] { BasicsHandled(name[..|name| - 1]); }
  }

  lemma {:induction false} BasicsBounded(name: seq<nat>, i: nat)
    requires i <= |name|
    ensures |Basics(name[..i])| <= |Basics(name)|
    ensures |Basics(name[..i])| == |Basics(name)| ==> Basics(name[..i]) == Basics(name)
  {
    if i == |name| {
      assert name[..i] == name;
    } else {
      var l := |name| - 1;
      BasicsBounded(name[..l], i);
      assert name[..l][..i] == name[..i];
    }
  }

  lemma BasicsStep(name: seq<nat>, i: nat)
    requires i < |name|
    ensures Basics(name[..i + 1]) == Basics(name[..i]) + if name[i] < INITIAL_N then [name[i] as char] else []
    ensures |Basics(name[..i + 1])| <= |Basics(name)|
    ensures |Basics(name[..i + 1])| == |Basics(name)| ==> Basics(name[..i + 1]) == Basics(name)
  {
    assert name[..i + 1][..i] == name[..i];
    BasicsBounded(name, i + 1);
  }

  method PutBasics(name: seq<nat>, h: Unsigned, out: Output)
    requires h == |Basics(name)| && out.Valid()
    modifies out, out.buffer
    ensures out.Valid() && out.text == old(out.text) + Basics(name)
  {
    var x: Unsigned := 0;
    var i := 0;
    assert INITIAL_N == 128 && Basics(name[..0]) == [];
    hide *;
    while i < |name|
      invariant 0 <= i <= |name| && out.Valid() && out.text == old(out.text) + Basics(name[..i])
      invariant x == |Basics(name[..i])|
    {
      var c := name[i];
      BasicsStep(name, i);
      if c <= 127 {
        out.Put(c as char);
        x := x + 1;
        if x == h {
          return;
        }
      }
      i := i + 1;
    }
    assert name[..|name|] == name;
  }

  // ---------------------------------------------------------------- one integer

  /** The threshold as the code computes it. */
  method ClampThreshold(k: Unsigned, bias: Unsigned) returns (t: Unsigned)
    ensures t == Threshold(k, bias)
  {
    t := 1;
    if k > bias {
      t := k - bias;
    }
    if t > 26 {
      t := 26;
    }
  }

  /** One turn of the digit loop: the digit written and the rest. */
  method NextDigit(q: Unsigned, t: Unsigned) returns (digit: Unsigned, rest: Unsigned)
    requires TMIN <= t <= TMAX && t <= q
    ensures digit == Digit(q, t) && rest == Rest(q, t)
  {
    var x: Unsigned := q - t;
    var y: Unsigned := 36 - t;
    RestIs(q, t);
    rest := x / y;
    digit := t + x % y;
  }

  /** Digits of `delta`, least significant first, under the thresholds `bias` gives. */
  method PutInteger(delta: Unsigned, bias: Unsigned, out: Output)
    requires out.Valid()
    modifies out, out.buffer
    ensures out.Valid() && out.text == old(out.text) + EncodeInteger(delta, BASE, bias)
  {
    var k: Unsigned, q: Unsigned := 36, delta;
    ghost var digits := 0;
    hide *;
    IntegerStart(delta);
    ghost var goal := out.text + EncodeInteger(delta, BASE, bias);
    while true
      invariant out.Valid() && out.text + EncodeInteger(q, k, bias) == goal
      invariant k == 36 + 36 * digits && digits <= 10 && q <= Remaining(digits)
      decreases q
    {
      var t := ClampThreshold(k, bias);
      EncodeUnfold(q, k, bias, out.text);
      if q < t {
        break;
      }
      var digit, rest := NextDigit(q, t);
      RemainingShrinks(q, digits);
      out.Put(Alphabet(digit));
      k, q := k + 36, rest;
      digits := digits + 1;
    }
    out.Put(Alphabet(q));
  }

  lemma IntegerStart(delta: Unsigned)
    ensures BASE == 36 && TMIN == 1 && TMAX == 26 && delta <= Remaining(0)
  {
  }

  lemma EncodeUnfold(q: nat, k: nat, bias: nat, sent: string)
    ensures var t := Threshold(k, bias);
            if q < t then sent + EncodeInteger(q, k, bias) == sent + [Alphabet(q)]
            else sent + EncodeInteger(q, k, bias) == sent + [Alphabet(Digit(q, t))] + EncodeInteger(Rest(q, t), k + BASE, bias)
  {
  }

  lemma RemainingShrinks(q: nat, digits: nat)
    requires 1 <= q && digits <= 10 && q <= Remaining(digits)
    ensures digits < 10 && q / 10 <= Remaining(digits + 1)
  {
    assert Remaining(8) == 42;
    assert Remaining(10) == 0;
  }

  /** A bound on what is left after so many digits: each digit divides by at least 10. */
  ghost function Remaining(digits: nat): nat
    requires digits <= 10
  {
    if digits == 0 then MAX_UNSIGNED else Remaining(digits - 1) / 10
  }

  lemma RestIs(q: nat, t: nat)
    requires TMIN <= t <= TMAX && t <= q
    ensures (q - t) / (36 - t) == Rest(q, t) && t + (q - t) % (36 - t) == Digit(q, t)
  {
  }

  /** Bias adaptation, the damping done in two divisions. */
  method AdaptBias(spent: Unsigned, first: bool, h: Unsigned) returns (bias: Unsigned)
    requires h > 0
    ensures bias == Adapt(spent, h, first)
  {
    var delta: Unsigned := spent / 2;
    if first {
      delta := delta / 350;
    }
    assert delta == if first then spent / DAMP else spent / 2;
    delta := delta + Quotient(delta, h);
    bias := 0;
    ghost var start := delta;
    while delta > 35 * 26 / 2
      invariant AdaptLoop(delta, bias) == AdaptLoop(start, 0)
      invariant bias <= MAX_UNSIGNED - delta
      decreases delta
    {
      delta := delta / 35;
      bias := bias + 36;
    }
    bias := bias + 36 * delta / (delta + 38);
  }

  /** The smallest code point not below `n`, or the largest unsigned if there is none. */
  method FindMinimum(name: seq<nat>, n: Unsigned) returns (m: Unsigned)
    requires ValidName(name)
    ensures forall i :: 0 <= i < |name| ==> name[i] < n || name[i] >= m
    ensures (exists i :: 0 <= i < |name| && name[i] >= n) ==> n <= m <= MAX_CODE_POINT && m in name
  {
    m := MAX_UNSIGNED;
    var i := 0;
    while i < |name|
      invariant 0 <= i <= |name|
      invariant forall k :: 0 <= k < i ==> name[k] < n || name[k] >= m
      invariant (m == MAX_UNSIGNED && forall k :: 0 <= k < i ==> name[k] < n) || (n <= m <= MAX_CODE_POINT && m in name)
    {
      if name[i] >= n && name[i] < m {
        m := name[i];
      }
      i := i + 1;
    }
  }

  // ---------------------------------------------------------------- the main loop

  /** The encoder's variables between two integers. */
  datatype Vars = Vars(delta: Unsigned, bias: Unsigned, h: Unsigned, todo: Unsigned, first: bool)

  /** The variables at position (n, j), against the decoder state the text so far leads to. */
  ghost predicate Encoding(v: Vars, name: seq<nat>, tail: string, s: Machine, n: nat, j: nat) {
    && InStep(s, v.delta, name, n, j) && LeadsTo(tail, Handled(name, INITIAL_N, 0), s) && '-' !in tail
    && v.bias == s.bias && v.h == |s.output| && v.h + v.todo == |name| && (v.first <==> s.i == 0)
    && (TooBig(name) <==> Overflows(name, s.n, s.i, n, j))
  }

  lemma EncodingStart(v: Vars, name: seq<nat>)
    requires v.delta == 0 && v.bias == INITIAL_BIAS && v.first
    requires v.h == |Handled(name, INITIAL_N, 0)| && v.h + v.todo == |name|
    ensures Encoding(v, name, [], Machine(INITIAL_N, 0, INITIAL_BIAS, Handled(name, INITIAL_N, 0)), INITIAL_N, 0)
  {
    InStepStart(name, INITIAL_BIAS);
    hide InStep, Overflows;
    var s := Machine(INITIAL_N, 0, INITIAL_BIAS, Handled(name, INITIAL_N, 0));
    forall rest ensures DecodeLoop([] + rest, s) == DecodeLoop(rest, s) {
      assert [] + rest == rest;
    }
  }

  lemma InStepGapIs(s: Machine, delta: int, name: seq<nat>, n: nat, j: nat)
    requires InStep(s, delta, name, n, j)
    ensures Gap(name, s.n, s.i, n, j) == delta && s.output == Handled(name, n, j) && s.n <= n && s.i <= |s.output|
  {
  }

  lemma EncodingGap(v: Vars, name: seq<nat>, tail: string, s: Machine, n: nat, m: nat, d: int)
    requires Encoding(v, name, tail, s, n, 0) && ValidName(name)
    requires n <= m <= MAX_CODE_POINT && m in name && forall i :: 0 <= i < |name| ==> name[i] < n || name[i] >= m
    requires d == v.delta + (m - n) * (v.h + 1)
    ensures d > MAX_UNSIGNED ==> TooBig(name)
    ensures forall w: Vars :: w.delta == d && w == v.(delta := w.delta) ==> Encoding(w, name, tail, s, m, 0)
  {
    InStepGap(s, v.delta, name, n, m);
    hide InStep, LeadsTo, Overflows, Gap;
    OverflowsGap(name, s.n, s.i, n, m);
    InStepGapIs(s, v.delta, name, n, 0);
    InStepGapIs(s, d, name, m, 0);
    HandledSome(name, m);
    if d > MAX_UNSIGNED { GapGrows(name, s.n, s.i, m, 0); }
  }

  lemma EncodingScan(v: Vars, name: seq<nat>, tail: string, s: Machine, n: nat, j: nat, w: Vars)
    requires Encoding(v, name, tail, s, n, j) && ValidName(name) && j < |name| && name[j] != n && n <= MAX_CODE_POINT
    requires w == v.(delta := w.delta) && w.delta == v.delta + if name[j] < n then 1 else 0
    ensures Encoding(w, name, tail, s, n, j + 1)
  {
    InStepScan(s, v.delta, name, n, j);
    hide LeadsTo, InStep;
  }

  /** `++delta == 0`: a delta at the limit with code points left cannot be encoded. */
  lemma EncodingLimit(v: Vars, name: seq<nat>, tail: string, s: Machine, n: nat, j: nat)
    requires Encoding(v, name, tail, s, n, j) && ValidName(name) && j < |name| && name[j] < n && n <= MAX_CODE_POINT
    requires v.delta == MAX_UNSIGNED && |Handled(name, n, j)| < |name|
    ensures TooBig(name)
  {
    InStepScan(s, v.delta, name, n, j);
    hide LeadsTo, InStep, Gap;
    InStepGapIs(s, v.delta + 1, name, n, j + 1);
    HandledSkip(name, n, j);
    GapGrows(name, s.n, s.i, n, j + 1);
  }

  lemma InsertOverflows(s: Machine, delta: Unsigned, name: seq<nat>, n: nat, j: nat)
    requires InStep(s, delta, name, n, j) && j < |name| && name[j] == n && n <= MAX_CODE_POINT
    ensures var r := Insertion(s, s.i + delta);
            Overflows(name, s.n, s.i, n, j) == Overflows(name, r.n, r.i, n, j + 1)
  {
    InStepGapIs(s, delta, name, n, j);
    InStepInsert(s, delta, name, n, j);
    PositionStep(name, n, j);
    var r := Insertion(s, s.i + delta);
    InsertionPosition(r, name, n, j + 1);
    hide InStep, Gap, Insertion, Position;
  }

  lemma InsertionPosition(r: Machine, name: seq<nat>, n: nat, j: nat)
    requires InStep(r, 0, name, n, j) && r.n == n
    ensures r.i == Position(name, n, j)
  {
  }

  lemma EncodingInsert(v: Vars, name: seq<nat>, tail: string, s: Machine, n: nat, j: nat, w: Vars)
    requires Encoding(v, name, tail, s, n, j) && j < |name| && name[j] == n && n <= MAX_CODE_POINT
    requires w.delta == 0 && w.bias == Adapt(v.delta, v.h + 1, v.first) && w.h == v.h + 1 && w.todo == v.todo - 1 && !w.first
    ensures var r := Insertion(s, s.i + v.delta);
            r.n == n && Encoding(w, name, tail + EncodeInteger(v.delta, BASE, v.bias), r, n, j + 1)
  {
    hide InStep, LeadsTo, Overflows, Adapt;
    LeadsFurther(tail, Handled(name, INITIAL_N, 0), s, v.delta, name, n, j);
    InStepInsert(s, v.delta, name, n, j);
    InsertOverflows(s, v.delta, name, n, j);
    InsertionMoves(s, s.i + v.delta);
    hide Insertion;
  }

  lemma InsertionMoves(s: Machine, i: nat)
    requires s.i <= i
    ensures Insertion(s, i).i > 0
  {
  }

  lemma EncodingLeft(v: Vars, name: seq<nat>, tail: string, s: Machine, n: nat, j: nat)
    requires Encoding(v, name, tail, s, n, j) && j < |name| && name[j] == n
    ensures v.todo > 0
  {
    HandledInsert(name, n, j);
  }

  lemma EncodingEnd(v: Vars, name: seq<nat>, tail: string, s: Machine, n: nat, w: Vars)
    requires Encoding(v, name, tail, s, n, |name|) && n <= MAX_CODE_POINT
    requires w == v.(delta := w.delta) && w.delta == v.delta + 1
    ensures Encoding(w, name, tail, s, n + 1, 0)
  {
    InStepEnd(s, v.delta, name, n);
    hide LeadsTo, InStep;
  }

  /** After an insertion in this scan delta only counts positions. */
  lemma EncodingSmall(v: Vars, name: seq<nat>, tail: string, s: Machine, n: nat, j: nat)
    requires Encoding(v, name, tail, s, n, j) && s.n == n
    ensures v.delta <= |name|
  {
  }

  lemma EncodingDone(v: Vars, name: seq<nat>, tail: string, s: Machine, n: nat)
    requires Encoding(v, name, tail, s, n, 0) && v.todo == 0
    ensures Decode(Delimited(Basics(name)) + tail) == Some(name)
    ensures !TooBig(name)
  {
    hide LeadsTo, InStep, Overflows, Decode;
    InStepGapIs(s, v.delta, name, n, 0);
    HandledAll(name, n, 0);
    HandledSome(name, n);
    NothingLeft(name, s.n, s.i, n, 0);
    BasicsHandled(name);
    DecodeLayout(Basics(name), tail, name, s);
  }

  // ---------------------------------------------------------------- the loops

  ghost predicate Extends(text: string, was: string) {
    |was| <= |text| && text[..|was|] == was
  }

  /** Emits `delta`, adapts the bias and starts counting again. */
  method Insert(name: seq<nat>, n: Unsigned, j: nat, v0: Vars, out: Output, ghost from: nat, ghost s0: Machine)
      returns (v: Vars, ghost s: Machine)
    requires out.Valid() && from <= |out.text| && Encoding(v0, name, out.text[from..], s0, n, j)
    requires j < |name| < MAX_UNSIGNED && name[j] == n && n <= MAX_CODE_POINT
    modifies out, out.buffer
    ensures out.Valid() && Extends(out.text, old(out.text))
    ensures s.n == n && Encoding(v, name, out.text[from..], s, n, j + 1) && v.todo == v0.todo - 1
  {
    EncodingLeft(v0, name, out.text[from..], s0, n, j);
    assert v0.h + v0.todo == |name| && s0.i + v0.delta >= 0;
    hide *;
    ghost var was := out.text;
    PutInteger(v0.delta, v0.bias, out);
    assert out.text[from..] == was[from..] + EncodeInteger(v0.delta, BASE, v0.bias);
    ExtendsAppend(was, EncodeInteger(v0.delta, BASE, v0.bias));
    var bias := AdaptBias(v0.delta, v0.first, v0.h + 1);
    v := Vars(0, bias, v0.h + 1, v0.todo - 1, false);
    s := Insertion(s0, s0.i + v0.delta);
    EncodingInsert(v0, name, was[from..], s0, n, j, v);
  }

  lemma ExtendsAppend(was: string, more: string)
    ensures Extends(was + more, was)
  {
  }

  lemma ExtendsMore(a: string, b: string, c: string)
    requires Extends(b, a) && Extends(c, b)
    ensures Extends(c, a)
  {
  }

  lemma ExtendsParts(text: string, was: string)
    requires Extends(text, was)
    ensures |was| <= |text| && text[..|was|] == was
  {
  }

  /** One turn of the scan for the code point `n`, which stands at `k`. */
  method ScanStep(name: seq<nat>, n: Unsigned, j: nat, v0: Vars, out: Output, ghost from: nat, ghost s0: Machine, ghost k: nat)
      returns (ok: bool, v: Vars, ghost s: Machine)
    requires out.Valid() && from <= |out.text| && Encoding(v0, name, out.text[from..], s0, n, j)
    requires ValidName(name) && j < |name| < MAX_UNSIGNED && n <= MAX_CODE_POINT
    requires k < |name| && name[k] == n && (k < j ==> s0.n == n)
    modifies out, out.buffer
    ensures out.Valid() && Extends(out.text, old(out.text))
    ensures !ok ==> TooBig(name)
    ensures ok ==> Encoding(v, name, out.text[from..], s, n, j + 1)
    ensures ok ==> (if name[j] == n then s.n == n && v.todo == v0.todo - 1 else s == s0 && v.todo == v0.todo)
  {
    v, s, ok := v0, s0, true;
    assert Extends(out.text, out.text);
    hide *;
    var c := name[j];
    if c < n {
      if v.delta == MAX_UNSIGNED {
        LimitReached(v, name, out.text[from..], s, n, j, k);
        return false, v, s;
      }
      v := v.(delta := v.delta + 1);
      EncodingScan(v0, name, out.text[from..], s, n, j, v);
    } else if c != n {
      EncodingScan(v, name, out.text[from..], s, n, j, v);
    } else {
      v, s := Insert(name, n, j, v, out, from, s);
    }
  }

  /** One scan of the label for the code point `n`. */
  method Scan(name: seq<nat>, n: Unsigned, v0: Vars, out: Output, ghost from: nat, ghost s0: Machine)
      returns (ok: bool, v: Vars, ghost s: Machine)
    requires out.Valid() && from <= |out.text| && Encoding(v0, name, out.text[from..], s0, n, 0)
    requires ValidName(name) && |name| < MAX_UNSIGNED && n <= MAX_CODE_POINT && n in name
    modifies out, out.buffer
    ensures out.Valid() && Extends(out.text, old(out.text))
    ensures !ok ==> TooBig(name)
    ensures ok ==> s.n == n && Encoding(v, name, out.text[from..], s, n, |name|) && v.todo < v0.todo
  {
    v, s, ok := v0, s0, true;
    var j := 0;
    ghost var k :| 0 <= k < |name| && name[k] == n;
    assert Extends(out.text, out.text);
    hide *;
    while j < |name|
      invariant 0 <= j <= |name| && out.Valid() && Extends(out.text, old(out.text)) && from <= |out.text|
      invariant Encoding(v, name, out.text[from..], s, n, j)
      invariant v.todo <= v0.todo && (k < j ==> s.n == n && v.todo < v0.todo)
    {
      ghost var was := out.text;
      ok, v, s := ScanStep(name, n, j, v, out, from, s, k);
      ExtendsMore(old(out.text), was, out.text);
      ExtendsParts(out.text, was);
      if !ok {
        return;
      }
      j := j + 1;
    }
  }

  lemma LimitReached(v: Vars, name: seq<nat>, tail: string, s: Machine, n: nat, j: nat, k: nat)
    requires Encoding(v, name, tail, s, n, j) && ValidName(name) && j < |name| < MAX_UNSIGNED && name[j] < n && n <= MAX_CODE_POINT
    requires v.delta == MAX_UNSIGNED && k < |name| && name[k] == n && (k < j ==> s.n == n)
    ensures TooBig(name)
  {
    hide Encoding, TooBig;
    if k < j {
      EncodingSmall(v, name, tail, s, n, j);
    } else {
      HandledLeft(name, n, j, k);
      EncodingLimit(v, name, tail, s, n, j);
    }
  }


  /** `x > ~delta / y` holds exactly when adding x * y would overflow. */
  lemma OverflowTest(x: Unsigned, y: Unsigned, delta: Unsigned)
    requires y > 0
    ensures x > Quotient(MAX_UNSIGNED - delta, y) <==> delta + x * y > MAX_UNSIGNED
    ensures x * y >= 0
  {
    var q := Quotient(MAX_UNSIGNED - delta, y);
    if x > q { Scale(y, x, q + 1); } else { Scale(y, q, x); }
  }

  /** Adds the distance to the next code point, or fails. */
  method JumpTo(name: seq<nat>, n: Unsigned, m: Unsigned, v0: Vars, ghost tail: string, ghost s: Machine) returns (ok: bool, v: Vars)
    requires Encoding(v0, name, tail, s, n, 0) && ValidName(name) && v0.h < MAX_UNSIGNED
    requires n <= m <= MAX_CODE_POINT && m in name && forall i :: 0 <= i < |name| ==> name[i] < n || name[i] >= m
    ensures if ok then Encoding(v, name, tail, s, m, 0) && v.todo == v0.todo else TooBig(name)
  {
    hide *;
    var x: Unsigned, y: Unsigned := m - n, v0.h + 1;
    OverflowTest(x, y, v0.delta);
    EncodingGap(v0, name, tail, s, n, m, v0.delta + x * y);
    ok := x <= Quotient(MAX_UNSIGNED - v0.delta, y);
    v := if ok then v0.(delta := v0.delta + x * y) else v0;
  }

  lemma CodePointsFit()
    ensures MAX_CODE_POINT < MAX_UNSIGNED
  {
  }

  lemma ExtendsItself(text: string)
    ensures Extends(text, text)
  {
  }

  /** One turn of the encoding loop: jump to the next code point, scan for it, step past it. */
  method EncodeNext(name: seq<nat>, n0: Unsigned, v0: Vars, out: Output, ghost from: nat, ghost s0: Machine)
      returns (ok: bool, v: Vars, n: Unsigned, ghost s: Machine)
    requires out.Valid() && ValidName(name) && |name| < MAX_UNSIGNED && from <= |out.text|
    requires Encoding(v0, name, out.text[from..], s0, n0, 0) && v0.todo > 0
    modifies out, out.buffer
    ensures out.Valid() && Extends(out.text, old(out.text))
    ensures !ok ==> TooBig(name)
    ensures ok ==> n <= MAX_CODE_POINT + 1 && Encoding(v, name, out.text[from..], s, n, 0) && v.todo < v0.todo
  {
    hide *;
    CodePointsFit();
    ExtendsItself(out.text);
    SomethingLeft(v0, name, out.text[from..], s0, n0);
    n := FindMinimum(name, n0);
    s := s0;
    ok, v := JumpTo(name, n0, n, v0, out.text[from..], s);
    if !ok {
      return;
    }
    ok, v, s := Scan(name, n, v, out, from, s);
    ExtendsParts(out.text, old(out.text));
    if !ok {
      return;
    }
    EncodingSmall(v, name, out.text[from..], s, n, |name|);
    ghost var w := v;
    v := v.(delta := v.delta + 1);
    EncodingEnd(w, name, out.text[from..], s, n, v);
    n := n + 1;
  }

  /** The encoding loop: one scan per distinct code point. */
  method EncodeRest(name: seq<nat>, v0: Vars, out: Output) returns (ok: bool)
    requires out.Valid() && ValidName(name) && |name| < MAX_UNSIGNED
    requires v0.delta == 0 && v0.bias == INITIAL_BIAS && v0.first
    requires v0.h == |Handled(name, INITIAL_N, 0)| && v0.h + v0.todo == |name|
    modifies out, out.buffer
    ensures out.Valid() && Extends(out.text, old(out.text))
    ensures ok <==> !TooBig(name)
    ensures ok ==> Decode(Delimited(Basics(name)) + out.text[|old(out.text)|..]) == Some(name)
  {
    ghost var from := |out.text|;
    var v := v0;
    var n: Unsigned := 128;
    ghost var s := Machine(INITIAL_N, 0, INITIAL_BIAS, Handled(name, INITIAL_N, 0));
    EncodingStart(v0, name);
    assert out.text[from..] == [] && Extends(out.text, out.text) && n <= MAX_CODE_POINT < MAX_UNSIGNED && n == INITIAL_N;
    hide *;
    while v.todo > 0
      invariant out.Valid() && Extends(out.text, old(out.text)) && from == |old(out.text)| <= |out.text|
      invariant Encoding(v, name, out.text[from..], s, n, 0) && n <= MAX_CODE_POINT + 1
      decreases v.todo
    {
      ghost var was := out.text;
      ok, v, n, s := EncodeNext(name, n, v, out, from, s);
      ExtendsMore(old(out.text), was, out.text);
      ExtendsParts(out.text, was);
      if !ok {
        return;
      }
    }
    EncodingDone(v, name, out.text[from..], s, n);
    ok := true;
  }

  lemma SomethingLeft(v: Vars, name: seq<nat>, tail: string, s: Machine, n: nat)
    requires Encoding(v, name, tail, s, n, 0) && v.todo > 0
    ensures v.h < |name| && exists i :: 0 <= i < |name| && name[i] >= n
  {
    HandledSome(name, n);
  }

  predicate Ascii(name: seq<nat>) {
    forall i :: 0 <= i < |name| ==> IsBasic(name[i])
  }

  /** A label of ASCII characters is copied. Any other becomes `xn--` and the text that section 6.2 of
      RFC 3492 decodes to the label, unless an integer of its encoding needs more than 32 bits. A
      malformed label sends nothing. */
  method ToAsciiLabel(name: seq<nat>, out: Output) returns (r: Status)
    requires DecodedName(name) && out.Valid()
    modifies out, out.buffer
    ensures out.Valid() && Extends(out.text, old(out.text))
    ensures r == EINVAL <==> !ValidName(name)
    ensures r == E2BIG <==> ValidName(name) && TooBig(name)
    ensures r == EINVAL ==> out.text == old(out.text)
    ensures r.Returned? ==>
              var sent := out.text[|old(out.text)|..];
              if Ascii(name) then r.value == |name| && CodePoints(sent) == name
              else r.value == 0 && |sent| >= 4 && sent[..4] == "xn--" && Decode(sent[4..]) == Some(name)
  {
    ghost var was := out.text;
    var ok, h, todo := CountPoints(name);
    assert Extends(was, was);
    if !ok {
      return EINVAL;
    }
    BasicsHandled(name);
    HandledSome(name, INITIAL_N);
    assert INITIAL_BIAS == 72;
    hide *;
    PutHeader(name, h, todo, out);
    if todo == 0 {
      AsciiCase(name);
      ExtendsAppend(was, Basics(name));
      assert out.text[|was|..] == Basics(name);
      return Returned(h);
    }
    ghost var sent := out.text;
    ok := EncodeRest(name, Vars(0, 72, h, todo, true), out);
    SentLayout(out.text, was, Basics(name), sent);
    AsciiIff(name);
    r := if ok then Returned(0) else E2BIG;
  }

  /** The prefix if anything is not ASCII, the basic code points, and a delimiter if both exist. */
  method PutHeader(name: seq<nat>, h: Unsigned, todo: Unsigned, out: Output)
    requires h == |Basics(name)| && out.Valid()
    modifies out, out.buffer
    ensures out.Valid()
    ensures out.text == old(out.text) + if todo == 0 then Basics(name) else "xn--" + Delimited(Basics(name))
  {
    if todo > 0 {
      out.Put('x');
      out.Put('n');
      out.Put('-');
      out.Put('-');
    }
    PutBasics(name, h, out);
    if todo > 0 && h > 0 {
      out.Put('-');
    }
  }

  lemma AsciiIff(name: seq<nat>)
    ensures Ascii(name) <==> |Handled(name, INITIAL_N, 0)| == |name|
  {
    HandledSome(name, INITIAL_N);
  }

  lemma AsciiCase(name: seq<nat>)
    requires |Handled(name, INITIAL_N, 0)| == |name|
    ensures Ascii(name) && CodePoints(Basics(name)) == name && !TooBig(name)
  {
    HandledSome(name, INITIAL_N);
    BasicsHandled(name);
    HandledAll(name, INITIAL_N, 0);
    NothingLeft(name, INITIAL_N, 0, INITIAL_N, 0);
  }

  lemma SentLayout(text: string, was: string, basics: string, sent: string)
    requires sent == was + ("xn--" + Delimited(basics)) && Extends(text, sent)
    ensures Extends(text, was)
    ensures |text| >= |was| + 4 && text[|was|..][..4] == "xn--" && text[|was|..][4..] == Delimited(basics) + text[|sent|..]
  {
    assert text == sent + text[|sent|..];
  }
}
