/** The decoder and the digits against section 5 and section 7.1 of RFC 3492: texts and their code
    points in full. */
module PunycodeSamples {
  import opened Optional
  import opened Punycode
  import opened PunycodeProof

  /** The digits of section 5, as the code lists them. */
  lemma AlphabetIs(d: nat)
    requires d < 36
    ensures Alphabet(d) == "abcdefghijklmnopqrstuvwxyz0123456789"[d]
  {
  }

  /** One digit of an integer that goes on, and the last digit of one. */
  lemma DigitGoesOn(text: string, k: nat, bias: nat, i: nat, w: nat, d: nat, t: nat, i2: nat, w2: nat)
    requires text != [] && DigitValue(text[0]) == Some(d) && Threshold(k, bias) == t <= d && i2 == i + d * w && w2 == w * (36 - t)
    ensures DecodeInteger(text, k, bias, i, w) == DecodeInteger(text[1..], k + 36, bias, i2, w2)
  {
    hide DigitValue, Threshold;
  }

  lemma DigitEnds(text: string, k: nat, bias: nat, i: nat, w: nat, d: nat, i2: nat)
    requires text != [] && DigitValue(text[0]) == Some(d) && d < Threshold(k, bias) && i2 == i + d * w
    ensures DecodeInteger(text, k, bias, i, w) == Some((i2, text[1..]))
  {
    hide DigitValue, Threshold;
  }

  lemma InsertionIs(n: nat, was: nat, bias: nat, front: seq<nat>, back: seq<nat>, i: nat, n2: nat, bias2: nat)
    requires was <= i && n2 == n + i / (|front + back| + 1) && |front| == i % (|front + back| + 1)
    requires Adapt(i - was, |front + back| + 1, was == 0) == bias2
    ensures Insertion(Machine(n, was, bias, front + back), i) == Machine(n2, |front| + 1, bias2, front + [n2] + back)
  {
    hide Adapt;
    assert (front + back)[..|front|] == front && (front + back)[|front|..] == back;
  }

  /** One insertion of the decoder. */
  lemma OneInsertion(text: string, s: Machine, i: nat, rest: string, next: Machine)
    requires text != [] && DecodeInteger(text, 36, s.bias, s.i, 1) == Some((i, rest)) && s.i <= i && next.n >= 128
    requires next == Insertion(s, i)
    ensures DecodeLoop(text, s) == DecodeLoop(rest, next)
  {
    hide Insertion, DecodeInteger;
  }

  lemma BuecherInteger1()
    ensures DecodeInteger("kva", 36, 72, 0, 1) == Some((745, []))
  {
    hide DecodeInteger;
    DigitGoesOn("kva", 36, 72, 0, 1, 10, 1, 10, 35);
    assert "kva"[1..] == "va";
    DigitGoesOn("va", 72, 72, 10, 35, 21, 1, 745, 1225);
    assert "va"[1..] == "a";
    DigitEnds("a", 108, 72, 745, 1225, 0, 745);
    assert "a"[1..] == [];
  }

  lemma BuecherInsert1()
    ensures Insertion(Machine(128, 0, 72, [98, 99, 104, 101, 114]), 745) ==
            Machine(252, 2, 0, [98, 252, 99, 104, 101, 114])
  {
    hide *;
    BuecherAdapt1();
    InsertionIs(128, 0, 72, [98], [99, 104, 101, 114], 745, 252, 0);
    assert [98] + [99, 104, 101, 114] == [98, 99, 104, 101, 114];
    assert [98] + [252] + [99, 104, 101, 114] == [98, 252, 99, 104, 101, 114];
  }

  lemma BuecherAdapt1()
    ensures Adapt(745, 6, true) == 0
  {
    assert Quotient(1, 6) == 0;
    assert AdaptLoop(1, 0) == 0;
  }

  /** The label of the German word for books. */
  lemma Buecher()
    ensures Decode("bcher-kva") == Some([98, 252, 99, 104, 101, 114])
  {
    BuecherStarts();
    BuecherInteger1();
    BuecherInsert1();
    hide *;
    OneInsertion("kva", Machine(128, 0, 72, [98, 99, 104, 101, 114]), 745, [],
                 Machine(252, 2, 0, [98, 252, 99, 104, 101, 114]));
    DecodeEnds(Machine(252, 2, 0, [98, 252, 99, 104, 101, 114]));
  }

  lemma BuecherStarts()
    ensures Decode("bcher-kva") == DecodeLoop("kva", Machine(128, 0, 72, [98, 99, 104, 101, 114]))
  {
    var basic, tail := "bcher", "kva";
    assert basic + ['-'] + tail == "bcher-kva";
    assert CodePoints(basic) == [98, 99, 104, 101, 114];
    hide *;
    DecodeStarts(basic, tail);
  }

  lemma SampleLInteger1()
    ensures DecodeInteger("ww4c5e180e575a65lsy2b", 36, 72, 0, 1) == Some((62042, "5e180e575a65lsy2b"))
  {
    hide DecodeInteger;
    DigitGoesOn("ww4c5e180e575a65lsy2b", 36, 72, 0, 1, 22, 1, 22, 35);
    assert "ww4c5e180e575a65lsy2b"[1..] == "w4c5e180e575a65lsy2b";
    DigitGoesOn("w4c5e180e575a65lsy2b", 72, 72, 22, 35, 22, 1, 792, 1225);
    assert "w4c5e180e575a65lsy2b"[1..] == "4c5e180e575a65lsy2b";
    DigitGoesOn("4c5e180e575a65lsy2b", 108, 72, 792, 1225, 30, 26, 37542, 12250);
    assert "4c5e180e575a65lsy2b"[1..] == "c5e180e575a65lsy2b";
    DigitEnds("c5e180e575a65lsy2b", 144, 72, 37542, 12250, 2, 62042);
    assert "c5e180e575a65lsy2b"[1..] == "5e180e575a65lsy2b";
  }

  lemma SampleLInsert1()
    ensures Insertion(Machine(128, 0, 72, [51, 66]), 62042) ==
            Machine(20808, 3, 27, [51, 66, 20808])
  {
    hide *;
    SampleLAdapt1();
    InsertionIs(128, 0, 72, [51, 66], [], 62042, 20808, 27);
    assert [51, 66] + [] == [51, 66];
    assert [51, 66] + [20808] + [] == [51, 66, 20808];
  }

  lemma SampleLAdapt1()
    ensures Adapt(62042, 3, true) == 27
  {
    assert Quotient(88, 3) == 29;
    assert AdaptLoop(117, 0) == 27;
  }

  lemma SampleLInteger2()
    ensures DecodeInteger("5e180e575a65lsy2b", 36, 27, 3, 1) == Some((142, "180e575a65lsy2b"))
  {
    hide DecodeInteger;
    DigitGoesOn("5e180e575a65lsy2b", 36, 27, 3, 1, 31, 9, 34, 27);
    assert "5e180e575a65lsy2b"[1..] == "e180e575a65lsy2b";
    DigitEnds("e180e575a65lsy2b", 72, 27, 34, 27, 4, 142);
    assert "e180e575a65lsy2b"[1..] == "180e575a65lsy2b";
  }

  lemma SampleLInsert2()
    ensures Insertion(Machine(20808, 3, 27, [51, 66, 20808]), 142) ==
            Machine(20843, 3, 24, [51, 66, 20843, 20808])
  {
    hide *;
    SampleLAdapt2();
    InsertionIs(20808, 3, 27, [51, 66], [20808], 142, 20843, 24);
    assert [51, 66] + [20808] == [51, 66, 20808];
    assert [51, 66] + [20843] + [20808] == [51, 66, 20843, 20808];
  }

  lemma SampleLAdapt2()
    ensures Adapt(139, 4, false) == 24
  {
    assert Quotient(69, 4) == 17;
    assert AdaptLoop(86, 0) == 24;
  }

  lemma SampleLInteger3()
    ensures DecodeInteger("180e575a65lsy2b", 36, 24, 3, 1) == Some((16686, "575a65lsy2b"))
  {
    hide DecodeInteger;
    DigitGoesOn("180e575a65lsy2b", 36, 24, 3, 1, 27, 12, 30, 24);
    assert "180e575a65lsy2b"[1..] == "80e575a65lsy2b";
    DigitGoesOn("80e575a65lsy2b", 72, 24, 30, 24, 34, 26, 846, 240);
    assert "80e575a65lsy2b"[1..] == "0e575a65lsy2b";
    DigitGoesOn("0e575a65lsy2b", 108, 24, 846, 240, 26, 26, 7086, 2400);
    assert "0e575a65lsy2b"[1..] == "e575a65lsy2b";
    DigitEnds("e575a65lsy2b", 144, 24, 7086, 2400, 4, 16686);
    assert "e575a65lsy2b"[1..] == "575a65lsy2b";
  }

  lemma SampleLInsert3()
    ensures Insertion(Machine(20843, 3, 24, [51, 66, 20843, 20808]), 16686) ==
            Machine(24180, 2, 67, [51, 24180, 66, 20843, 20808])
  {
    hide *;
    SampleLAdapt3();
    InsertionIs(20843, 3, 24, [51], [66, 20843, 20808], 16686, 24180, 67);
    assert [51] + [66, 20843, 20808] == [51, 66, 20843, 20808];
    assert [51] + [24180] + [66, 20843, 20808] == [51, 24180, 66, 20843, 20808];
  }

  lemma SampleLAdapt3()
    ensures Adapt(16683, 5, false) == 67
  {
    assert Quotient(8341, 5) == 1668;
    assert AdaptLoop(10009, 0) == AdaptLoop(285, 36);
    assert AdaptLoop(285, 36) == 67;
  }

  lemma SampleLInteger4()
    ensures DecodeInteger("575a65lsy2b", 36, 67, 2, 1) == Some((34823, "65lsy2b"))
  {
    hide DecodeInteger;
    DigitGoesOn("575a65lsy2b", 36, 67, 2, 1, 31, 1, 33, 35);
    assert "575a65lsy2b"[1..] == "75a65lsy2b";
    DigitGoesOn("75a65lsy2b", 72, 67, 33, 35, 33, 5, 1188, 1085);
    assert "75a65lsy2b"[1..] == "5a65lsy2b";
    DigitGoesOn("5a65lsy2b", 108, 67, 1188, 1085, 31, 26, 34823, 10850);
    assert "5a65lsy2b"[1..] == "a65lsy2b";
    DigitEnds("a65lsy2b", 144, 67, 34823, 10850, 0, 34823);
    assert "a65lsy2b"[1..] == "65lsy2b";
  }

  lemma SampleLInsert4()
    ensures Insertion(Machine(24180, 2, 67, [51, 24180, 66, 20843, 20808]), 34823) ==
            Machine(29983, 6, 82, [51, 24180, 66, 20843, 20808, 29983])
  {
    hide *;
    SampleLAdapt4();
    InsertionIs(24180, 2, 67, [51, 24180, 66, 20843, 20808], [], 34823, 29983, 82);
    assert [51, 24180, 66, 20843, 20808] + [] == [51, 24180, 66, 20843, 20808];
    assert [51, 24180, 66, 20843, 20808] + [29983] + [] == [51, 24180, 66, 20843, 20808, 29983];
  }

  lemma SampleLAdapt4()
    ensures Adapt(34821, 6, false) == 82
  {
    assert Quotient(17410, 6) == 2901;
    assert AdaptLoop(20311, 0) == AdaptLoop(580, 36);
    assert AdaptLoop(580, 36) == AdaptLoop(16, 72);
    assert AdaptLoop(16, 72) == 82;
  }

  lemma SampleLInteger5()
    ensures DecodeInteger("65lsy2b", 36, 82, 6, 1) == Some((14598, "sy2b"))
  {
    hide DecodeInteger;
    DigitGoesOn("65lsy2b", 36, 82, 6, 1, 32, 1, 38, 35);
    assert "65lsy2b"[1..] == "5lsy2b";
    DigitGoesOn("5lsy2b", 72, 82, 38, 35, 31, 1, 1123, 1225);
    assert "5lsy2b"[1..] == "lsy2b";
    DigitEnds("lsy2b", 108, 82, 1123, 1225, 11, 14598);
    assert "lsy2b"[1..] == "sy2b";
  }

  lemma SampleLInsert5()
    ensures Insertion(Machine(29983, 6, 82, [51, 24180, 66, 20843, 20808, 29983]), 14598) ==
            Machine(32068, 4, 67, [51, 24180, 66, 32068, 20843, 20808, 29983])
  {
    hide *;
    SampleLAdapt5();
    InsertionIs(29983, 6, 82, [51, 24180, 66], [20843, 20808, 29983], 14598, 32068, 67);
    assert [51, 24180, 66] + [20843, 20808, 29983] == [51, 24180, 66, 20843, 20808, 29983];
    assert [51, 24180, 66] + [32068] + [20843, 20808, 29983] == [51, 24180, 66, 32068, 20843, 20808, 29983];
  }

  lemma SampleLAdapt5()
    ensures Adapt(14592, 7, false) == 67
  {
    assert Quotient(7296, 7) == 1042;
    assert AdaptLoop(8338, 0) == AdaptLoop(238, 36);
    assert AdaptLoop(238, 36) == 67;
  }

  lemma SampleLInteger6()
    ensures DecodeInteger("sy2b", 36, 67, 4, 1) == Some((42092, []))
  {
    hide DecodeInteger;
    DigitGoesOn("sy2b", 36, 67, 4, 1, 18, 1, 22, 35);
    assert "sy2b"[1..] == "y2b";
    DigitGoesOn("y2b", 72, 67, 22, 35, 24, 5, 862, 1085);
    assert "y2b"[1..] == "2b";
    DigitGoesOn("2b", 108, 67, 862, 1085, 28, 26, 31242, 10850);
    assert "2b"[1..] == "b";
    DigitEnds("b", 144, 67, 31242, 10850, 1, 42092);
    assert "b"[1..] == [];
  }

  lemma SampleLInsert6()
    ensures Insertion(Machine(32068, 4, 67, [51, 24180, 66, 32068, 20843, 20808, 29983]), 42092) ==
            Machine(37329, 5, 84, [51, 24180, 66, 32068, 37329, 20843, 20808, 29983])
  {
    hide *;
    SampleLAdapt6();
    InsertionIs(32068, 4, 67, [51, 24180, 66, 32068], [20843, 20808, 29983], 42092, 37329, 84);
    assert [51, 24180, 66, 32068] + [20843, 20808, 29983] == [51, 24180, 66, 32068, 20843, 20808, 29983];
    assert [51, 24180, 66, 32068] + [37329] + [20843, 20808, 29983] == [51, 24180, 66, 32068, 37329, 20843, 20808, 29983];
  }

  lemma SampleLAdapt6()
    ensures Adapt(42088, 8, false) == 84
  {
    assert Quotient(21044, 8) == 2630;
    assert AdaptLoop(23674, 0) == AdaptLoop(676, 36);
    assert AdaptLoop(676, 36) == AdaptLoop(19, 72);
    assert AdaptLoop(19, 72) == 84;
  }

  /** Sample (L) of section 7.1: six insertions, each with a bias of its own. */
  lemma SampleL()
    ensures Decode("3B-ww4c5e180e575a65lsy2b") == Some([51, 24180, 66, 32068, 37329, 20843, 20808, 29983])
  {
    SampleLStarts();
    SampleLInteger1();
    SampleLInsert1();
    SampleLInteger2();
    SampleLInsert2();
    SampleLInteger3();
    SampleLInsert3();
    SampleLInteger4();
    SampleLInsert4();
    SampleLInteger5();
    SampleLInsert5();
    SampleLInteger6();
    SampleLInsert6();
    hide *;
    OneInsertion("ww4c5e180e575a65lsy2b", Machine(128, 0, 72, [51, 66]), 62042, "5e180e575a65lsy2b",
                 Machine(20808, 3, 27, [51, 66, 20808]));
    OneInsertion("5e180e575a65lsy2b", Machine(20808, 3, 27, [51, 66, 20808]), 142, "180e575a65lsy2b",
                 Machine(20843, 3, 24, [51, 66, 20843, 20808]));
    OneInsertion("180e575a65lsy2b", Machine(20843, 3, 24, [51, 66, 20843, 20808]), 16686, "575a65lsy2b",
                 Machine(24180, 2, 67, [51, 24180, 66, 20843, 20808]));
    OneInsertion("575a65lsy2b", Machine(24180, 2, 67, [51, 24180, 66, 20843, 20808]), 34823, "65lsy2b",
                 Machine(29983, 6, 82, [51, 24180, 66, 20843, 20808, 29983]));
    OneInsertion("65lsy2b", Machine(29983, 6, 82, [51, 24180, 66, 20843, 20808, 29983]), 14598, "sy2b",
                 Machine(32068, 4, 67, [51, 24180, 66, 32068, 20843, 20808, 29983]));
    OneInsertion("sy2b", Machine(32068, 4, 67, [51, 24180, 66, 32068, 20843, 20808, 29983]), 42092, [],
                 Machine(37329, 5, 84, [51, 24180, 66, 32068, 37329, 20843, 20808, 29983]));
    DecodeEnds(Machine(37329, 5, 84, [51, 24180, 66, 32068, 37329, 20843, 20808, 29983]));
  }

  lemma SampleLStarts()
    ensures Decode("3B-ww4c5e180e575a65lsy2b") == DecodeLoop("ww4c5e180e575a65lsy2b", Machine(128, 0, 72, [51, 66]))
  {
    var basic, tail := "3B", "ww4c5e180e575a65lsy2b";
    assert basic + ['-'] + tail == "3B-ww4c5e180e575a65lsy2b";
    assert CodePoints(basic) == [51, 66];
    hide *;
    DecodeStarts(basic, tail);
  }

  /** The other way: what the encoder sends for 745 while the bias is 72. */
  lemma EncodeSample()
    ensures EncodeInteger(745, 36, 72) == "kva"
  {
    assert Quotient(744, 35) == 21 && Quotient(20, 35) == 0;
    assert Digit(745, 1) == 10 && Rest(745, 1) == 21 && Digit(21, 1) == 21 && Rest(21, 1) == 0;
    assert EncodeInteger(0, 108, 72) == [Alphabet(0)];
    assert EncodeInteger(21, 72, 72) == [Alphabet(21)] + EncodeInteger(0, 108, 72);
    assert EncodeInteger(745, 36, 72) == [Alphabet(10)] + EncodeInteger(21, 72, 72);
    AlphabetIs(10);
    AlphabetIs(21);
    AlphabetIs(0);
  }

  lemma DecodeEnds(s: Machine)
    ensures DecodeLoop([], s) == Some(s.output)
  {
  }

  lemma DecodeStarts(basic: string, tail: string)
    requires '-' !in tail && basic != [] && forall i :: 0 <= i < |basic| ==> basic[i] as nat < 128
    ensures Decode(basic + ['-'] + tail) == DecodeLoop(tail, Machine(128, 0, 72, CodePoints(basic)))
  {
    DelimiterFound(basic, tail);
    hide DecodeLoop, BasicLength;
    var text := basic + ['-'] + tail;
    assert text[..|basic|] == basic && text[|basic| + 1..] == tail;
  }
}
