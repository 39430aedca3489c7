/** Choosing the input files of a compaction. */
module Selection {
  import opened Optional
  import opened Keys
  import opened Versions

  /** A bound of a user key range; `None` stands for the null pointer, an unbounded side. */
  type Bound = Option<UserKey>

  predicate Overlaps(f: File, begin: Bound, end: Bound) {
    && !(begin.Some? && f.largest.ukey < begin.value)
    && !(end.Some? && f.smallest.ukey > end.value)
  }

  predicate Inside(f: File, begin: Bound, end: Bound) {
    && (begin.Some? ==> begin.value <= f.smallest.ukey)
    && (end.Some? ==> f.largest.ukey <= end.value)
  }

  /** The range `b2..e2` contains the range `b..e`. */
  predicate Wider(b2: Bound, e2: Bound, b: Bound, e: Bound) {
    && (b2.Some? ==> b.Some? && b2.value <= b.value)
    && (e2.Some? ==> e.Some? && e.value <= e2.value)
  }

  /** No file sticks out of the range. */
  ghost predicate RangeClosed(files: seq<File>, b: Bound, e: Bound) {
    forall f :: f in files && Overlaps(f, b, e) ==> Inside(f, b, e)
  }

  function Overlapping(files: seq<File>, b: Bound, e: Bound): (r: seq<File>)
    ensures forall f :: f in r <==> f in files && Overlaps(f, b, e)
    ensures |r| <= |files|
  {
    if files == [] then []
    else
      var last := files[|files| - 1];
      var front := Overlapping(files[..|files| - 1], b, e);
      assert files == files[..|files| - 1] + [last];
      if Overlaps(last, b, e) then front + [last] else front
  }

  lemma {:induction false} OverlappingNoDups(files: seq<File>, b: Bound, e: Bound)
    requires NoDups(files)
    ensures NoDups(Overlapping(files, b, e))
  {
    if files != [] {
      var front := files[..|files| - 1];
      OverlappingNoDups(front, b, e);
      var r := Overlapping(front, b, e);
      assert forall i :: 0 <= i < |r| ==> r[i] in r;
    }
  }

  /** How many files stick out of a range on either side: what each restart uses up. */
  ghost function Outside(files: seq<File>, b: Bound, e: Bound): nat {
    if files == [] then 0
    else
      (if b.Some? && files[0].smallest.ukey < b.value then 1 else 0) +
      (if e.Some? && files[0].largest.ukey > e.value then 1 else 0) +
      Outside(files[1..], b, e)
  }

  lemma {:induction false} OutsideShrinks(files: seq<File>, b: Bound, e: Bound, b2: Bound, e2: Bound)
    requires Wider(b2, e2, b, e) && (b2.Some? <==> b.Some?) && (e2.Some? <==> e.Some?)
    ensures Outside(files, b2, e2) <= Outside(files, b, e)
    ensures (exists f :: f in files && !Inside(f, b, e) && Inside(f, b2, e2)) ==>
              Outside(files, b2, e2) < Outside(files, b, e)
    ensures (exists f :: f in files && b.Some? && f.smallest.ukey < b.value && f.smallest.ukey >= b2.value) ==>
              Outside(files, b2, e2) < Outside(files, b, e)
    ensures (exists f :: f in files && e.Some? && f.largest.ukey > e.value && f.largest.ukey <= e2.value) ==>
              Outside(files, b2, e2) < Outside(files, b, e)
  {
    if files != [] {
      OutsideShrinks(files[1..], b, e, b2, e2);
      assert files == [files[0]] + files[1..];
    }
  }

  /** Every closed range around `begin..end` contains `b..e`. */
  ghost predicate Least(files: seq<File>, begin: Bound, end: Bound, b: Bound, e: Bound) {
    forall b2: Bound, e2: Bound :: Wider(b2, e2, begin, end) && RangeClosed(files, b2, e2) ==> Wider(b2, e2, b, e)
  }

  /** Taking in a file that overlaps the range keeps it inside every closed range. */
  lemma LeastWidened(files: seq<File>, begin: Bound, end: Bound, b: Bound, e: Bound, f: File, b1: Bound, e1: Bound)
    requires Least(files, begin, end, b, e) && f in files && Overlaps(f, b, e)
    requires b1 == b || (b.Some? && b1 == Some(f.smallest.ukey))
    requires e1 == e || (e.Some? && e1 == Some(f.largest.ukey))
    ensures Least(files, begin, end, b1, e1)
  {
    forall b2: Bound, e2: Bound | Wider(b2, e2, begin, end) && RangeClosed(files, b2, e2) ensures Wider(b2, e2, b1, e1) {
      assert Wider(b2, e2, b, e);
      assert Overlaps(f, b2, e2);
    }
  }

  lemma OverlappingStep(files: seq<File>, i: nat, b: Bound, e: Bound)
    requires i < |files|
    ensures Overlapping(files[..i + 1], b, e) ==
            Overlapping(files[..i], b, e) + if Overlaps(files[i], b, e) then [files[i]] else []
    ensures RangeClosed(files[..i], b, e) && (Overlaps(files[i], b, e) ==> Inside(files[i], b, e)) ==>
              RangeClosed(files[..i + 1], b, e)
  {
    assert files[..i + 1][..i] == files[..i];
  }

  lemma EmptyScan(files: seq<File>, b: Bound, e: Bound)
    ensures Overlapping(files[..0], b, e) == [] && RangeClosed(files[..0], b, e)
  {
  }

  /** Collects the files of a level that overlap `begin..end`. Level-0 files may overlap each other,
      so there a file that sticks out widens the range and restarts the scan; the result is the least
      range closed under overlap. */
  method GetOverlappingInputs(files: seq<File>, level0: bool, begin: Bound, end: Bound)
    returns (inputs: seq<File>, b: Bound, e: Bound)
    ensures inputs == Overlapping(files, b, e)
    ensures !level0 ==> b == begin && e == end
    ensures level0 ==> RangeClosed(files, b, e) && Wider(b, e, begin, end) && Least(files, begin, end, b, e)
  {
    inputs, b, e := [], begin, end;
    var i := 0;
    EmptyScan(files, b, e);
    assert Least(files, begin, end, begin, end);
    hide Least, RangeClosed, Overlapping;
    while i < |files|
      invariant 0 <= i <= |files|
      invariant inputs == Overlapping(files[..i], b, e)
      invariant (b.Some? <==> begin.Some?) && (e.Some? <==> end.Some?)
      invariant !level0 ==> b == begin && e == end
      invariant level0 ==> RangeClosed(files[..i], b, e) && Wider(b, e, begin, end) && Least(files, begin, end, b, e)
      decreases Outside(files, b, e), |files| - i
    {
      OverlappingStep(files, i, b, e);
      var f := files[i];
      assert f in files;
      i := i + 1;
      if b.Some? && f.largest.ukey < b.value {
        // completely before the range
      } else if e.Some? && f.smallest.ukey > e.value {
        // completely after the range
      } else {
        inputs := inputs + [f];
        if level0 {
          if b.Some? && f.smallest.ukey < b.value {
            LeastWidened(files, begin, end, b, e, f, Some(f.smallest.ukey), e);
            OutsideShrinks(files, b, e, Some(f.smallest.ukey), e);
            b, inputs, i := Some(f.smallest.ukey), [], 0;
            EmptyScan(files, b, e);
          } else if e.Some? && f.largest.ukey > e.value {
            LeastWidened(files, begin, end, b, e, f, b, Some(f.largest.ukey));
            OutsideShrinks(files, b, e, b, Some(f.largest.ukey));
            e, inputs, i := Some(f.largest.ukey), [], 0;
            EmptyScan(files, b, e);
          }
        }
      }
    }
    assert files[..i] == files;
  }

  // ---------------------------------------------------------------- boundary files

  /** Every file left out lies wholly before or wholly after the chosen ones. */
  ghost predicate Contiguous(level: seq<File>, chosen: set<File>) {
    forall f :: f in level && f !in chosen ==>
      (forall g :: g in chosen ==> Before(f.largest, g.smallest)) ||
      (forall g :: g in chosen ==> Before(g.largest, f.smallest))
  }

  /** A file after the chosen ones starts at a strictly larger user key. */
  ghost predicate BoundaryClosed(level: seq<File>, chosen: set<File>) {
    forall f, g :: f in level && f !in chosen && g in chosen && Before(g.largest, f.smallest) ==>
      g.largest.ukey < f.smallest.ukey
  }

  predicate IsBoundary(f: File, largest: IKey) {
    Before(largest, f.smallest) && f.smallest.ukey == largest.ukey
  }

  method FindLargestKey(files: seq<File>) returns (largest: IKey)
    requires files != []
    ensures IsLargest(files, largest)
  {
    largest := files[0].largest;
    for i := 1 to |files|
      invariant exists f :: f in files && f.largest == largest
      invariant forall f :: f in files[..i] ==> !Before(largest, f.largest)
    {
      if Before(largest, files[i].largest) {
        largest := files[i].largest;
        assert files[i] in files;
      }
    }
  }

  method FindSmallestBoundaryFile(level: seq<File>, largest: IKey) returns (r: Option<File>)
    ensures r.None? ==> forall f :: f in level ==> !IsBoundary(f, largest)
    ensures r.Some? ==> r.value in level && IsBoundary(r.value, largest)
    ensures r.Some? ==> forall f :: f in level && IsBoundary(f, largest) ==> !Before(f.smallest, r.value.smallest)
  {
    r := None;
    for i := 0 to |level|
      invariant r.None? ==> forall f :: f in level[..i] ==> !IsBoundary(f, largest)
      invariant r.Some? ==> r.value in level && IsBoundary(r.value, largest)
      invariant r.Some? ==> forall f :: f in level[..i] && IsBoundary(f, largest) ==> !Before(f.smallest, r.value.smallest)
    {
      if IsBoundary(level[i], largest) {
        if r.None? || Before(level[i].smallest, r.value.smallest) {
          r := Some(level[i]);
        }
      }
    }
  }

  ghost function StartingAfter(level: seq<File>, key: IKey): set<File> {
    set f | f in level && Before(key, f.smallest)
  }

  /** Every added file continues the last user key of a file chosen before it. */
  ghost predicate Chained(out: seq<File>, from: nat) {
    forall i :: from <= i < |out| ==> exists g :: g in out[..i] && IsBoundary(out[i], g.largest)
  }

  ghost predicate IsLargest(fs: seq<File>, largest: IKey) {
    && (exists f :: f in fs && f.largest == largest)
    && (forall f :: f in fs ==> !Before(largest, f.largest))
  }

  lemma ChainedExtends(out: seq<File>, from: nat, f: File, g: File)
    requires from <= |out| && Chained(out, from) && g in out && IsBoundary(f, g.largest)
    ensures Chained(out + [f], from)
  {
    forall i | from <= i < |out + [f]|
      ensures exists x :: x in (out + [f])[..i] && IsBoundary((out + [f])[i], x.largest)
    {
      assert (out + [f])[..i] == out[..i];
      if i == |out| { assert g in (out + [f])[..i]; }
    }
  }

  lemma LargestExtends(level: seq<File>, out: seq<File>, f: File, largest: IKey)
    requires IsLargest(out, largest) && FileOk(f) && f in level && IsBoundary(f, largest)
    ensures IsLargest(out + [f], f.largest)
    ensures StartingAfter(level, f.largest) < StartingAfter(level, largest)
  {
    InRange(f, f.entries[0]);
    assert f in out + [f];
    assert f in StartingAfter(level, largest) && f !in StartingAfter(level, f.largest);
  }

  /** No file left out continues the last user key of a chosen file. */
  ghost predicate NoBoundary(level: seq<File>, chosen: seq<File>) {
    forall f, g :: f in level && f !in chosen && g in chosen ==> !IsBoundary(f, g.largest)
  }

  /** What the search for boundary files keeps. */
  ghost predicate ChainInv(level: seq<File>, chosen: seq<File>, out: seq<File>, largest: IKey) {
    && chosen <= out && Files(out) <= Files(level)
    && IsLargest(out, largest)
    && Chained(out, |chosen|)
    && (LevelSorted(level) && Contiguous(level, Files(chosen)) ==> Contiguous(level, Files(out)))
    && (NoBoundary(level, chosen) ==> out == chosen)
    && (NoDups(chosen) ==> NoDups(out))
  }

  lemma ChainStep(level: seq<File>, chosen: seq<File>, out: seq<File>, largest: IKey, f: File)
    requires forall f :: f in level ==> FileOk(f)
    requires ChainInv(level, chosen, out, largest)
    requires f in level && IsBoundary(f, largest)
    requires forall x :: x in level && IsBoundary(x, largest) ==> !Before(x.smallest, f.smallest)
    ensures ChainInv(level, chosen, out + [f], f.largest)
  {
    FilesAppend(out, [f]);
    assert IsLargest(out + [f], f.largest) by { LargestExtends(level, out, f, largest); }
    var g :| g in out && g.largest == largest;
    assert Chained(out + [f], |chosen|) by { ChainedExtends(out, |chosen|, f, g); }
    assert LevelSorted(level) && Contiguous(level, Files(chosen)) ==> Contiguous(level, Files(out + [f])) by {
      if LevelSorted(level) && Contiguous(level, Files(chosen)) {
        assert forall x :: x in out ==> x in Files(out);
        ContiguousExtends(level, out, f, g);
      }
    }
    assert f !in out by { InRange(f, f.entries[0]); }
    assert !NoBoundary(level, chosen);
    assert NoDups(out) ==> NoDups(out + [f]);
  }

  /** Extends the chosen files by the chain of files that continue the last user key. */
  method AddBoundaryInputs(level: seq<File>, chosen: seq<File>) returns (out: seq<File>)
    requires forall f :: f in level ==> FileOk(f)
    requires Files(chosen) <= Files(level)
    ensures chosen <= out && Files(out) <= Files(level)
    ensures Chained(out, |chosen|)
    ensures LevelSorted(level) && Contiguous(level, Files(chosen)) ==>
              Contiguous(level, Files(out)) && BoundaryClosed(level, Files(out))
    ensures NoBoundary(level, chosen) ==> out == chosen
    ensures NoDups(chosen) ==> NoDups(out)
  {
    out := chosen;
    if chosen == [] {
      return;
    }
    var largest := FindLargestKey(chosen);
    var searching := true;
    while searching
      invariant ChainInv(level, chosen, out, largest)
      invariant !searching ==> forall f :: f in level ==> !IsBoundary(f, largest)
      decreases StartingAfter(level, largest), searching
    {
      var next := FindSmallestBoundaryFile(level, largest);
      if next.Some? {
        var f := next.value;
        ChainStep(level, chosen, out, largest, f);
        LargestExtends(level, out, f, largest);
        out := out + [f];
        largest := f.largest;
      } else {
        searching := false;
      }
    }
    if LevelSorted(level) && Contiguous(level, Files(chosen)) {
      assert forall x :: x in out ==> x in Files(out);
      ContiguousBoundary(level, out, largest);
    }
  }

  /** A file left out stays on its side when the smallest boundary file `f` of `g` is taken in. */
  lemma SideKept(level: seq<File>, f: File, g: File, x: File)
    requires FileOk(f) && FileOk(g) && FileOk(x) && LevelSorted(level) && f in level && x in level && x != f
    requires IsBoundary(f, g.largest)
    requires forall y :: y in level && IsBoundary(y, g.largest) ==> !Before(y.smallest, f.smallest)
    ensures Before(x.largest, g.smallest) ==> Before(x.largest, f.smallest)
    ensures Before(g.largest, x.smallest) ==> Before(f.largest, x.smallest)
  {
    InRange(x, x.entries[0]);
    InRange(g, g.entries[0]);
    InRange(f, f.entries[0]);
    var i, j :| 0 <= i < |level| && 0 <= j < |level| && level[i] == x && level[j] == f;
    if Before(g.largest, x.smallest) {
      assert i < j ==> IsBoundary(x, g.largest) && Before(x.smallest, f.smallest);
    }
  }

  lemma ContiguousExtends(level: seq<File>, out: seq<File>, f: File, g: File)
    requires forall x :: x in level ==> FileOk(x)
    requires forall x :: x in out ==> x in level
    requires LevelSorted(level) && Contiguous(level, Files(out))
    requires f in level && g in out && IsBoundary(f, g.largest)
    requires forall x :: x in level && IsBoundary(x, g.largest) ==> !Before(x.smallest, f.smallest)
    ensures Contiguous(level, Files(out + [f]))
  {
    FilesAppend(out, [f]);
    assert Files([f]) == {f} && g in Files(out);
    forall x | x in level && x !in Files(out + [f])
      ensures (forall y :: y in Files(out + [f]) ==> Before(x.largest, y.smallest)) ||
              (forall y :: y in Files(out + [f]) ==> Before(y.largest, x.smallest))
    {
      assert x !in Files(out);
      SideKept(level, f, g, x);
    }
  }

  lemma ContiguousBoundary(level: seq<File>, out: seq<File>, largest: IKey)
    requires forall x :: x in level ==> FileOk(x)
    requires forall x :: x in out ==> x in level
    requires Contiguous(level, Files(out))
    requires IsLargest(out, largest)
    requires forall x :: x in level ==> !IsBoundary(x, largest)
    ensures BoundaryClosed(level, Files(out))
  {
    var h :| h in out && h.largest == largest;
    forall f, g | f in level && f !in Files(out) && g in Files(out) && Before(g.largest, f.smallest)
      ensures g.largest.ukey < f.smallest.ukey
    {
      InRange(f, f.entries[0]); InRange(g, g.entries[0]);
      assert h in Files(out);
      assert Before(h.largest, f.smallest) by {
        assert !Before(f.largest, g.smallest);
      }
    }
  }

  // ---------------------------------------------------------------- the inputs of a compaction

  /** `lo..hi` is the smallest user key range that covers the files. */
  ghost predicate IsUserRange(fs: set<File>, lo: UserKey, hi: UserKey) {
    && (forall g :: g in fs ==> lo <= g.smallest.ukey && g.largest.ukey <= hi)
    && (exists g :: g in fs && g.smallest.ukey == lo)
    && (exists g :: g in fs && g.largest.ukey == hi)
  }

  method GetRange(files: seq<File>) returns (smallest: IKey, largest: IKey)
    requires files != []
    ensures forall g :: g in files ==> !Before(g.smallest, smallest) && !Before(largest, g.largest)
    ensures exists g :: g in files && g.smallest == smallest
    ensures exists g :: g in files && g.largest == largest
    ensures IsUserRange(Files(files), smallest.ukey, largest.ukey)
  {
    smallest, largest := files[0].smallest, files[0].largest;
    for i := 1 to |files|
      invariant forall g :: g in files[..i] ==> !Before(g.smallest, smallest) && !Before(largest, g.largest)
      invariant exists g :: g in files && g.smallest == smallest
      invariant exists g :: g in files && g.largest == largest
    {
      assert files[i] in files;
      if Before(files[i].smallest, smallest) { smallest := files[i].smallest; }
      if Before(largest, files[i].largest) { largest := files[i].largest; }
    }
    var g :| g in files && g.smallest == smallest;
    var h :| h in files && h.largest == largest;
    assert g in Files(files) && h in Files(files);
  }

  /** Two files share no user key range. */
  predicate Apart(f: File, g: File) {
    f.largest.ukey < g.smallest.ukey || g.largest.ukey < f.smallest.ukey
  }

  ghost predicate UserDisjoint(level: seq<File>, chosen: set<File>) {
    forall f, g :: f in level && f !in chosen && g in chosen ==> Apart(f, g)
  }

  /** What the first choice of files guarantees before `SetupOtherInputs` completes it. */
  ghost predicate SeedOk(v: Version, level: nat, chosen: set<File>)
    requires level < |v|
  {
    && chosen != {} && chosen <= Files(v[level])
    && (if level == 0 then UserDisjoint(v[0], chosen) else Contiguous(v[level], chosen))
  }

  /** The property of completed inputs that makes a compaction safe, except for tombstones. */
  ghost predicate InputsOk(v: Version, level: nat, in0: set<File>, in1: set<File>)
    requires level + 1 < |v|
  {
    && SeedOk(v, level, in0)
    && (level > 0 ==> BoundaryClosed(v[level], in0))
    && in1 <= Files(v[level + 1])
    && exists lo, hi :: IsUserRange(in0, lo, hi) && Covers(v[level + 1], in1, lo, hi)
  }

  ghost predicate Covers(level: seq<File>, in1: set<File>, lo: UserKey, hi: UserKey) {
    forall f :: f in level ==> (f in in1 <==> Overlaps(f, Some(lo), Some(hi)))
  }

  lemma OverlappingContiguous(level: seq<File>, b: Bound, e: Bound)
    requires LevelSorted(level) && forall f :: f in level ==> FileOk(f)
    ensures Contiguous(level, Files(Overlapping(level, b, e)))
  {
    var chosen := Overlapping(level, b, e);
    forall f | f in level && f !in Files(chosen)
      ensures (forall g :: g in Files(chosen) ==> Before(f.largest, g.smallest)) ||
              (forall g :: g in Files(chosen) ==> Before(g.largest, f.smallest))
    {
      var i :| 0 <= i < |level| && level[i] == f;
      InRange(f, f.entries[0]);
      var early := b.Some? && f.largest.ukey < b.value;
      forall g | g in Files(chosen)
        ensures if early then Before(f.largest, g.smallest) else Before(g.largest, f.smallest)
      {
        var j :| 0 <= j < |level| && level[j] == g;
        InRange(g, g.entries[0]);
        assert i != j;
      }
    }
  }

  lemma ClosedUserDisjoint(level: seq<File>, b: Bound, e: Bound)
    requires RangeClosed(level, b, e)
    ensures UserDisjoint(level, Files(Overlapping(level, b, e)))
  {
  }

  function TotalSize(files: seq<File>): nat {
    if files == [] then 0 else files[0].size + TotalSize(files[1..])
  }

  lemma CoversInputs(files: seq<File>, all: seq<File>, start: IKey, stop: IKey, level0: bool, b: Bound, e: Bound, in0: seq<File>)
    requires (forall f :: f in files ==> FileOk(f)) && Files(in0) <= Files(files) && forall f :: f in in0 ==> f in all
    requires forall g :: g in all ==> !Before(g.smallest, start) && !Before(stop, g.largest)
    requires Wider(b, e, Some(start.ukey), Some(stop.ukey))
    ensures Files(in0) <= Files(Overlapping(files, b, e))
  {
    forall f | f in Files(in0) ensures f in Files(Overlapping(files, b, e)) {
      assert f in Files(files);
      InRange(f, f.entries[0]);
      assert Overlaps(f, b, e);
    }
  }

  lemma RangeSeedAll(v: Version, level: nat, b: Bound, e: Bound)
    requires VersionOk(v) && level + 1 < NUM_LEVELS && Overlapping(v[level], b, e) != []
    requires level == 0 ==> RangeClosed(v[0], b, e)
    ensures SeedOk(v, level, Files(Overlapping(v[level], b, e))) && NoDups(Overlapping(v[level], b, e))
  {
    var all := Overlapping(v[level], b, e);
    assert all[..|all|] == all;
    hide *;
    RangeSeedOk(v, level, b, e, |all|);
  }

  /** All files of the level that overlap the whole range of a compaction, with their boundary files. */
  method Expand(v: Version, level: nat, in0: seq<File>, in1: seq<File>) returns (expanded0: seq<File>)
    requires VersionOk(v) && level + 1 < NUM_LEVELS && SeedOk(v, level, Files(in0)) && in0 != []
    ensures NoDups(expanded0) && SeedOk(v, level, Files(expanded0))
    ensures level > 0 ==> BoundaryClosed(v[level], Files(expanded0))
    ensures Files(in0) <= Files(expanded0) && WidestFor(v[level], level == 0, in0 + in1, expanded0)
  {
    LevelReady(v, level);
    assert Files(in0) <= Files(v[level]) && in0[0] in Files(in0);
    hide VersionOk, SeedOk, BoundaryClosed, IsUserRange, Chained, RangeClosed, Wider, Least;
    var start, stop := GetRange(in0 + in1);
    var b, e;
    expanded0, b, e := GetOverlappingInputs(v[level], level == 0, Some(start.ukey), Some(stop.ukey));
    CoversInputs(v[level], in0 + in1, start, stop, level == 0, b, e, in0);
    assert expanded0 != [] by { assert in0[0] in Files(expanded0); }
    RangeSeedAll(v, level, b, e);
    expanded0 := CompleteUpper(v, level, expanded0);
    WidestIntro(v[level], level == 0, in0 + in1, expanded0, start.ukey, stop.ukey, b, e);
  }

  /** Exactly the files that overlap the whole user key range of `all` (at level 0, the least range
      around it that no file sticks out of), followed by the chain of their boundary files. */
  ghost predicate WidestFor(files: seq<File>, level0: bool, all: seq<File>, wide: seq<File>) {
    exists lo, hi, b, e :: RangeFor(files, level0, all, lo, hi, b, e) && StartsWith(files, wide, b, e)
  }

  ghost predicate RangeFor(files: seq<File>, level0: bool, all: seq<File>, lo: UserKey, hi: UserKey, b: Bound, e: Bound) {
    && IsUserRange(Files(all), lo, hi)
    && if level0 then RangeClosed(files, b, e) && Wider(b, e, Some(lo), Some(hi)) && Least(files, Some(lo), Some(hi), b, e)
       else b == Some(lo) && e == Some(hi)
  }

  ghost predicate StartsWith(files: seq<File>, wide: seq<File>, b: Bound, e: Bound) {
    Overlapping(files, b, e) <= wide && Chained(wide, |Overlapping(files, b, e)|)
  }

  lemma WidestIntro(files: seq<File>, level0: bool, all: seq<File>, wide: seq<File>, lo: UserKey, hi: UserKey, b: Bound, e: Bound)
    requires RangeFor(files, level0, all, lo, hi, b, e) && StartsWith(files, wide, b, e)
    ensures WidestFor(files, level0, all, wide)
  {
    hide RangeFor, StartsWith;
  }

  lemma InputsIntro(v: Version, level: nat, in0: set<File>, in1: set<File>)
    requires level + 1 < |v| && SeedOk(v, level, in0) && (level > 0 ==> BoundaryClosed(v[level], in0))
    requires in1 <= Files(v[level + 1]) && exists lo, hi :: IsUserRange(in0, lo, hi) && Covers(v[level + 1], in1, lo, hi)
    ensures InputsOk(v, level, in0, in1)
  {
    hide SeedOk, BoundaryClosed, IsUserRange, Covers;
  }

  /** Completes the inputs. `base0` and `base1` are the seed with its boundary files and the files of the
      next level they overlap; `wide0` and `wide1` are the same from all files of this level in the range
      of both. The wide inputs are taken exactly if they are more here, no more there, and below `limit`. */
  method SetupOtherInputs(v: Version, level: nat, seed: seq<File>, limit: nat)
    returns (in0: seq<File>, in1: seq<File>, ghost base0: seq<File>, ghost base1: seq<File>, ghost wide0: seq<File>, ghost wide1: seq<File>)
    requires VersionOk(v) && level + 1 < NUM_LEVELS && SeedOk(v, level, Files(seed)) && NoDups(seed)
    ensures InputsOk(v, level, Files(in0), Files(in1))
    ensures Files(seed) <= Files(in0) && NoDups(in0) && NoDups(in1)
    ensures InputsOk(v, level, Files(base0), Files(base1)) && seed <= base0 && Chained(base0, |seed|)
    ensures base1 != [] ==> Files(base0) <= Files(wide0) && WidestFor(v[level], level == 0, base0 + base1, wide0)
    ensures var larger := base1 != [] && |wide0| > |base0| && TotalSize(base1) + TotalSize(wide0) < limit;
            && (larger ==> InputsOk(v, level, Files(wide0), Files(wide1)))
            && in0 == (if larger && |wide1| == |base1| then wide0 else base0)
            && in1 == (if larger && |wide1| == |base1| then wide1 else base1)
  {
    LevelNoDups(v, level);
    assert |v| == NUM_LEVELS && Files(seed) != {};
    hide VersionOk, SeedOk, BoundaryClosed, IsUserRange, Covers, NoDups, Chained, WidestFor, InputsOk, TotalSize;
    in0 := CompleteUpper(v, level, seed);
    in1 := OverlappingNext(v, level, in0);
    InputsIntro(v, level, Files(in0), Files(in1));
    base0, base1, wide0, wide1 := in0, in1, in0, in1;
    if in1 != [] {
      assert in0 != [] by { assert Files([]) == {}; }
      var expanded0 := Expand(v, level, in0, in1);
      wide0 := expanded0;
      if |expanded0| > |in0| && TotalSize(in1) + TotalSize(expanded0) < limit {
        var expanded1 := OverlappingNext(v, level, expanded0);
        InputsIntro(v, level, Files(expanded0), Files(expanded1));
        wide1 := expanded1;
        if |expanded1| == |in1| {
          in0, in1 := expanded0, expanded1;
        }
      }
    }
  }

  method CompleteUpper(v: Version, level: nat, seed: seq<File>) returns (in0: seq<File>)
    requires VersionOk(v) && level + 1 < NUM_LEVELS && SeedOk(v, level, Files(seed)) && NoDups(seed)
    ensures NoDups(in0) && SeedOk(v, level, Files(in0)) && (level > 0 ==> BoundaryClosed(v[level], Files(in0)))
    ensures Files(seed) <= Files(in0) && seed <= in0 && Chained(in0, |seed|)
  {
    hide *;
    LevelReady(v, level);
    SeedInside(v, level, seed);
    if level == 0 { DisjointNoBoundary(v[0], seed); }
    in0 := AddBoundaryInputs(v[level], seed);
    SeedKept(v, level, seed, in0);
  }

  lemma SeedInside(v: Version, level: nat, seed: seq<File>)
    requires level < |v| && SeedOk(v, level, Files(seed))
    ensures seed != [] && Files(seed) <= Files(v[level])
    ensures if level == 0 then UserDisjoint(v[0], Files(seed)) else Contiguous(v[level], Files(seed))
  {
  }

  lemma SeedKept(v: Version, level: nat, seed: seq<File>, in0: seq<File>)
    requires level < |v| && SeedOk(v, level, Files(seed)) && seed <= in0 && Files(in0) <= Files(v[level])
    requires level == 0 ==> in0 == seed
    requires level > 0 ==> Contiguous(v[level], Files(in0))
    ensures SeedOk(v, level, Files(in0)) && Files(seed) <= Files(in0)
  {
    assert in0[..|seed|] == seed;
    assert forall f :: f in seed ==> f in in0;
  }

  lemma DisjointNoBoundary(level: seq<File>, chosen: seq<File>)
    requires forall f :: f in level ==> FileOk(f)
    requires Files(chosen) <= Files(level) && UserDisjoint(level, Files(chosen))
    ensures NoBoundary(level, chosen)
  {
    forall f, g | f in level && f !in chosen && g in chosen ensures !IsBoundary(f, g.largest) {
      assert g in Files(chosen) && f !in Files(chosen) && g in level;
      InRange(g, g.entries[0]); InRange(f, f.entries[0]);
    }
  }

  method OverlappingNext(v: Version, level: nat, in0: seq<File>) returns (in1: seq<File>)
    requires |v| == NUM_LEVELS && level + 1 < NUM_LEVELS && Files(in0) != {} && NoDups(v[level + 1])
    ensures Files(in1) <= Files(v[level + 1]) && NoDups(in1)
    ensures exists lo, hi :: IsUserRange(Files(in0), lo, hi) && Covers(v[level + 1], Files(in1), lo, hi)
  {
    assert in0 != [];
    var smallest, largest := GetRange(in0);
    var b, e;
    in1, b, e := GetOverlappingInputs(v[level + 1], false, Some(smallest.ukey), Some(largest.ukey));
    OverlappingNoDups(v[level + 1], b, e);
    assert Covers(v[level + 1], Files(in1), smallest.ukey, largest.ukey);
  }

  lemma LevelNoDups(v: Version, level: nat)
    requires VersionOk(v) && level + 1 < NUM_LEVELS
    ensures NoDups(v[level]) && NoDups(v[level + 1])
  {
    assert LevelOk(v[level]) && LevelOk(v[level + 1]);
    assert forall f :: !BySmallest(f, f);
  }

  /** An automatic compaction starts from one file of the level. */
  method PickCompaction(v: Version, level: nat, picked: File, limit: nat)
    returns (in0: seq<File>, in1: seq<File>)
    requires VersionOk(v) && level + 1 < NUM_LEVELS && picked in v[level]
    ensures InputsOk(v, level, Files(in0), Files(in1)) && picked in in0 && NoDups(in0) && NoDups(in1)
  {
    LevelNoDups(v, level);
    var seed := [picked];
    InRange(picked, picked.entries[0]);
    if level == 0 {
      var b, e;
      seed, b, e := GetOverlappingInputs(v[0], true, Some(picked.smallest.ukey), Some(picked.largest.ukey));
      OverlappingNoDups(v[0], b, e);
      ClosedUserDisjoint(v[0], b, e);
      assert picked in seed;
    } else {
      SingletonContiguous(v[level], picked);
      assert Files(seed) == {picked};
    }
    assert picked in Files(seed);
    ghost var base0, base1, wide0, wide1;
    in0, in1, base0, base1, wide0, wide1 := SetupOtherInputs(v, level, seed, limit);
  }

  lemma SingletonContiguous(level: seq<File>, f: File)
    requires LevelSorted(level) && f in level
    ensures Contiguous(level, {f})
  {
    var i :| 0 <= i < |level| && level[i] == f;
  }

  /** How many of the chosen files a manual compaction takes: up to the first that makes it large enough. */
  method CutOff(inputs: seq<File>, fileLimit: nat) returns (n: nat)
    requires inputs != []
    ensures 1 <= n <= |inputs|
    ensures TotalSize(inputs[..n - 1]) < fileLimit || n == 1
    ensures n == |inputs| || TotalSize(inputs[..n]) >= fileLimit
  {
    var total := inputs[0].size;
    n := 1;
    assert inputs[..1] == [inputs[0]];
    while n < |inputs| && total < fileLimit
      invariant 1 <= n <= |inputs| && total == TotalSize(inputs[..n])
      invariant TotalSize(inputs[..n - 1]) < fileLimit || n == 1
    {
      TotalSizeLast(inputs[..n + 1]);
      assert inputs[..n + 1][..n] == inputs[..n];
      total := total + inputs[n].size;
      n := n + 1;
    }
  }

  lemma {:induction false} TotalSizeLast(files: seq<File>)
    requires files != []
    ensures TotalSize(files) == TotalSize(files[..|files| - 1]) + files[|files| - 1].size
  {
    if |files| > 1 {
      TotalSizeLast(files[1..]);
      assert files[1..][..|files| - 2] == files[..|files| - 1][1..];
    }
  }

  lemma RangeSeedOk(v: Version, level: nat, b: Bound, e: Bound, n: nat)
    requires VersionOk(v) && level + 1 < NUM_LEVELS && 1 <= n <= |Overlapping(v[level], b, e)|
    requires level == 0 ==> RangeClosed(v[0], b, e) && n == |Overlapping(v[0], b, e)|
    ensures SeedOk(v, level, Files(Overlapping(v[level], b, e)[..n])) && NoDups(Overlapping(v[level], b, e)[..n])
  {
    hide *;
    LevelNoDups(v, level);
    LevelReady(v, level);
    var files := v[level];
    OverlappingNoDups(files, b, e);
    PrefixFiles(files, b, e, n);
    if level == 0 {
      ClosedUserDisjoint(files, b, e);
    } else {
      PrefixContiguous(files, b, e, n);
    }
    SeedIntro(v, level, Files(Overlapping(files, b, e)[..n]));
    PrefixNoDups(Overlapping(files, b, e), n);
  }

  lemma LevelReady(v: Version, level: nat)
    requires VersionOk(v) && level < NUM_LEVELS
    ensures |v| == NUM_LEVELS && (forall f :: f in v[level] ==> FileOk(f)) && (level > 0 ==> LevelSorted(v[level]))
  {
    hide FileOk, LevelSorted, NewerAbove, Level0Ok;
    assert LevelOk(v[level]);
  }

  lemma SeedIntro(v: Version, level: nat, chosen: set<File>)
    requires level < |v| && chosen != {} && chosen <= Files(v[level])
    requires if level == 0 then UserDisjoint(v[0], chosen) else Contiguous(v[level], chosen)
    ensures SeedOk(v, level, chosen)
  {
    hide UserDisjoint, Contiguous;
  }

  lemma PrefixNoDups(fs: seq<File>, n: nat)
    requires NoDups(fs) && n <= |fs|
    ensures NoDups(fs[..n])
  {
  }

  lemma PrefixFiles(files: seq<File>, b: Bound, e: Bound, n: nat)
    requires 1 <= n <= |Overlapping(files, b, e)|
    ensures var all := Overlapping(files, b, e);
            && Files(all[..n]) != {} && Files(all[..n]) <= Files(files) && (n == |all| ==> all[..n] == all)
  {
    var all := Overlapping(files, b, e);
    assert all[..n][0] in Files(all[..n]);
    assert forall f :: f in all[..n] ==> f in all;
  }

  /** The files of a manual compaction; above level 0 cut off once they are large enough. */
  method RangeSeed(v: Version, level: nat, begin: Bound, end: Bound, fileLimit: nat) returns (seed: seq<File>)
    requires VersionOk(v) && level + 1 < NUM_LEVELS
    ensures seed == [] <==> forall f :: f in v[level] ==> !Overlaps(f, begin, end)
    ensures seed != [] ==> SeedOk(v, level, Files(seed)) && NoDups(seed)
  {
    assert |v| == NUM_LEVELS;
    hide VersionOk, SeedOk, NoDups;
    var inputs, b, e := GetOverlappingInputs(v[level], level == 0, begin, end);
    if inputs == [] {
      assert level == 0 ==> forall f :: f in v[level] && Overlaps(f, begin, end) ==> Overlaps(f, b, e);
      return [];
    }
    assert inputs[0] in inputs;
    var n := |inputs|;
    if level == 0 {
      NoSpuriousRestart(v[0], begin, end, b, e);
    } else {
      n := CutOff(inputs, fileLimit);
    }
    RangeSeedOk(v, level, b, e, n);
    seed := inputs[..n];
  }

  /** A manual compaction takes a whole range, or its beginning. */
  method CompactRange(v: Version, level: nat, begin: Bound, end: Bound, fileLimit: nat, limit: nat)
    returns (r: Option<(seq<File>, seq<File>)>)
    requires VersionOk(v) && level + 1 < NUM_LEVELS
    ensures r.None? <==> forall f :: f in v[level] ==> !Overlaps(f, begin, end)
    ensures r.Some? ==> InputsOk(v, level, Files(r.value.0), Files(r.value.1)) && NoDups(r.value.0) && NoDups(r.value.1)
  {
    var seed := RangeSeed(v, level, begin, end, fileLimit);
    if seed == [] {
      return None;
    }
    hide VersionOk, SeedOk, InputsOk;
    var in0, in1;
    ghost var base0, base1, wide0, wide1;
    in0, in1, base0, base1, wide0, wide1 := SetupOtherInputs(v, level, seed, limit);
    r := Some((in0, in1));
  }

  /** If no file overlaps the requested range, the range is closed already and stays as it is. */
  lemma NoSpuriousRestart(files: seq<File>, begin: Bound, end: Bound, b: Bound, e: Bound)
    requires Overlapping(files, b, e) != []
    requires Least(files, begin, end, b, e) && Wider(b, e, begin, end)
    ensures exists f :: f in files && Overlaps(f, begin, end)
  {
    if forall f :: f in files ==> !Overlaps(f, begin, end) {
      assert Wider(begin, end, begin, end) && RangeClosed(files, begin, end);
      assert Wider(begin, end, b, e);
      var f := Overlapping(files, b, e)[0];
      assert f in Overlapping(files, b, e);
      assert Overlaps(f, begin, end);
    }
  }

  lemma {:induction false} OverlappingSorted(level: seq<File>, b: Bound, e: Bound)
    requires LevelSorted(level)
    ensures LevelSorted(Overlapping(level, b, e))
  {
    if level != [] {
      var front := level[..|level| - 1];
      OverlappingSorted(front, b, e);
      var r := Overlapping(front, b, e);
      assert forall i :: 0 <= i < |r| ==> r[i] in r;
    }
  }

  lemma PrefixContiguous(level: seq<File>, b: Bound, e: Bound, n: nat)
    requires LevelSorted(level) && forall f :: f in level ==> FileOk(f)
    requires n <= |Overlapping(level, b, e)|
    ensures Contiguous(level, Files(Overlapping(level, b, e)[..n]))
  {
    var chosen := Overlapping(level, b, e);
    OverlappingContiguous(level, b, e);
    OverlappingSorted(level, b, e);
    forall f | f in level && f !in Files(chosen[..n])
      ensures (forall g :: g in Files(chosen[..n]) ==> Before(f.largest, g.smallest)) ||
              (forall g :: g in Files(chosen[..n]) ==> Before(g.largest, f.smallest))
    {
      assert forall g :: g in Files(chosen[..n]) ==> g in Files(chosen);
      if f in Files(chosen) {
        var j :| 0 <= j < |chosen| && chosen[j] == f;
        assert j >= n by {
          assert forall i :: 0 <= i < n ==> chosen[i] in chosen[..n];
        }
      }
    }
  }
}
