/** How installing a flushed table or the outcome of a compaction keeps a version well formed. */
module Transitions {
  import opened Optional
  import opened Keys
  import opened Versions
  import opened Selection
  import opened Preservation

  predicate Disjoint(f: File, g: File) {
    Before(f.largest, g.smallest) || Before(g.largest, f.smallest)
  }

  lemma SortedFromPairs(fs: seq<File>)
    requires Ordered(fs) && (forall f :: f in fs ==> FileOk(f))
    requires forall f, g :: f in fs && g in fs && f != g ==> Disjoint(f, g)
    ensures LevelSorted(fs)
  {
    forall i, j | 0 <= i < j < |fs| ensures Before(fs[i].largest, fs[j].smallest) {
      assert BySmallest(fs[i], fs[j]);
      assert fs[i] in fs && fs[j] in fs;
      InRange(fs[j], fs[j].entries[0]);
      InRange(fs[i], fs[i].entries[0]);
    }
  }

  lemma PairsFromSorted(fs: seq<File>, f: File, g: File)
    requires LevelSorted(fs) && f in fs && g in fs && f != g
    ensures Disjoint(f, g)
  {
    var i, j :| 0 <= i < |fs| && 0 <= j < |fs| && fs[i] == f && fs[j] == g;
  }

  /** A level cut down to some of its files stays well formed. */
  lemma SubLevel(fs: seq<File>, gs: seq<File>)
    requires LevelOk(fs) && Ordered(gs) && Files(gs) <= Files(fs)
    ensures LevelOk(gs)
    ensures LevelSorted(fs) ==> LevelSorted(gs)
    ensures Level0Ok(fs) ==> Level0Ok(gs)
  {
    assert forall f :: f in gs ==> f in Files(gs);
    if LevelSorted(fs) {
      forall f, g | f in gs && g in gs && f != g ensures Disjoint(f, g) {
        PairsFromSorted(fs, f, g);
      }
      SortedFromPairs(gs);
    }
  }

  // ---------------------------------------------------------------- adding a table

  /** `w` is `v` with the file `f` added to level `p`. */
  ghost predicate Placed(v: Version, p: nat, f: File, w: Version) {
    && |v| == |w| == NUM_LEVELS && p < NUM_LEVELS
    && Ordered(w[p]) && Files(w[p]) == Files(v[p]) + {f}
    && forall l :: 0 <= l < NUM_LEVELS && l != p ==> w[l] == v[l]
  }

  /** The file may go to level `p`: below level 0 only if no level down to `p` touches its user keys. */
  ghost predicate Fits(v: Version, p: nat, f: File)
    requires |v| == NUM_LEVELS
  {
    && p < NUM_LEVELS
    && (p > 0 ==> forall l, g :: 0 <= l <= p && g in v[l] ==> Apart(f, g))
    && (forall g :: g in v[p] ==> g.number < f.number)
  }

  lemma ApartContents(f: File, g: File, d: Entry, e: Entry)
    requires FileOk(f) && FileOk(g) && Apart(f, g) && d in f.entries && e in g.entries
    ensures d.ik.ukey != e.ik.ukey
  {
    InRange(f, d);
    InRange(g, e);
  }

  lemma PlacedContent(v: Version, p: nat, f: File, w: Version)
    requires Placed(v, p, f, w)
    ensures LevelContent(w[p]) == LevelContent(v[p]) + Content(f.entries)
    ensures All(w) == All(v) + Content(f.entries)
  {
    UnionContent(Files(v[p]), {f});
    SingleContent(f);
    forall e | e in All(v) + Content(f.entries) ensures e in All(w) {
      if e in Content(f.entries) {
        assert e in LevelContent(w[p]);
      } else {
        var l :| 0 <= l < |v| && e in LevelContent(v[l]);
        assert e in LevelContent(w[l]);
      }
    }
    forall e | e in All(w) ensures e in All(v) + Content(f.entries) {
      var l :| 0 <= l < |w| && e in LevelContent(w[l]);
      assert e in LevelContent(v[l]) || e in Content(f.entries);
    }
  }

  lemma PlacedSorted(fs: seq<File>, f: File, gs: seq<File>)
    requires LevelOk(fs) && LevelSorted(fs) && Ordered(gs) && Files(gs) == Files(fs) + {f} && FileOk(f)
    requires forall g :: g in fs ==> Apart(f, g)
    ensures LevelSorted(gs)
  {
    assert forall g :: g in gs ==> g in Files(gs);
    forall a, b | a in gs && b in gs && a != b ensures Disjoint(a, b) {
      if a == f {
        assert b in Files(fs) && Apart(f, b);
      } else if b == f {
        assert a in Files(fs) && Apart(f, a);
      } else {
        assert a in Files(fs) && b in Files(fs);
        PairsFromSorted(fs, a, b);
      }
    }
    SortedFromPairs(gs);
  }

  lemma PlacedLevel0(fs: seq<File>, f: File, gs: seq<File>)
    requires LevelOk(fs) && Level0Ok(fs) && Files(gs) == Files(fs) + {f}
    requires forall g :: g in fs ==> g.number < f.number
    requires NewerThan(Content(f.entries), LevelContent(fs))
    ensures Level0Ok(gs)
  {
    forall a, b | a in gs && b in gs && a.number > b.number
      ensures NewerThan(Content(a.entries), Content(b.entries))
    {
      assert a in Files(gs) && b in Files(gs);
      assert a in fs || a == f;
      assert b in fs || b == f;
      if a == f {
        assert b in Files(fs);
        assert forall e :: e in Content(b.entries) ==> e in LevelContent(fs);
      }
    }
  }

  lemma PlacedLevelOk(v: Version, p: nat, f: File, w: Version)
    requires VersionOk(v) && Placed(v, p, f, w) && Fits(v, p, f) && FileOk(f)
    requires NewerThan(Content(f.entries), All(v))
    ensures LevelOk(w[p]) && (p > 0 ==> LevelSorted(w[p])) && (p == 0 ==> Level0Ok(w[p]))
  {
    assert LevelOk(v[p]);
    assert LevelOk(w[p]) by {
      assert forall g :: g in w[p] ==> g in Files(w[p]);
      assert forall g :: g in w[p] ==> g in v[p] || g == f;
    }
    if p > 0 {
      assert forall g :: g in v[p] ==> Apart(f, g);
      PlacedSorted(v[p], f, w[p]);
    } else {
      assert forall e :: e in LevelContent(v[0]) ==> e in All(v);
      PlacedLevel0(v[0], f, w[0]);
    }
  }

  lemma PlacedNewerAbove(v: Version, p: nat, f: File, w: Version)
    requires VersionOk(v) && Placed(v, p, f, w) && Fits(v, p, f) && FileOk(f)
    requires NewerThan(Content(f.entries), All(v))
    ensures NewerAbove(w)
  {
    PlacedContent(v, p, f, w);
    forall l, m | 0 <= l < m < NUM_LEVELS ensures NewerThan(LevelContent(w[l]), LevelContent(w[m])) {
      hide NewerThan, LevelContent, Fits, FileOk;
      assert NewerThan(LevelContent(v[l]), LevelContent(v[m]));
      if m == p {
        PlacedBelow(v, p, f, l);
      } else if l == p {
        PlacedOver(v, f, m);
      }
      NewerUnions(LevelContent(v[l]), if l == p then Content(f.entries) else {}, LevelContent(v[m]), if m == p then Content(f.entries) else {});
    }
  }

  /** Levels above the new table share no user key with it. */
  lemma PlacedBelow(v: Version, p: nat, f: File, l: nat)
    requires VersionOk(v) && Fits(v, p, f) && FileOk(f) && p < |v| && l < p
    ensures NewerThan(LevelContent(v[l]), Content(f.entries))
  {
    forall e, d | e in LevelContent(v[l]) && d in f.entries ensures e.ik.ukey != d.ik.ukey {
      var g :| g in Files(v[l]) && e in g.entries;
      assert LevelOk(v[l]);
      ApartContents(f, g, d, e);
    }
  }

  lemma PlacedOver(v: Version, f: File, m: nat)
    requires m < |v| && NewerThan(Content(f.entries), All(v))
    ensures NewerThan(Content(f.entries), LevelContent(v[m]))
  {
    assert forall e :: e in LevelContent(v[m]) ==> e in All(v);
  }

  lemma NewerUnions(a: set<Entry>, b: set<Entry>, c: set<Entry>, d: set<Entry>)
    requires NewerThan(a, c) && (d == {} || NewerThan(a, d)) && (b == {} || NewerThan(b, c)) && (b == {} || d == {})
    ensures NewerThan(a + b, c + d)
  {
  }

  /** Flushing entries newer than everything in the version keeps the version well formed. */
  lemma PlacedKeeps(v: Version, p: nat, f: File, w: Version)
    requires VersionOk(v) && Placed(v, p, f, w) && Fits(v, p, f) && FileOk(f)
    requires NewerThan(Content(f.entries), All(v))
    ensures VersionOk(w) && All(w) == All(v) + Content(f.entries)
  {
    hide LevelOk, Level0Ok, LevelSorted, NewerAbove, FileOk, Fits, NewerThan;
    PlacedContent(v, p, f, w);
    PlacedLevelOk(v, p, f, w);
    PlacedNewerAbove(v, p, f, w);
  }

  // ---------------------------------------------------------------- replacing compaction inputs

  /** `w` is `v` with the inputs replaced by the files `outs` at level+1. */
  ghost predicate Replaced(v: Version, level: nat, in0: set<File>, in1: set<File>, outs: set<File>, w: Version) {
    && |v| == |w| == NUM_LEVELS && level + 1 < NUM_LEVELS
    && Ordered(w[level]) && Files(w[level]) == Files(v[level]) - in0
    && Ordered(w[level + 1]) && Files(w[level + 1]) == Files(v[level + 1]) - in1 + outs
    && forall l :: 0 <= l < NUM_LEVELS && l != level && l != level + 1 ==> w[l] == v[l]
  }

  ghost predicate OutputsOk(in0: set<File>, in1: set<File>, outs: set<File>) {
    && (forall f :: f in outs ==> FileOk(f))
    && (forall f, g :: f in outs && g in outs && f != g ==> Disjoint(f, g))
    && FilesContent(outs) <= Inputs(in0, in1)
  }

  /** A level+1 file left out lies wholly before or wholly after each output. */
  lemma LeftOutDisjoint(v: Version, level: nat, in0: set<File>, in1: set<File>, outs: set<File>, f: File, o: File)
    requires VersionOk(v) && level + 1 < NUM_LEVELS && InputsOk(v, level, in0, in1) && OutputsOk(in0, in1, outs)
    requires f in Files(v[level + 1]) - in1 && o in outs
    ensures Disjoint(f, o)
  {
    hide *;
    LevelReady(v, level + 1);
    var first, a, last, b := OutputEnds(in0, in1, outs, o);
    var lo, hi := LeftOutSide(v, level, in0, in1, f);
    if f.largest.ukey < lo {
      InputsAfter(v, level, in0, in1, lo, hi, f, a, first);
    } else {
      InputsBefore(v, level, in0, in1, lo, hi, f, b, last);
    }
    EndsDisjoint(f, o);
  }

  lemma EndsDisjoint(f: File, o: File)
    requires Before(f.largest, o.smallest) || Before(o.largest, f.smallest)
    ensures Disjoint(f, o)
  {
  }

  /** The first and the last entry of an output come from input files. */
  lemma OutputEnds(in0: set<File>, in1: set<File>, outs: set<File>, o: File) returns (first: Entry, a: File, last: Entry, b: File)
    requires OutputsOk(in0, in1, outs) && o in outs
    ensures o.smallest == first.ik && o.largest == last.ik
    ensures a in in0 + in1 && first in a.entries && b in in0 + in1 && last in b.entries
  {
    assert FileOk(o);
    first, last := o.entries[0], o.entries[|o.entries| - 1];
    assert first in o.entries && last in o.entries;
    assert first in FilesContent(outs) && last in FilesContent(outs);
    hide OutputsOk, FileOk;
    a :| a in in0 + in1 && first in a.entries;
    b :| b in in0 + in1 && last in b.entries;
  }

  /** A level+1 file left out lies on one side of the inputs' user keys. */
  lemma LeftOutSide(v: Version, level: nat, in0: set<File>, in1: set<File>, f: File) returns (lo: UserKey, hi: UserKey)
    requires level + 1 < |v| && InputsOk(v, level, in0, in1) && f in Files(v[level + 1]) - in1
    ensures IsUserRange(in0, lo, hi) && Covers(v[level + 1], in1, lo, hi)
    ensures in0 <= Files(v[level]) && in1 <= Files(v[level + 1]) && (f.largest.ukey < lo || hi < f.smallest.ukey)
  {
    lo, hi :| IsUserRange(in0, lo, hi) && Covers(v[level + 1], in1, lo, hi);
    assert !Overlaps(f, Some(lo), Some(hi));
  }

  lemma InputsAfter(v: Version, level: nat, in0: set<File>, in1: set<File>, lo: UserKey, hi: UserKey, f: File, a: File, e: Entry)
    requires VersionOk(v) && level + 1 < NUM_LEVELS && in0 <= Files(v[level]) && in1 <= Files(v[level + 1])
    requires IsUserRange(in0, lo, hi) && Covers(v[level + 1], in1, lo, hi)
    requires f in Files(v[level + 1]) - in1 && f.largest.ukey < lo && a in in0 + in1 && e in a.entries
    ensures Before(f.largest, e.ik)
  {
    assert LevelOk(v[level]) && LevelOk(v[level + 1]);
    if a in in0 {
      assert a in Files(v[level]);
      InRange(a, e);
    } else {
      assert a in v[level + 1];
      InRange(a, e);
      PairsFromSorted(v[level + 1], f, a);
      InRange(f, f.entries[0]);
    }
  }

  lemma InputsBefore(v: Version, level: nat, in0: set<File>, in1: set<File>, lo: UserKey, hi: UserKey, f: File, b: File, e: Entry)
    requires VersionOk(v) && level + 1 < NUM_LEVELS && in0 <= Files(v[level]) && in1 <= Files(v[level + 1])
    requires IsUserRange(in0, lo, hi) && Covers(v[level + 1], in1, lo, hi)
    requires f in Files(v[level + 1]) - in1 && hi < f.smallest.ukey && b in in0 + in1 && e in b.entries
    ensures Before(e.ik, f.smallest)
  {
    assert LevelOk(v[level]) && LevelOk(v[level + 1]);
    if b in in0 {
      assert b in Files(v[level]);
      InRange(b, e);
    } else {
      assert b in v[level + 1];
      InRange(b, e);
      PairsFromSorted(v[level + 1], f, b);
      InRange(f, f.entries[0]);
    }
  }

  lemma ReplacedLower(v: Version, level: nat, in0: set<File>, in1: set<File>, outs: set<File>, w: Version)
    requires VersionOk(v) && level + 1 < NUM_LEVELS && InputsOk(v, level, in0, in1) && OutputsOk(in0, in1, outs)
    requires Replaced(v, level, in0, in1, outs, w)
    ensures (forall f :: f in w[level + 1] ==> FileOk(f)) && LevelSorted(w[level + 1])
  {
    var lower := w[level + 1];
    assert LevelOk(v[level + 1]);
    assert forall f :: f in lower ==> f in Files(lower);
    forall f, g | f in lower && g in lower && f != g ensures Disjoint(f, g) {
      if f in outs && g !in outs {
        LeftOutDisjoint(v, level, in0, in1, outs, g, f);
      } else if g in outs && f !in outs {
        LeftOutDisjoint(v, level, in0, in1, outs, f, g);
      } else if f !in outs {
        PairsFromSorted(v[level + 1], f, g);
      }
    }
    SortedFromPairs(lower);
  }

  lemma ReplacedContent(v: Version, level: nat, in0: set<File>, in1: set<File>, outs: set<File>, w: Version)
    requires Replaced(v, level, in0, in1, outs, w)
    requires in0 <= Files(v[level]) && in1 <= Files(v[level + 1])
    ensures LevelContent(w[level]) == FilesContent(Files(v[level]) - in0)
    ensures LevelContent(w[level + 1]) == LeftOut(v, level, in1) + FilesContent(outs)
    ensures LevelContent(v[level]) == FilesContent(Files(v[level]) - in0) + FilesContent(in0)
    ensures LevelContent(v[level + 1]) == LeftOut(v, level, in1) + FilesContent(in1)
    ensures Inputs(in0, in1) == FilesContent(in0) + FilesContent(in1)
  {
    UnionContent(Files(v[level + 1]) - in1, outs);
    UnionContent(Files(v[level]) - in0, in0);
    UnionContent(Files(v[level + 1]) - in1, in1);
    UnionContent(in0, in1);
    assert Files(v[level]) - in0 + in0 == Files(v[level]);
    assert Files(v[level + 1]) - in1 + in1 == Files(v[level + 1]);
  }

  /** The entries of the two levels a compaction works on, before and after. */
  datatype Parts = Parts(rest: set<Entry>, in0: set<Entry>, left: set<Entry>, in1: set<Entry>, out: set<Entry>)

  ghost predicate Split(v: Version, level: nat, w: Version, p: Parts) {
    && |v| == |w| == NUM_LEVELS && level + 1 < NUM_LEVELS
    && LevelContent(v[level]) == p.rest + p.in0 && LevelContent(v[level + 1]) == p.left + p.in1
    && LevelContent(w[level]) == p.rest && LevelContent(w[level + 1]) == p.left + p.out
    && p.out <= p.in0 + p.in1
    && forall l :: 0 <= l < NUM_LEVELS && l != level && l != level + 1 ==> LevelContent(w[l]) == LevelContent(v[l])
  }

  lemma SplitNewerAboveAfter(v: Version, level: nat, w: Version, p: Parts)
    requires Split(v, level, w, p) && NewerAbove(v) && NewerThan(p.rest, p.in0)
    ensures NewerAbove(w)
  {
    assert NewerThan(LevelContent(v[level]), LevelContent(v[level + 1]));
    forall l, m | 0 <= l < m < NUM_LEVELS ensures NewerThan(LevelContent(w[l]), LevelContent(w[m])) {
      assert NewerThan(LevelContent(v[l]), LevelContent(v[m]));
      if l < level && m == level + 1 {
        assert NewerThan(LevelContent(v[l]), LevelContent(v[level]));
      } else if l == level + 1 {
        assert NewerThan(LevelContent(v[level]), LevelContent(v[m]));
      }
    }
  }

  /** No entry is both an input and in a file that stays. */
  lemma SplitApart(v: Version, level: nat, w: Version, p: Parts, l: nat, e: Entry)
    requires Split(v, level, w, p) && NewerAbove(v) && NewerThan(p.rest, p.in0) && p.left !! (p.in0 + p.in1)
    requires e in p.in0 + p.in1 && l < NUM_LEVELS && e in LevelContent(w[l])
    ensures e in p.out
  {
    var here, upper, lower := LevelContent(v[l]), LevelContent(v[level]), LevelContent(v[level + 1]);
    assert NewerThan(upper, lower);
    assert l < level ==> NewerThan(here, upper) && NewerThan(here, lower);
    assert l > level + 1 ==> NewerThan(upper, here) && NewerThan(lower, here);
  }

  lemma SplitAll(v: Version, level: nat, w: Version, p: Parts)
    requires Split(v, level, w, p) && NewerAbove(v) && NewerThan(p.rest, p.in0) && p.left !! (p.in0 + p.in1)
    ensures All(w) == All(v) - (p.in0 + p.in1 - p.out)
  {
    forall e | e in All(w) ensures e in All(v) - (p.in0 + p.in1 - p.out) {
      var l :| 0 <= l < |w| && e in LevelContent(w[l]);
      if e in p.in0 + p.in1 { SplitApart(v, level, w, p, l, e); }
      assert e in LevelContent(v[l]) || e in LevelContent(v[level]);
    }
    forall e | e in All(v) - (p.in0 + p.in1 - p.out) ensures e in All(w) {
      var l :| 0 <= l < |v| && e in LevelContent(v[l]);
      assert e in LevelContent(w[l]) || e in LevelContent(w[level + 1]);
    }
  }

  ghost function PartsOf(v: Version, level: nat, in0: set<File>, in1: set<File>, outs: set<File>): Parts
    requires level + 1 < |v|
  {
    Parts(FilesContent(Files(v[level]) - in0), FilesContent(in0), LeftOut(v, level, in1), FilesContent(in1), FilesContent(outs))
  }

  lemma ReplacedSplit(v: Version, level: nat, in0: set<File>, in1: set<File>, outs: set<File>, w: Version)
    requires Replaced(v, level, in0, in1, outs, w) && FilesContent(outs) <= Inputs(in0, in1)
    requires in0 <= Files(v[level]) && in1 <= Files(v[level + 1])
    ensures Split(v, level, w, PartsOf(v, level, in0, in1, outs))
    ensures Inputs(in0, in1) == FilesContent(in0) + FilesContent(in1)
  {
    ReplacedContent(v, level, in0, in1, outs, w);
  }

  lemma PartsApart(v: Version, level: nat, in0: set<File>, in1: set<File>)
    requires VersionOk(v) && level + 1 < NUM_LEVELS && in0 <= Files(v[level]) && in1 <= Files(v[level + 1])
    ensures LeftOut(v, level, in1) !! Inputs(in0, in1)
  {
    forall e | e in LeftOut(v, level, in1) ensures e !in Inputs(in0, in1) {
      LeftOutApart(v, level, in0, in1, e);
    }
  }

  /** Replacing the inputs of a compaction by a subset of their entries one level down. */
  lemma ReplacedKeeps(v: Version, level: nat, in0: set<File>, in1: set<File>, outs: set<File>, w: Version)
    requires VersionOk(v) && level + 1 < NUM_LEVELS && InputsOk(v, level, in0, in1) && OutputsOk(in0, in1, outs)
    requires Replaced(v, level, in0, in1, outs, w)
    requires forall f, g :: f in w[level + 1] && g in w[level + 1] && f.number == g.number ==> f == g
    ensures VersionOk(w) && All(w) == All(v) - (Inputs(in0, in1) - FilesContent(outs))
  {
    ReplacedOrder(v, level, in0, in1, outs, w);
    ReplacedLevels(v, level, in0, in1, outs, w);
  }

  lemma ReplacedOrder(v: Version, level: nat, in0: set<File>, in1: set<File>, outs: set<File>, w: Version)
    requires VersionOk(v) && level + 1 < NUM_LEVELS && InputsOk(v, level, in0, in1) && OutputsOk(in0, in1, outs)
    requires Replaced(v, level, in0, in1, outs, w)
    ensures NewerAbove(w) && All(w) == All(v) - (Inputs(in0, in1) - FilesContent(outs))
  {
    var p := PartsOf(v, level, in0, in1, outs);
    ReplacedSplit(v, level, in0, in1, outs, w);
    InputsRestNewer(v, level, in0, in1);
    PartsApart(v, level, in0, in1);
    SplitNewerAboveAfter(v, level, w, p);
    SplitAll(v, level, w, p);
  }

  lemma ReplacedLevels(v: Version, level: nat, in0: set<File>, in1: set<File>, outs: set<File>, w: Version)
    requires VersionOk(v) && level + 1 < NUM_LEVELS && InputsOk(v, level, in0, in1) && OutputsOk(in0, in1, outs)
    requires Replaced(v, level, in0, in1, outs, w)
    requires forall f, g :: f in w[level + 1] && g in w[level + 1] && f.number == g.number ==> f == g
    ensures forall l :: 0 <= l < NUM_LEVELS ==> LevelOk(w[l])
    ensures Level0Ok(w[0]) && forall l :: 1 <= l < NUM_LEVELS ==> LevelSorted(w[l])
  {
    var upper, lower := w[level], w[level + 1];
    ReplacedLower(v, level, in0, in1, outs, w);
    assert LevelOk(lower);
    assert LevelOk(upper) && (level == 0 ==> Level0Ok(upper)) && (level > 0 ==> LevelSorted(upper)) by {
      assert LevelOk(v[level]);
      SubLevel(v[level], upper);
    }
    forall l | 0 <= l < NUM_LEVELS ensures LevelOk(w[l]) && (l == 0 ==> Level0Ok(w[l])) && (l > 0 ==> LevelSorted(w[l])) {
      if l != level && l != level + 1 {
        assert w[l] == v[l];
      }
    }
  }
}
