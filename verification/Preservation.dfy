/** A compaction keeps every read at or above the smallest live snapshot, except where the code's
    choice of level+1 inputs lets a dropped tombstone uncover an older entry. */
module Preservation {
  import opened Optional
  import opened Keys
  import opened Versions
  import opened Selection
  import opened Compactions

  ghost function Inputs(in0: set<File>, in1: set<File>): set<Entry> {
    FilesContent(in0 + in1)
  }

  /** The level+1 entries that do not take part in the compaction. */
  ghost function LeftOut(v: Version, level: nat, in1: set<File>): set<Entry>
    requires level + 1 < |v|
  {
    FilesContent(Files(v[level + 1]) - in1)
  }

  ghost function DropSet(v: Version, level: nat, in0: set<File>, in1: set<File>, ss: nat): set<Entry> {
    set e | e in Inputs(in0, in1) && Dropped(v, level, Inputs(in0, in1), ss, e)
  }

  /** The exact condition: where a dropped tombstone is what readers at `ss` see, nothing left out at
      level+1 may show a value from under it. */
  ghost predicate NoResurrection(v: Version, level: nat, in0: set<File>, in1: set<File>, ss: nat)
    requires level + 1 < |v|
  {
    forall e :: e in Inputs(in0, in1) && Obsolete(v, level, ss, e) && Newest(All(v), e.ik.ukey, ss, e) ==>
      ValueOf(Find(LeftOut(v, level, in1), e.ik.ukey, ss)) == None
  }

  /** Entries of `f` are never older than entries of `g` for the same user key. */
  predicate Ahead(f: File, g: File) {
    Apart(f, g) || Before(f.largest, g.smallest)
  }

  lemma AheadNewer(f: File, g: File, e: Entry, d: Entry)
    requires FileOk(f) && FileOk(g) && Ahead(f, g)
    requires e in f.entries && d in g.entries && e.ik.ukey == d.ik.ukey
    ensures e.ik.seqno > d.ik.seqno
  {
    InRange(f, e);
    InRange(g, d);
  }

  lemma RestAhead(level: seq<File>, chosen: set<File>, f: File, g: File)
    requires UserDisjoint(level, chosen) || (Contiguous(level, chosen) && BoundaryClosed(level, chosen))
    requires f in level && f !in chosen && g in chosen
    ensures Ahead(f, g)
  {
    if !UserDisjoint(level, chosen) && !Before(f.largest, g.smallest) {
      assert Before(g.largest, f.smallest);
    }
  }

  /** Files of the input level that stay behind hold newer entries than the inputs. */
  lemma RestNewer(level: seq<File>, chosen: set<File>)
    requires UserDisjoint(level, chosen) || (Contiguous(level, chosen) && BoundaryClosed(level, chosen))
    requires chosen <= Files(level) && forall f :: f in level ==> FileOk(f)
    ensures NewerThan(FilesContent(Files(level) - chosen), FilesContent(chosen))
  {
    forall e, d | e in FilesContent(Files(level) - chosen) && d in FilesContent(chosen) && e.ik.ukey == d.ik.ukey
      ensures e.ik.seqno > d.ik.seqno
    {
      var f :| f in Files(level) - chosen && e in f.entries;
      var g :| g in chosen && d in g.entries;
      assert g in Files(level);
      RestAhead(level, chosen, f, g);
      AheadNewer(f, g, e, d);
    }
  }

  lemma InputsRestNewer(v: Version, level: nat, in0: set<File>, in1: set<File>)
    requires VersionOk(v) && level + 1 < NUM_LEVELS && InputsOk(v, level, in0, in1)
    ensures NewerThan(FilesContent(Files(v[level]) - in0), FilesContent(in0))
  {
    assert LevelOk(v[level]);
    RestNewer(v[level], in0);
  }

  /** An entry older than an input entry of the same user key is an input itself, or left out at
      level+1, or further down. */
  lemma WhereOlder(v: Version, level: nat, in0: set<File>, in1: set<File>, e: Entry, f: Entry)
    requires |v| == NUM_LEVELS && NewerAbove(v) && level + 1 < NUM_LEVELS
    requires in0 <= Files(v[level]) && in1 <= Files(v[level + 1])
    requires NewerThan(FilesContent(Files(v[level]) - in0), FilesContent(in0))
    requires e in Inputs(in0, in1) && f in All(v) && f.ik.ukey == e.ik.ukey && f.ik.seqno < e.ik.seqno
    ensures f in Inputs(in0, in1) || f in LeftOut(v, level, in1) ||
            exists l :: level + 2 <= l < |v| && f in LevelContent(v[l])
  {
    var l :| 0 <= l < |v| && f in LevelContent(v[l]);
    var home :| home in in0 + in1 && e in home.entries;
    var file :| file in Files(v[l]) && f in file.entries;
    var m := if home in in0 then level else level + 1;
    assert home in Files(v[m]);
    assert e in LevelContent(v[m]);
    var upper, lower, rest := LevelContent(v[l]), LevelContent(v[m]), FilesContent(Files(v[level]) - in0);
    assert l < m ==> NewerThan(upper, lower);
    assert home in in0 ==> e in FilesContent(in0);
    assert l == level && file !in in0 ==> f in rest;
    assert file in in0 + in1 ==> f in Inputs(in0, in1);
    assert l == level + 1 && file !in in1 ==> f in LeftOut(v, level, in1);
  }

  lemma BaseHasNone(v: Version, level: nat, k: UserKey, l: nat, f: Entry)
    requires VersionOk(v) && IsBase(v, level, k) && level + 2 <= l < |v| && f in LevelContent(v[l])
    ensures f.ik.ukey != k
  {
    var file :| file in Files(v[l]) && f in file.entries;
    assert LevelOk(v[l]);
    InRange(file, f);
  }

  /** No two files of a sorted level share an entry. */
  lemma FilesApart(level: seq<File>, f: File, g: File, e: Entry)
    requires LevelSorted(level) && f in level && g in level && f != g && FileOk(f) && FileOk(g)
    requires e in f.entries
    ensures e !in g.entries
  {
    var i, j :| 0 <= i < |level| && 0 <= j < |level| && level[i] == f && level[j] == g;
    if e in g.entries {
      InRange(f, e);
      InRange(g, e);
    }
  }

  lemma LeftOutApart(v: Version, level: nat, in0: set<File>, in1: set<File>, f: Entry)
    requires |v| == NUM_LEVELS && NewerAbove(v) && level + 1 < NUM_LEVELS
    requires in0 <= Files(v[level]) && in1 <= Files(v[level + 1])
    requires LevelSorted(v[level + 1]) && LevelOk(v[level + 1])
    requires f in LeftOut(v, level, in1)
    ensures f !in Inputs(in0, in1)
  {
    var file :| file in Files(v[level + 1]) - in1 && f in file.entries;
    forall g | g in in0 + in1 ensures f !in g.entries {
      if g in in0 {
        assert g in Files(v[level]);
        assert NewerThan(LevelContent(v[level]), LevelContent(v[level + 1]));
        assert f in LevelContent(v[level + 1]);
      } else {
        assert g in Files(v[level + 1]);
        FilesApart(v[level + 1], file, g, f);
      }
    }
  }

  /** If readers at `s` see a dropped entry, it is an obsolete tombstone that readers at `ss` see. */
  lemma DroppedIsObsolete(v: Version, level: nat, in0: set<File>, in1: set<File>, ss: nat, s: nat, e: Entry)
    requires Inputs(in0, in1) <= All(v)
    requires ss <= s && e in DropSet(v, level, in0, in1, ss) && Newest(All(v), e.ik.ukey, s, e)
    ensures Obsolete(v, level, ss, e) && Newest(All(v), e.ik.ukey, ss, e)
  {
    assert !Hidden(Inputs(in0, in1), ss, e);
  }

  /** Afterwards they see exactly what the left-out files hold for the key. */
  lemma DroppedVisible(v: Version, level: nat, in0: set<File>, in1: set<File>, ss: nat, s: nat, e: Entry)
    requires VersionOk(v) && level + 1 < NUM_LEVELS && InputsOk(v, level, in0, in1) && UniqueSeqnos(All(v))
    requires ss <= s && e in DropSet(v, level, in0, in1, ss)
    requires Newest(All(v), e.ik.ukey, s, e) && Obsolete(v, level, ss, e)
    ensures Finds(All(v) - DropSet(v, level, in0, in1, ss), e.ik.ukey, s, Find(LeftOut(v, level, in1), e.ik.ukey, ss))
  {
    var after, left := All(v) - DropSet(v, level, in0, in1, ss), LeftOut(v, level, in1);
    InputsInside(v, level, in0, in1);
    forall f | f in after && Matches(f, e.ik.ukey, s) ensures f in left && f.ik.seqno <= ss {
      OnlyLeftOut(v, level, in0, in1, ss, s, e, f);
    }
    forall f | f in left ensures f in after {
      LeftOutApart(v, level, in0, in1, f);
    }
    FindsTransfer(after, left, e.ik.ukey, s, ss);
  }

  lemma FindsTransfer(after: set<Entry>, left: set<Entry>, k: UserKey, s: nat, ss: nat)
    requires ss <= s && left <= after
    requires forall f :: f in after && Matches(f, k, s) ==> f in left && f.ik.seqno <= ss
    ensures Finds(after, k, s, Find(left, k, ss))
  {
  }

  lemma OnlyLeftOut(v: Version, level: nat, in0: set<File>, in1: set<File>, ss: nat, s: nat, e: Entry, f: Entry)
    requires VersionOk(v) && level + 1 < NUM_LEVELS && InputsOk(v, level, in0, in1) && UniqueSeqnos(All(v))
    requires e in Inputs(in0, in1) && Obsolete(v, level, ss, e) && Newest(All(v), e.ik.ukey, s, e)
    requires e in DropSet(v, level, in0, in1, ss)
    requires f in All(v) - DropSet(v, level, in0, in1, ss) && Matches(f, e.ik.ukey, s)
    ensures f in LeftOut(v, level, in1) && f.ik.seqno < e.ik.seqno
  {
    assert f != e;
    assert f.ik.seqno < e.ik.seqno by { InputsInside(v, level, in0, in1); }
    assert f in Inputs(in0, in1) || f in LeftOut(v, level, in1) ||
           exists l :: level + 2 <= l < |v| && f in LevelContent(v[l]) by {
      InputsRestNewer(v, level, in0, in1);
      WhereOlder(v, level, in0, in1, e, f);
    }
    assert f in Inputs(in0, in1) ==> Hidden(Inputs(in0, in1), ss, f);
    if f !in LeftOut(v, level, in1) {
      var l :| level + 2 <= l < |v| && f in LevelContent(v[l]);
      BaseHasNone(v, level, e.ik.ukey, l, f);
    }
  }

  lemma InputsInside(v: Version, level: nat, in0: set<File>, in1: set<File>)
    requires |v| == NUM_LEVELS && level + 1 < NUM_LEVELS
    requires in0 <= Files(v[level]) && in1 <= Files(v[level + 1])
    ensures Inputs(in0, in1) <= All(v) && LeftOut(v, level, in1) <= All(v)
  {
    forall e | e in Inputs(in0, in1) ensures e in All(v) {
      var g :| g in in0 + in1 && e in g.entries;
      if g in in0 { assert e in LevelContent(v[level]); } else { assert e in LevelContent(v[level + 1]); }
    }
    forall e | e in LeftOut(v, level, in1) ensures e in All(v) {
      assert e in LevelContent(v[level + 1]);
    }
  }

  /** The compaction theorem: all reads at or above the smallest snapshot are unchanged if and only
      if no dropped tombstone uncovers a value left out at level+1. */
  lemma CompactionPreservesReads(v: Version, level: nat, in0: set<File>, in1: set<File>, ss: nat)
    requires VersionOk(v) && level + 1 < NUM_LEVELS && InputsOk(v, level, in0, in1) && UniqueSeqnos(All(v))
    ensures NoResurrection(v, level, in0, in1, ss) <==>
              Agrees(All(v) - DropSet(v, level, in0, in1, ss), All(v), ss)
  {
    var after := All(v) - DropSet(v, level, in0, in1, ss);
    InputsInside(v, level, in0, in1);
    if NoResurrection(v, level, in0, in1, ss) {
      forall k: UserKey, s: nat | s >= ss ensures ValueOf(Find(after, k, s)) == ValueOf(Find(All(v), k, s)) {
        var r := Find(All(v), k, s);
        if r.Some? && r.value !in after {
          DroppedIsObsolete(v, level, in0, in1, ss, s, r.value);
          DroppedVisible(v, level, in0, in1, ss, s, r.value);
          FindUnique(after, k, s, Find(LeftOut(v, level, in1), k, ss));
        } else {
          assert Finds(after, k, s, r);
          FindUnique(after, k, s, r);
        }
      }
    }
    if Agrees(after, All(v), ss) {
      forall e | e in Inputs(in0, in1) && Obsolete(v, level, ss, e) && Newest(All(v), e.ik.ukey, ss, e)
        ensures ValueOf(Find(LeftOut(v, level, in1), e.ik.ukey, ss)) == None
      {
        DroppedVisible(v, level, in0, in1, ss, ss, e);
        FindUnique(All(v), e.ik.ukey, ss, Some(e));
        FindUnique(after, e.ik.ukey, ss, Find(LeftOut(v, level, in1), e.ik.ukey, ss));
        assert ValueOf(Find(after, e.ik.ukey, ss)) == ValueOf(Find(All(v), e.ik.ukey, ss));
      }
    }
  }

  /** A check on files alone that is enough: no level+1 file outside the inputs starts with the user
      key the inputs end with. The code makes this check for `level` only. */
  lemma BoundaryCheckSuffices(v: Version, level: nat, in0: set<File>, in1: set<File>, ss: nat)
    requires VersionOk(v) && level + 1 < NUM_LEVELS && InputsOk(v, level, in0, in1)
    requires BoundaryClosed(v[level + 1], in1)
    ensures NoResurrection(v, level, in0, in1, ss)
  {
    forall e | e in Inputs(in0, in1) && Obsolete(v, level, ss, e) && Newest(All(v), e.ik.ukey, ss, e)
      ensures Absent(LeftOut(v, level, in1), e.ik.ukey, ss)
    {
      forall f | f in LeftOut(v, level, in1) ensures !Matches(f, e.ik.ukey, ss) {
        LeftOutNotOlder(v, level, in0, in1, e, f);
        InputsInside(v, level, in0, in1);
        LeftOutApart(v, level, in0, in1, f);
      }
    }
  }

  lemma LeftOutNotOlder(v: Version, level: nat, in0: set<File>, in1: set<File>, e: Entry, f: Entry)
    requires VersionOk(v) && level + 1 < NUM_LEVELS && InputsOk(v, level, in0, in1)
    requires BoundaryClosed(v[level + 1], in1)
    requires e in Inputs(in0, in1) && f in LeftOut(v, level, in1)
    ensures f.ik.ukey == e.ik.ukey ==> f.ik.seqno > e.ik.seqno
  {
    assert LevelOk(v[level]) && LevelOk(v[level + 1]);
    var file :| file in Files(v[level + 1]) - in1 && f in file.entries;
    var home :| home in in0 + in1 && e in home.entries;
    if f.ik.ukey == e.ik.ukey {
      assert FileOk(home) by { assert home in Files(v[level]) || home in Files(v[level + 1]); }
      LeftOutAhead(v, level, in0, in1, file, home);
      AheadNewer(file, home, f, e);
    }
  }

  lemma LeftOutAhead(v: Version, level: nat, in0: set<File>, in1: set<File>, file: File, home: File)
    requires VersionOk(v) && level + 1 < NUM_LEVELS && InputsOk(v, level, in0, in1)
    requires BoundaryClosed(v[level + 1], in1)
    requires file in Files(v[level + 1]) - in1 && home in in0 + in1
    ensures Ahead(file, home)
  {
    if home in in1 {
      var i, j :| 0 <= i < |v[level + 1]| && 0 <= j < |v[level + 1]| && v[level + 1][i] == file && v[level + 1][j] == home;
      assert i != j;
      assert LevelSorted(v[level + 1]);
    } else {
      var lo, hi :| IsUserRange(in0, lo, hi) && Covers(v[level + 1], in1, lo, hi);
      assert !Overlaps(file, Some(lo), Some(hi));
    }
  }

  // ---------------------------------------------------------------- the case the code gets wrong

  const NEW5 := Entry(IKey(5.0, 5), Put("new"))
  const OLD5 := Entry(IKey(5.0, 2), Put("old"))
  const TOMB7 := Entry(IKey(7.0, 4), Delete)
  const DEAD7 := Entry(IKey(7.0, 3), Put("deleted"))

  const UPPER := File(11, 100, NEW5.ik, NEW5.ik, [NEW5])
  const LOWER1 := File(8, 100, OLD5.ik, TOMB7.ik, [OLD5, TOMB7])
  const LOWER2 := File(9, 100, DEAD7.ik, DEAD7.ik, [DEAD7])
  const SPLIT_KEY: Version := [[], [], [UPPER], [LOWER1, LOWER2], [], [], []]

  lemma UnionContent(a: set<File>, b: set<File>)
    ensures FilesContent(a + b) == FilesContent(a) + FilesContent(b)
  {
  }

  lemma SingleContent(f: File)
    ensures FilesContent({f}) == Content(f.entries)
  {
  }

  lemma SplitContents()
    ensures FilesContent({UPPER}) == {NEW5} && FilesContent({LOWER1}) == {OLD5, TOMB7} && FilesContent({LOWER2}) == {DEAD7}
    ensures LevelContent(SPLIT_KEY[2]) == {NEW5} && LevelContent(SPLIT_KEY[3]) == {OLD5, TOMB7, DEAD7}
    ensures forall l :: 0 <= l < 7 && l != 2 && l != 3 ==> LevelContent(SPLIT_KEY[l]) == {}
  {
    SingleContent(UPPER);
    SingleContent(LOWER1);
    SingleContent(LOWER2);
    assert LOWER1.entries[0] == OLD5 && LOWER1.entries[1] == TOMB7;
    assert Content(UPPER.entries) == {NEW5} && Content(LOWER1.entries) == {OLD5, TOMB7} && Content(LOWER2.entries) == {DEAD7};
    UnionContent({LOWER1}, {LOWER2});
    assert [LOWER1, LOWER2][0] == LOWER1 && [LOWER1, LOWER2][1] == LOWER2;
    assert Files([UPPER]) == {UPPER} && Files([LOWER1, LOWER2]) == {LOWER1} + {LOWER2};
  }

  lemma SplitLevelsOk()
    ensures forall l :: 0 <= l < 7 ==> LevelOk(SPLIT_KEY[l]) && LevelSorted(SPLIT_KEY[l])
  {
    assert FileOk(UPPER) && FileOk(LOWER1) && FileOk(LOWER2);
    assert LevelOk([]) && LevelOk([UPPER]) && LevelOk([LOWER1, LOWER2]);
  }

  lemma SplitNewerAbove()
    ensures NewerAbove(SPLIT_KEY)
    ensures All(SPLIT_KEY) == {NEW5, OLD5, TOMB7, DEAD7}
  {
    SplitContents();
    forall l, m | 0 <= l < m < 7 ensures NewerThan(LevelContent(SPLIT_KEY[l]), LevelContent(SPLIT_KEY[m])) {
      assert l != 2 ==> m != 3 || LevelContent(SPLIT_KEY[l]) == {};
    }
    assert NEW5 in LevelContent(SPLIT_KEY[2]);
    assert forall e :: e in {OLD5, TOMB7, DEAD7} ==> e in LevelContent(SPLIT_KEY[3]);
  }

  /** The inputs the code chooses for compacting file 11: no other file of level 2, and the one file
      of level 3 that overlaps user key 5. */
  lemma SplitInputsOk()
    ensures InputsOk(SPLIT_KEY, 2, {UPPER}, {LOWER1})
  {
    assert IsUserRange({UPPER}, 5.0, 5.0);
    assert [LOWER1, LOWER2][0] == LOWER1 && [LOWER1, LOWER2][1] == LOWER2;
    assert forall f :: f in [LOWER1, LOWER2] ==> f == LOWER1 || f == LOWER2;
    assert Covers(SPLIT_KEY[3], {LOWER1}, 5.0, 5.0);
    assert [UPPER][0] == UPPER;
    assert forall f :: f in [UPPER] ==> f == UPPER;
    assert SeedOk(SPLIT_KEY, 2, {UPPER});
  }

  lemma SplitDrop()
    ensures Inputs({UPPER}, {LOWER1}) == {NEW5, OLD5, TOMB7} && LeftOut(SPLIT_KEY, 2, {LOWER1}) == {DEAD7}
    ensures Obsolete(SPLIT_KEY, 2, 5, TOMB7) && TOMB7 in DropSet(SPLIT_KEY, 2, {UPPER}, {LOWER1}, 5)
  {
    SplitContents();
    UnionContent({UPPER}, {LOWER1});
    assert [LOWER1, LOWER2][0] == LOWER1 && [LOWER1, LOWER2][1] == LOWER2;
    assert Files([LOWER1, LOWER2]) - {LOWER1} == {LOWER2};
    assert Obsolete(SPLIT_KEY, 2, 5, TOMB7);
  }

  lemma SplitReads()
    ensures Newest(All(SPLIT_KEY), 7.0, 5, TOMB7) && UniqueSeqnos(All(SPLIT_KEY))
    ensures Newest(LeftOut(SPLIT_KEY, 2, {LOWER1}), 7.0, 5, DEAD7)
    ensures Obsolete(SPLIT_KEY, 2, 5, TOMB7) && TOMB7 in DropSet(SPLIT_KEY, 2, {UPPER}, {LOWER1}, 5)
  {
    FourEntries({NEW5, OLD5, TOMB7, DEAD7});
    assert All(SPLIT_KEY) == {NEW5, OLD5, TOMB7, DEAD7} by { SplitNewerAbove(); }
    SplitDrop();
  }

  lemma FourEntries(es: set<Entry>)
    requires es == {NEW5, OLD5, TOMB7, DEAD7}
    ensures Newest(es, 7.0, 5, TOMB7) && UniqueSeqnos(es)
  {
  }

  /** What readers of a key see around a compaction that drops its tombstone but leaves `dead` out. */
  lemma Uncovered(v: Version, level: nat, in0: set<File>, in1: set<File>, ss: nat, tomb: Entry, dead: Entry)
    requires VersionOk(v) && level + 1 < NUM_LEVELS && InputsOk(v, level, in0, in1) && UniqueSeqnos(All(v))
    requires tomb in DropSet(v, level, in0, in1, ss) && Obsolete(v, level, ss, tomb)
    requires Newest(All(v), tomb.ik.ukey, ss, tomb) && Newest(LeftOut(v, level, in1), tomb.ik.ukey, ss, dead)
    ensures Find(All(v), tomb.ik.ukey, ss) == Some(tomb)
    ensures Find(All(v) - DropSet(v, level, in0, in1, ss), tomb.ik.ukey, ss) == Some(dead)
  {
    var k, left := tomb.ik.ukey, LeftOut(v, level, in1);
    InputsInside(v, level, in0, in1);
    FindUnique(All(v), k, ss, Some(tomb));
    DroppedVisible(v, level, in0, in1, ss, ss, tomb);
    FindUnique(left, k, ss, Some(dead));
    FindUnique(All(v) - DropSet(v, level, in0, in1, ss), k, ss, Find(left, k, ss));
  }

  lemma SplitOk()
    ensures VersionOk(SPLIT_KEY) && 2 + 1 < NUM_LEVELS
  {
    SplitLevelsOk();
    SplitNewerAbove();
    hide LevelOk, LevelSorted, NewerAbove;
    assert Level0Ok(SPLIT_KEY[0]);
  }

  lemma DeadIsDeleted()
    ensures ValueOf(Some(TOMB7)) == None && ValueOf(Some(DEAD7)) == Some("deleted") && TOMB7.ik.ukey == 7.0
  {
  }

  /** A key deleted at sequence number 4 comes back: the tombstone in file 8 is dropped, and file 9,
      which continues the same user key in level 3, still holds the old value. */
  lemma TombstoneResurrection()
    ensures VersionOk(SPLIT_KEY) && InputsOk(SPLIT_KEY, 2, {UPPER}, {LOWER1})
    ensures ValueOf(Find(All(SPLIT_KEY), 7.0, 5)) == None
    ensures ValueOf(Find(All(SPLIT_KEY) - DropSet(SPLIT_KEY, 2, {UPPER}, {LOWER1}, 5), 7.0, 5)) == Some("deleted")
  {
    hide *;
    SplitReads();
    SplitOk();
    SplitInputsOk();
    DeadIsDeleted();
    Uncovered(SPLIT_KEY, 2, {UPPER}, {LOWER1}, 5, TOMB7, DEAD7);
  }
}
