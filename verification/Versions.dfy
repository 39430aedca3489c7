/** Table files, versions (seven levels of files) and lookups in them. */
module Versions {
  import opened Optional
  import opened Keys

  const NUM_LEVELS: nat := 7

  datatype File = File(number: nat, size: nat, smallest: IKey, largest: IKey, entries: seq<Entry>)

  ghost predicate FileOk(f: File) {
    && |f.entries| > 0 && Sorted(f.entries)
    && f.smallest == f.entries[0].ik && f.largest == f.entries[|f.entries| - 1].ik
    && forall e :: e in f.entries ==> e.ik.seqno <= MAX_SEQUENCE
  }

  lemma InRange(f: File, e: Entry)
    requires FileOk(f) && e in f.entries
    ensures !Before(e.ik, f.smallest) && !Before(f.largest, e.ik)
  {
  }

  /** The order of `Builder::BySmallestKey`, in which every level keeps its files. */
  predicate BySmallest(f: File, g: File) {
    Before(f.smallest, g.smallest) || (f.smallest == g.smallest && f.number < g.number)
  }

  ghost predicate Ordered(fs: seq<File>) {
    forall i, j :: 0 <= i < j < |fs| ==> BySmallest(fs[i], fs[j])
  }

  /** The files of a level above 0 cover disjoint, increasing ranges of internal keys. */
  ghost predicate LevelSorted(fs: seq<File>) {
    forall i, j :: 0 <= i < j < |fs| ==> Before(fs[i].largest, fs[j].smallest)
  }

  function Files(fs: seq<File>): set<File> {
    set f | f in fs
  }

  ghost predicate NoDups(fs: seq<File>) {
    forall i, j :: 0 <= i < j < |fs| ==> fs[i] != fs[j]
  }

  lemma FilesAppend(a: seq<File>, b: seq<File>)
    ensures Files(a + b) == Files(a) + Files(b)
  {
  }

  lemma FilesLast(fs: seq<File>)
    requires fs != []
    ensures Files(fs) == Files(fs[..|fs| - 1]) + {fs[|fs| - 1]}
  {
    assert fs == fs[..|fs| - 1] + [fs[|fs| - 1]];
  }

  ghost function FilesContent(fs: set<File>): set<Entry> {
    set f, e | f in fs && e in f.entries :: e
  }

  ghost function LevelContent(fs: seq<File>): set<Entry> {
    FilesContent(Files(fs))
  }

  type Version = seq<seq<File>>

  ghost function All(v: Version): set<Entry> {
    set l, e | 0 <= l < |v| && e in LevelContent(v[l]) :: e
  }

  ghost predicate LevelOk(fs: seq<File>) {
    && (forall f :: f in fs ==> FileOk(f))
    && Ordered(fs)
    && (forall f, g :: f in fs && g in fs && f.number == g.number ==> f == g)
  }

  /** Level-0 files may overlap; for a common user key the file with the larger number is newer. */
  ghost predicate Level0Ok(fs: seq<File>) {
    forall f, g :: f in fs && g in fs && f.number > g.number ==>
      NewerThan(Content(f.entries), Content(g.entries))
  }

  /** Two level-0 files never hold the same internal key. */
  lemma Level0Pair(fs: seq<File>, a: File, b: File, e: Entry, f: Entry)
    requires LevelOk(fs) && Level0Ok(fs) && a in fs && b in fs && a != b && e in a.entries && f in b.entries
    ensures e.ik != f.ik
  {
    assert e in Content(a.entries) && f in Content(b.entries);
    if a.number > b.number {
      assert NewerThan(Content(a.entries), Content(b.entries));
    } else {
      assert NewerThan(Content(b.entries), Content(a.entries));
    }
  }

  /** Entries for a user key get older going down the levels. */
  ghost predicate NewerAbove(v: Version) {
    forall l, m :: 0 <= l < m < |v| ==> NewerThan(LevelContent(v[l]), LevelContent(v[m]))
  }

  ghost predicate VersionOk(v: Version) {
    && |v| == NUM_LEVELS
    && (forall l :: 0 <= l < |v| ==> LevelOk(v[l]))
    && Level0Ok(v[0])
    && (forall l :: 1 <= l < |v| ==> LevelSorted(v[l]))
    && NewerAbove(v)
  }

  // ---------------------------------------------------------------- lookups

  /** Binary search for the first file whose largest key is at or after `key`. */
  method FindFile(files: seq<File>, key: IKey) returns (right: nat)
    requires LevelSorted(files) && forall f :: f in files ==> FileOk(f)
    ensures right <= |files|
    ensures forall i :: 0 <= i < right ==> Before(files[i].largest, key)
    ensures forall i :: right <= i < |files| ==> !Before(files[i].largest, key)
  {
    var left := 0;
    right := |files|;
    while left < right
      invariant 0 <= left <= right <= |files|
      invariant forall i :: 0 <= i < left ==> Before(files[i].largest, key)
      invariant forall i :: right <= i < |files| ==> !Before(files[i].largest, key)
    {
      var mid := (left + right) / 2;
      if Before(files[mid].largest, key) {
        forall i | 0 <= i < mid ensures Before(files[i].largest, key) {
          LargestIncreasing(files, i, mid);
        }
        left := mid + 1;
      } else {
        forall i | mid < i < |files| ensures !Before(files[i].largest, key) {
          LargestIncreasing(files, mid, i);
        }
        right := mid;
      }
    }
  }

  lemma LargestIncreasing(files: seq<File>, i: nat, j: nat)
    requires LevelSorted(files) && i < j < |files| && FileOk(files[i]) && FileOk(files[j])
    ensures Before(files[i].largest, files[j].largest)
  {
    InRange(files[j], files[j].entries[0]);
  }

  /** One level above 0: at most one file can hold the newest visible entry. */
  method SortedLevelGet(files: seq<File>, k: UserKey, s: nat) returns (r: Option<Entry>)
    requires LevelSorted(files) && forall f :: f in files ==> FileOk(f)
    ensures Finds(LevelContent(files), k, s, r)
  {
    var index := FindFile(files, IKey(k, s));
    if index >= |files| {
      r := None;
    } else if k < files[index].smallest.ukey {
      r := None;
    } else {
      r := TableGet(files[index].entries, k, s);
    }
    SortedLevelLookup(files, k, s, index);
  }

  lemma SortedLevelLookup(files: seq<File>, k: UserKey, s: nat, index: nat)
    requires LevelSorted(files) && forall f :: f in files ==> FileOk(f)
    requires index <= |files|
    requires forall i :: 0 <= i < index ==> Before(files[i].largest, IKey(k, s))
    requires forall i :: index <= i < |files| ==> !Before(files[i].largest, IKey(k, s))
    ensures index == |files| || k < files[index].smallest.ukey ==> Absent(LevelContent(files), k, s)
    ensures index < |files| && k >= files[index].smallest.ukey ==>
              Finds(LevelContent(files), k, s, TableGet(files[index].entries, k, s))
  {
    forall f, e | f in files && e in f.entries && Matches(e, k, s)
      ensures index < |files| && k >= files[index].smallest.ukey
      ensures TableGet(files[index].entries, k, s).Some?
      ensures e.ik.seqno <= TableGet(files[index].entries, k, s).value.ik.seqno
    {
      var j :| 0 <= j < |files| && files[j] == f;
      InRange(f, e);
      var g := files[index];
      assert g in files;
      var last := g.entries[|g.entries| - 1];
      if j > index {
        InRange(g, last);
        assert Before(g.largest, f.smallest);
        assert Matches(last, k, s);
        assert last in Content(g.entries);
      } else {
        assert e in Content(g.entries);
      }
    }
    if index < |files| && k >= files[index].smallest.ukey {
      assert files[index] in Files(files);
      forall e | e in Content(files[index].entries) ensures e in LevelContent(files) { }
    }
  }

  ghost predicate ByNumber(fs: seq<File>) {
    forall i, j :: 0 <= i < j < |fs| ==> fs[i].number >= fs[j].number
  }

  /** Insertion by decreasing file number: the order `NewestFirst` sorts by. */
  function InsertByNumber(fs: seq<File>, f: File): (r: seq<File>)
    ensures Files(r) == Files(fs) + {f}
  {
    if fs == [] || fs[0].number <= f.number then [f] + fs
    else
      var rest := InsertByNumber(fs[1..], f);
      assert Files([fs[0]] + rest) == {fs[0]} + Files(rest);
      assert fs == [fs[0]] + fs[1..];
      [fs[0]] + rest
  }

  lemma {:induction false} InsertByNumberSorted(fs: seq<File>, f: File)
    requires ByNumber(fs)
    ensures ByNumber(InsertByNumber(fs, f))
  {
    if fs != [] && fs[0].number > f.number {
      InsertByNumberSorted(fs[1..], f);
      var rest := InsertByNumber(fs[1..], f);
      forall i | 0 <= i < |rest| ensures rest[i].number <= fs[0].number {
        assert rest[i] in Files(rest);
      }
    }
  }

  predicate CoversKey(f: File, k: UserKey) {
    f.smallest.ukey <= k <= f.largest.ukey
  }

  /** The level-0 files whose user key range covers `k`, newest file first. */
  method CoveringFiles(files: seq<File>, k: UserKey) returns (tmp: seq<File>)
    ensures forall f :: f in tmp <==> f in files && CoversKey(f, k)
    ensures ByNumber(tmp)
  {
    tmp := [];
    for i := 0 to |files|
      invariant forall f :: f in tmp <==> f in files[..i] && CoversKey(f, k)
      invariant ByNumber(tmp)
    {
      var f := files[i];
      if CoversKey(f, k) {
        var grown := InsertByNumber(tmp, f);
        InsertByNumberSorted(tmp, f);
        assert forall g :: g in grown <==> g in Files(grown);
        assert forall g :: g in tmp <==> g in Files(tmp);
        tmp := grown;
      }
    }
  }

  lemma NewestFileWins(files: seq<File>, tmp: seq<File>, i: nat, k: UserKey, s: nat, r: Entry)
    requires LevelOk(files) && Level0Ok(files)
    requires forall f :: f in tmp <==> f in files && CoversKey(f, k)
    requires ByNumber(tmp)
    requires i < |tmp| && Newest(Content(tmp[i].entries), k, s, r)
    requires forall j :: 0 <= j < i ==> Absent(Content(tmp[j].entries), k, s)
    ensures Newest(LevelContent(files), k, s, r)
  {
    forall f, e | f in files && e in f.entries && Matches(e, k, s) ensures e.ik.seqno <= r.ik.seqno {
      InRange(f, e);
      assert f in tmp && tmp[i] in tmp;
      var j :| 0 <= j < |tmp| && tmp[j] == f;
      assert e in Content(f.entries);
      if j > i && f.number != tmp[i].number {
        assert NewerThan(Content(tmp[i].entries), Content(f.entries));
      }
    }
    assert tmp[i] in tmp && tmp[i] in Files(files);
    assert r in tmp[i].entries;
  }

  /** Level 0: the newest covering file that knows the key decides. */
  method Level0Get(files: seq<File>, k: UserKey, s: nat) returns (r: Option<Entry>)
    requires LevelOk(files) && Level0Ok(files)
    ensures Finds(LevelContent(files), k, s, r)
  {
    var tmp := CoveringFiles(files, k);
    for i := 0 to |tmp|
      invariant forall j :: 0 <= j < i ==> Absent(Content(tmp[j].entries), k, s)
    {
      assert tmp[i] in tmp;
      r := TableGet(tmp[i].entries, k, s);
      if r.Some? {
        NewestFileWins(files, tmp, i, k, s, r.value);
        return;
      }
    }
    r := None;
    forall f, e | f in files && e in f.entries ensures !Matches(e, k, s) {
      InRange(f, e);
      assert e in Content(f.entries);
    }
  }

  /** `Version::Get`: level by level, stopping at the first level that knows the key. */
  method Get(v: Version, k: UserKey, s: nat) returns (r: Option<Entry>)
    requires VersionOk(v)
    ensures Finds(All(v), k, s, r)
  {
    r := None;
    for level := 0 to NUM_LEVELS
      invariant r == None
      invariant forall l :: 0 <= l < level ==> Absent(LevelContent(v[l]), k, s)
    {
      if level == 0 {
        r := Level0Get(v[0], k, s);
      } else {
        r := SortedLevelGet(v[level], k, s);
      }
      if r.Some? {
        forall l, e | 0 <= l < |v| && e in LevelContent(v[l]) && Matches(e, k, s)
          ensures e.ik.seqno <= r.value.ik.seqno
        {
          if l > level {
            assert NewerThan(LevelContent(v[level]), LevelContent(v[l]));
          }
        }
        assert r.value in LevelContent(v[level]);
        return;
      }
    }
  }
}
