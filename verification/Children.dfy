/** The lists the internal iterator of a store runs over, and their merge. */
module Children {
  import opened Keys
  import opened Versions
  import opened Compactions
  import opened Store
  import opened Merging

  // ---------------------------------------------------------------- any lists with different keys

  ghost predicate AllSorted(lists: seq<seq<Entry>>) {
    forall j :: 0 <= j < |lists| ==> Sorted(lists[j])
  }

  /** No internal key stands in two of the lists. */
  ghost predicate Apart(lists: seq<seq<Entry>>) {
    forall j, k, x, y :: 0 <= j < k < |lists| && 0 <= x < |lists[j]| && 0 <= y < |lists[k]| ==> lists[j][x].ik != lists[k][y].ik
  }

  ghost predicate KeysDiffer(a: set<Entry>, b: set<Entry>) {
    forall e, f :: e in a && f in b ==> e.ik != f.ik
  }

  ghost function Union(lists: seq<seq<Entry>>): set<Entry> {
    set j, x | 0 <= j < |lists| && 0 <= x < |lists[j]| :: lists[j][x]
  }

  /** The merge: every entry of every list inserted at its place. */
  function Merge(lists: seq<seq<Entry>>): seq<Entry> {
    if lists == [] then [] else InsertAll(Merge(lists[..|lists| - 1]), lists[|lists| - 1])
  }

  lemma UnionLast(lists: seq<seq<Entry>>)
    requires lists != []
    ensures Union(lists) == Union(lists[..|lists| - 1]) + Content(lists[|lists| - 1])
  {
    var n := |lists| - 1;
    forall e | e in lists[n] ensures e in Union(lists) {
      var x :| 0 <= x < |lists[n]| && lists[n][x] == e;
    }
    forall e | e in Union(lists[..n]) ensures e in Union(lists) {
      var j, x :| 0 <= j < n && 0 <= x < |lists[..n][j]| && lists[..n][j][x] == e;
      assert lists[j][x] == e;
    }
    forall e | e in Union(lists) ensures e in Union(lists[..n]) + Content(lists[n]) {
      var j, x :| 0 <= j < |lists| && 0 <= x < |lists[j]| && lists[j][x] == e;
      if j < n { assert lists[..n][j][x] == e; }
    }
  }

  lemma {:induction false} MergeSorted(lists: seq<seq<Entry>>)
    requires AllSorted(lists) && Apart(lists)
    ensures Sorted(Merge(lists)) && Content(Merge(lists)) == Union(lists)
  {
    if lists != [] {
      var n := |lists| - 1;
      var front, last := lists[..n], lists[n];
      MergeSorted(front);
      UnionLast(lists);
      forall e, f | e in Merge(front) && f in last ensures e.ik != f.ik {
        assert e in Content(Merge(front));
        var j, x :| 0 <= j < |front| && 0 <= x < |front[j]| && front[j][x] == e;
        var y :| 0 <= y < |last| && last[y] == f;
        assert lists[j][x].ik != lists[n][y].ik;
      }
      InsertDistinctSorted(Merge(front), last);
    }
  }

  /** Sorted lists without common keys and their merge are what the merging iterator needs. */
  lemma MergeFamily(lists: seq<seq<Entry>>)
    requires AllSorted(lists) && Apart(lists)
    ensures Family(lists, Merge(lists)) && Content(Merge(lists)) == Union(lists)
  {
    MergeSorted(lists);
    var m := Merge(lists);
    hide Merge, Sorted;
    forall j, x | 0 <= j < |lists| && 0 <= x < |lists[j]| ensures lists[j][x] in m {
      assert lists[j][x] in Content(m);
    }
    forall e | e in m ensures exists j, x :: 0 <= j < |lists| && 0 <= x < |lists[j]| && lists[j][x] == e {
      assert e in Content(m);
    }
  }

  lemma ApartConcat(a: seq<seq<Entry>>, b: seq<seq<Entry>>)
    requires Apart(a) && Apart(b) && KeysDiffer(Union(a), Union(b))
    ensures Apart(a + b) && Union(a + b) == Union(a) + Union(b) && (AllSorted(a) && AllSorted(b) ==> AllSorted(a + b))
  {
    var c: seq<seq<Entry>> := a + b;
    forall j: nat, k: nat, x: nat, y: nat | j < k < |c| && x < |c[j]| && y < |c[k]| ensures c[j][x].ik != c[k][y].ik {
      if j < |a| <= k {
        assert a[j][x] in Union(a) && b[k - |a|][y] in Union(b);
      } else if k < |a| {
        assert a[j][x].ik != a[k][y].ik;
      } else {
        assert b[j - |a|][x].ik != b[k - |a|][y].ik;
      }
    }
    forall e | e in Union(a) ensures e in Union(c) {
      var j, x :| 0 <= j < |a| && 0 <= x < |a[j]| && a[j][x] == e;
      assert c[j][x] == e;
    }
    forall e | e in Union(b) ensures e in Union(c) {
      var j, x :| 0 <= j < |b| && 0 <= x < |b[j]| && b[j][x] == e;
      assert c[|a| + j][x] == e;
    }
    forall e | e in Union(c) ensures e in Union(a) + Union(b) {
      var j, x :| 0 <= j < |c| && 0 <= x < |c[j]| && c[j][x] == e;
      if j < |a| { assert a[j][x] == e; } else { assert b[j - |a|][x] == e; }
    }
  }

  // ---------------------------------------------------------------- the lists of a version

  /** The files of a sorted level, one after the other, form one sorted list. */
  lemma {:induction false} LevelList(files: seq<File>)
    requires LevelSorted(files) && forall f :: f in files ==> FileOk(f)
    ensures Sorted(Flatten(Lists(files))) && Content(Flatten(Lists(files))) == LevelContent(files)
  {
    if files != [] {
      var n := |files| - 1;
      var front, last := files[..n], files[n];
      LevelList(front);
      assert Lists(files)[..n] == Lists(front);
      var a := Flatten(Lists(front));
      assert Flatten(Lists(files)) == a + last.entries;
      assert last in files;
      LevelLast(files);
      forall e, f | e in a && f in last.entries ensures Before(e.ik, f.ik) {
        assert e in Content(a);
        EarlierFile(files, e, f);
      }
      hide Flatten, LevelContent;
      JoinSorted(a, last.entries);
    }
  }

  lemma LevelLast(files: seq<File>)
    requires files != []
    ensures LevelContent(files) == LevelContent(files[..|files| - 1]) + Content(files[|files| - 1].entries)
  {
    FilesLast(files);
  }

  lemma EarlierFile(files: seq<File>, e: Entry, f: Entry)
    requires files != [] && LevelSorted(files) && forall g :: g in files ==> FileOk(g)
    requires e in LevelContent(files[..|files| - 1]) && f in files[|files| - 1].entries
    ensures Before(e.ik, f.ik)
  {
    var g :| g in files[..|files| - 1] && e in g.entries;
    var i :| 0 <= i < |files| - 1 && files[i] == g;
    InRange(g, e);
    InRange(files[|files| - 1], f);
  }

  lemma JoinSorted(a: seq<Entry>, b: seq<Entry>)
    requires Sorted(a) && Sorted(b) && forall e, f :: e in a && f in b ==> Before(e.ik, f.ik)
    ensures Sorted(a + b) && Content(a + b) == Content(a) + Content(b)
  {
  }

  /** Each level-0 file by itself, each deeper level as a whole: `Version::AddIterators`. */
  function VersionLists(v: Version): seq<seq<Entry>>
    requires v != []
  {
    Lists(v[0]) + Deep(v)
  }

  function Deep(v: Version): seq<seq<Entry>>
    requires v != []
  {
    seq(|v| - 1, i requires 0 <= i < |v| - 1 => Flatten(Lists(v[i + 1])))
  }

  lemma Level0Lists(fs: seq<File>)
    requires LevelOk(fs) && Level0Ok(fs)
    ensures AllSorted(Lists(fs)) && Apart(Lists(fs)) && Union(Lists(fs)) == LevelContent(fs)
  {
    Level0Union(fs);
    Level0Apart(fs);
    forall j | 0 <= j < |fs| ensures Sorted(fs[j].entries) { assert FileOk(fs[j]); }
    hide Level0Ok, LevelOk, Sorted, Apart, Union, LevelContent;
  }

  lemma Level0Apart(fs: seq<File>)
    requires LevelOk(fs) && Level0Ok(fs)
    ensures Apart(Lists(fs))
  {
    forall j, k, x, y | 0 <= j < k < |fs| && 0 <= x < |fs[j].entries| && 0 <= y < |fs[k].entries|
      ensures fs[j].entries[x].ik != fs[k].entries[y].ik
    {
      assert BySmallest(fs[j], fs[k]);
      Level0Pair(fs, fs[j], fs[k], fs[j].entries[x], fs[k].entries[y]);
    }
    hide LevelOk, Level0Ok;
  }

  lemma Level0Union(fs: seq<File>)
    ensures Union(Lists(fs)) == LevelContent(fs)
  {
    var ls := Lists(fs);
    forall e | e in LevelContent(fs) ensures e in Union(ls) {
      var f :| f in fs && e in f.entries;
      var j :| 0 <= j < |fs| && fs[j] == f;
      var x :| 0 <= x < |f.entries| && f.entries[x] == e;
      assert ls[j][x] == e;
    }
    forall e | e in Union(ls) ensures e in LevelContent(fs) {
      var j, x :| 0 <= j < |ls| && 0 <= x < |ls[j]| && ls[j][x] == e;
      assert fs[j] in Files(fs) && e in fs[j].entries;
    }
  }

  ghost function DeepContent(v: Version): set<Entry> {
    set l, e | 1 <= l < |v| && e in LevelContent(v[l]) :: e
  }

  lemma DeepLists(v: Version)
    requires VersionOk(v)
    ensures AllSorted(Deep(v)) && Apart(Deep(v)) && Union(Deep(v)) == DeepContent(v)
  {
    forall i | 0 <= i < |v| - 1 ensures Sorted(Deep(v)[i]) && Content(Deep(v)[i]) == LevelContent(v[i + 1]) {
      assert LevelOk(v[i + 1]) && LevelSorted(v[i + 1]);
      LevelList(v[i + 1]);
    }
    DeepApart(v, Deep(v));
  }

  lemma DeepApart(v: Version, ls: seq<seq<Entry>>)
    requires VersionOk(v) && |ls| == |v| - 1 && forall i :: 0 <= i < |ls| ==> Content(ls[i]) == LevelContent(v[i + 1])
    ensures Apart(ls) && Union(ls) == DeepContent(v)
  {
    forall j: nat, k: nat, x: nat, y: nat | j < k < |ls| && x < |ls[j]| && y < |ls[k]| ensures ls[j][x].ik != ls[k][y].ik {
      assert NewerThan(LevelContent(v[j + 1]), LevelContent(v[k + 1]));
      assert ls[j][x] in Content(ls[j]) && ls[k][y] in Content(ls[k]);
    }
    forall e | e in DeepContent(v) ensures e in Union(ls) {
      var l :| 1 <= l < |v| && e in LevelContent(v[l]);
      assert e in Content(ls[l - 1]);
      var x :| 0 <= x < |ls[l - 1]| && ls[l - 1][x] == e;
    }
    forall e | e in Union(ls) ensures e in DeepContent(v) {
      var j, x :| 0 <= j < |ls| && 0 <= x < |ls[j]| && ls[j][x] == e;
      assert e in Content(ls[j]);
      assert e in LevelContent(v[j + 1]);
    }
  }

  lemma VersionFamily(v: Version)
    requires VersionOk(v)
    ensures AllSorted(VersionLists(v)) && Apart(VersionLists(v)) && Union(VersionLists(v)) == All(v)
  {
    Level0Lists(v[0]);
    DeepLists(v);
    assert KeysDiffer(LevelContent(v[0]), DeepContent(v)) by {
      forall e, f | e in LevelContent(v[0]) && f in DeepContent(v) ensures e.ik != f.ik {
        var l :| 1 <= l < |v| && f in LevelContent(v[l]);
        assert NewerThan(LevelContent(v[0]), LevelContent(v[l]));
      }
    }
    assert All(v) == LevelContent(v[0]) + DeepContent(v);
    assert VersionLists(v) == Lists(v[0]) + Deep(v);
    hide *;
    ApartConcat(Lists(v[0]), Deep(v));
  }

  // ---------------------------------------------------------------- the lists of a store

  /** `NewInternalIterator`: memtable, immutable memtable, files. */
  function StoreLists(db: Db): seq<seq<Entry>>
    requires db.v != []
  {
    MemtableLists(db) + VersionLists(db.v)
  }

  function MemtableLists(db: Db): seq<seq<Entry>> {
    [db.mem] + if db.imm.Some? then [db.imm.value] else []
  }

  ghost function MemtableContent(db: Db): set<Entry> {
    Content(db.mem) + if db.imm.Some? then Content(db.imm.value) else {}
  }

  lemma MemtableFamily(db: Db)
    requires Sorted(db.mem) && (db.imm.Some? ==> Sorted(db.imm.value) && KeysDiffer(Content(db.mem), Content(db.imm.value)))
    ensures AllSorted(MemtableLists(db)) && Apart(MemtableLists(db)) && Union(MemtableLists(db)) == MemtableContent(db)
  {
    var ls: seq<seq<Entry>> := MemtableLists(db);
    forall j: nat, k: nat, x: nat, y: nat | j < k < |ls| && x < |ls[j]| && y < |ls[k]| ensures ls[j][x].ik != ls[k][y].ik {
      assert ls[j][x] in Content(db.mem) && ls[k][y] in Content(db.imm.value);
    }
    forall e | e in MemtableContent(db) ensures e in Union(ls) {
      if e in Content(db.mem) {
        var x :| 0 <= x < |db.mem| && db.mem[x] == e;
        assert ls[0][x] == e;
      } else {
        var x :| 0 <= x < |db.imm.value| && db.imm.value[x] == e;
        assert ls[1][x] == e;
      }
    }
  }

  lemma NewerDiffer(upper: set<Entry>, lower: set<Entry>)
    requires NewerThan(upper, lower)
    ensures KeysDiffer(upper, lower)
  {
  }
}
