/** Iterating over the whole store at a snapshot lists exactly what the history shows there. */
module Scans {
  import opened Optional
  import opened Keys
  import opened Versions
  import opened Store
  import opened Steps
  import opened Runs
  import opened Merging
  import opened Iteration
  import opened Children

  /** Everything the internal iterator runs over: memtables and table files. */
  ghost function Everything(db: Db): set<Entry> {
    MemtableContent(db) + All(db.v)
  }

  lemma LayersAgree(me: set<Entry>, im: set<Entry>, files: set<Entry>, k: UserKey, s: nat,
                    m: Option<Entry>, i: Option<Entry>, f: Option<Entry>)
    requires NewerThan(me, im + files) && NewerThan(im, files) && UniqueSeqnos(me + (im + files))
    requires Finds(me, k, s, m) && Finds(im, k, s, i) && Finds(files, k, s, f)
    ensures Find(me + (im + files), k, s) == if m.Some? then m else if i.Some? then i else f
  {
    LayeredFind(im, files, k, s);
    LayeredFind(me, im + files, k, s);
    FindUnique(me + (im + files), k, s, if m.Some? then m else if i.Some? then i else f);
  }

  /** Looking in everything at once is looking layer by layer. */
  lemma EverythingReads(db: Db, k: UserKey, s: nat)
    requires Inv(db)
    ensures Find(Everything(db), k, s) == ReadAt(db, k, s)
  {
    var h := History(db);
    var me, im, files := Content(db.mem), if db.imm.Some? then Content(db.imm.value) else {}, All(db.v);
    HistoryContents(db);
    IncreasingUnique(h);
    NewerLayers(db);
    assert Everything(db) == me + (im + files);
    var i := if db.imm.Some? then TableGet(db.imm.value, k, s) else None;
    LayersAgree(me, im, files, k, s, TableGet(db.mem, k, s), i, Find(files, k, s));
  }

  lemma NewerLayers(db: Db)
    requires Inv(db)
    ensures var me, im, files := Content(db.mem), if db.imm.Some? then Content(db.imm.value) else {}, All(db.v);
            NewerThan(me, im + files) && NewerThan(im, files) && UniqueSeqnos(me + (im + files))
  {
    var me, im, files := Content(db.mem), if db.imm.Some? then Content(db.imm.value) else {}, All(db.v);
    assert me == Content(MemHistory(db)) && im == Content(ImmHistory(db)) && files <= Content(db.flushed);
    HistoryContents(db);
    hide *;
    FewerBelow(me, im, Content(db.flushed), files);
  }

  lemma FewerBelow(me: set<Entry>, im: set<Entry>, all: set<Entry>, files: set<Entry>)
    requires NewerThan(me, im + all) && NewerThan(im, all) && UniqueSeqnos(me + (im + all)) && files <= all
    ensures NewerThan(me, im + files) && NewerThan(im, files) && UniqueSeqnos(me + (im + files))
  {
  }

  /** The children the store hands to the merging iterator are sorted and share no internal key; their
      merge holds everything. */
  lemma StoreFamily(db: Db)
    requires Inv(db)
    ensures db.v != [] && Family(StoreLists(db), Merge(StoreLists(db))) && Content(Merge(StoreLists(db))) == Everything(db)
  {
    NewerLayers(db);
    SortedMemtables(db);
    assert VersionOk(db.v) && db.v != [];
    var me, im, files := Content(db.mem), if db.imm.Some? then Content(db.imm.value) else {}, All(db.v);
    assert MemtableContent(db) == me + im && Everything(db) == MemtableContent(db) + files;
    assert StoreLists(db) == MemtableLists(db) + VersionLists(db.v);
    hide *;
    NewerDiffer(me, im + files);
    NewerDiffer(im, files);
    DifferParts(me, im, files);
    MemtableFamily(db);
    VersionFamily(db.v);
    ApartConcat(MemtableLists(db), VersionLists(db.v));
    MergeFamily(StoreLists(db));
  }

  lemma SortedMemtables(db: Db)
    requires Inv(db)
    ensures Sorted(db.mem) && (db.imm.Some? ==> Sorted(db.imm.value))
  {
  }

  lemma DifferParts(me: set<Entry>, im: set<Entry>, files: set<Entry>)
    requires KeysDiffer(me, im + files) && KeysDiffer(im, files)
    ensures KeysDiffer(me, im) && KeysDiffer(me + im, files)
  {
  }

  /** What a snapshot shows of a store. */
  ghost function Visible(db: Db, s: nat): seq<(UserKey, string)>
    requires db.v != []
  {
    Pairs(Merge(StoreLists(db)), s, |Merge(StoreLists(db))|)
  }

  /** A list of keys and values in ascending order that holds exactly what the history shows at `s`. */
  ghost predicate ListsHistory(t: seq<(UserKey, string)>, h: seq<Entry>, s: nat) {
    && (forall c, d :: 0 <= c < d < |t| ==> t[c].0 < t[d].0)
    && forall k, value :: (k, value) in t <==> ValueOf(HistoryFind(h, k, s)) == Some(value)
  }

  /** At a snapshot, the iterator's list is the history's: strictly ascending keys, each with the value of
      the newest write at or below the snapshot, no key that is deleted or unwritten. */
  lemma IteratorShowsHistory(db: Db, s: nat)
    requires Inv(db) && s >= db.floor
    ensures db.v != [] && ListsHistory(Visible(db, s), History(db), s)
  {
    hide *;
    InvParts(db);
    StoreFamily(db);
    var merged := Merge(StoreLists(db));
    FamilySorted(StoreLists(db), merged);
    PairsAreReads(merged, s);
    forall k ensures ValueOf(Find(Content(merged), k, s)) == ValueOf(HistoryFind(History(db), k, s)) {
      EverythingReads(db, k, s);
      ReadIsHistory(db, k, s);
    }
    ListsIntro(db, merged, s);
  }

  lemma FamilySorted(lists: seq<seq<Entry>>, merged: seq<Entry>)
    requires Family(lists, merged)
    ensures Sorted(merged)
  {
  }

  lemma ListsIntro(db: Db, merged: seq<Entry>, s: nat)
    requires LogsOk(db) && db.v != [] && merged == Merge(StoreLists(db))
    requires forall k :: ValueOf(Find(Content(merged), k, s)) == ValueOf(HistoryFind(History(db), k, s))
    requires var t := Pairs(merged, s, |merged|);
             && (forall c, d :: 0 <= c < d < |t| ==> t[c].0 < t[d].0)
             && forall k, value :: (k, value) in t <==> ValueOf(Find(Content(merged), k, s)) == Some(value)
    ensures ListsHistory(Visible(db, s), History(db), s)
  {
    hide Pairs, Merge, StoreLists, HistoryFind, Find, History;
  }

  lemma ReadIsHistory(db: Db, k: UserKey, s: nat)
    requires Inv(db) && s >= db.floor
    ensures ValueOf(ReadAt(db, k, s)) == ValueOf(HistoryFind(History(db), k, s))
  {
    hide VersionOk, Agrees, DurableOk, Inv, History, TableGet;
    LayersRefineHistory(db, k, s, ReadAt(db, k, s));
  }

  /** The same in every state of every run, at every live snapshot and at the newest state. */
  lemma RunIterates(states: seq<Db>, actions: seq<Action>, n: nat, s: nat)
    requires IsRun(states, actions) && n < |states|
    requires s in states[n].snapshots || s == states[n].lastSequence
    ensures Inv(states[n]) && states[n].v != [] && ListsHistory(Visible(states[n], s), History(states[n]), s)
  {
    hide *;
    RunKeepsInv(states, actions, n);
    InvParts(states[n]);
    LiveAboveFloor(states[n], s);
    IteratorShowsHistory(states[n], s);
  }

  lemma LiveAboveFloor(db: Db, s: nat)
    requires SnapshotsOk(db) && (s in db.snapshots || s == db.lastSequence)
    ensures s >= db.floor
  {
  }

  /** `DBImpl::NewIterator` at a live snapshot, or at the newest state if none is given. */
  method NewIterator(db: Db, snapshot: Option<nat>) returns (it: DBIter)
    requires Inv(db) && (snapshot.Some? ==> snapshot.value in db.snapshots)
    ensures fresh(it) && fresh(it.iter) && it.Valid() && !it.valid
    ensures var s := if snapshot.Some? then snapshot.value else db.lastSequence;
            db.v != [] && it.Table() == Visible(db, s) && ListsHistory(it.Table(), History(db), s)
  {
    hide *;
    var s := if snapshot.Some? then snapshot.value else db.lastSequence;
    StoreFamily(db);
    InvParts(db);
    LiveAboveFloor(db, s);
    IteratorShowsHistory(db, s);
    var iter := new MergingIterator(StoreLists(db), Merge(StoreLists(db)));
    it := new DBIter(iter, s);
    SameTable(it);
    VisibleIs(db, s);
  }

  lemma VisibleIs(db: Db, s: nat)
    requires db.v != []
    ensures Visible(db, s) == Pairs(Merge(StoreLists(db)), s, |Merge(StoreLists(db))|)
  {
  }

  /** A full scan with the iterator collects the whole list. */
  method Collect(it: DBIter) returns (out: seq<(UserKey, string)>)
    requires it.Valid()
    modifies it, it.iter
    ensures it.Valid() && out == it.Table()
  {
    hide *;
    it.SeekToFirst();
    it.AtIndex();
    out := [];
    while it.valid
      invariant it.Valid() && (it.valid <==> it.Index() < |it.Table()|) && (it.valid ==> it.Table()[it.Index()] == it.Current())
      invariant it.Index() <= |it.Table()| && out == it.Table()[..it.Index()]
      decreases |it.Table()| - it.Index()
    {
      out := out + [it.Current()];
      SameTable(it);
      it.Next();
      SameTable(it);
      it.AtIndex();
    }
  }

  /** Opening an iterator on a store and scanning to the end lists what the history shows. */
  method ScanStore(db: Db, snapshot: Option<nat>) returns (out: seq<(UserKey, string)>)
    requires Inv(db) && (snapshot.Some? ==> snapshot.value in db.snapshots)
    ensures ListsHistory(out, History(db), if snapshot.Some? then snapshot.value else db.lastSequence)
  {
    hide *;
    var it := NewIterator(db, snapshot);
    SameTable(it);
    out := Collect(it);
    SameTable(it);
  }

  lemma SameTable(it: DBIter)
    ensures it.Table() == Pairs(it.iter.merged, it.sequence, |it.iter.merged|)
  {
  }
}
