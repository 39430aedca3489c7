/** Version edits, the builder that applies them, and replaying a manifest. */
module Manifest {
  import opened Optional
  import opened Keys
  import opened Versions

  /** One manifest record. `LogAndApply` fills in every number; the snapshot record that opens a new
      manifest only lists files. */
  datatype Edit = Edit(
    deleted: set<(nat, nat)>,       // (level, file number)
    added: seq<(nat, File)>,
    logNumber: Option<nat>,
    nextFile: Option<nat>,
    lastSequence: Option<nat>)

  const EMPTY_VERSION: Version := [[], [], [], [], [], [], []]

  ghost predicate EditOk(e: Edit) {
    (forall p :: p in e.added ==> p.0 < NUM_LEVELS) && (forall d :: d in e.deleted ==> d.0 < NUM_LEVELS)
  }

  ghost function DeletedAt(e: Edit, l: nat): set<nat> {
    set d | d in e.deleted && d.0 == l :: d.1
  }

  ghost function AddedAt(e: Edit, l: nat): set<File> {
    set p | p in e.added && p.0 == l :: p.1
  }

  ghost function Numbers(fs: set<File>): set<nat> {
    set f | f in fs :: f.number
  }

  /** What a builder has accumulated for one level. */
  datatype Delta = Delta(del: set<nat>, add: set<File>)

  ghost function ApplyTo(d: Delta, e: Edit, l: nat): Delta {
    Delta(d.del + DeletedAt(e, l) - Numbers(AddedAt(e, l)), d.add + AddedAt(e, l))
  }

  /** The files of one level after saving a builder over `base`. */
  ghost function Saved(base: set<File>, d: Delta): set<File> {
    set f | f in base + d.add && f.number !in d.del
  }

  /** One edit applied to one level. */
  ghost function After(base: set<File>, e: Edit, l: nat): set<File> {
    Saved(base, ApplyTo(Delta({}, {}), e, l))
  }

  /** `v2` is `v` with the edit applied: the right files, in the builder's order. */
  ghost predicate Installs(v: Version, e: Edit, v2: Version) {
    && |v| == |v2| == NUM_LEVELS
    && forall l :: 0 <= l < NUM_LEVELS ==> Ordered(v2[l]) && Files(v2[l]) == After(Files(v[l]), e, l)
  }

  // ---------------------------------------------------------------- order

  /** Insertion by `BySmallestKey`; a file equivalent to one already present is not inserted twice. */
  function InsertOrdered(fs: seq<File>, f: File): (r: seq<File>)
    ensures r == fs || Files(r) == Files(fs) + {f}
    ensures (forall g :: g in fs ==> g.number != f.number) ==> Files(r) == Files(fs) + {f}
  {
    if fs == [] then [f]
    else if BySmallest(f, fs[0]) then [f] + fs
    else if !BySmallest(fs[0], f) then fs
    else
      var rest := InsertOrdered(fs[1..], f);
      assert Files(fs) == {fs[0]} + Files(fs[1..]);
      assert Files([fs[0]] + rest) == {fs[0]} + Files(rest);
      [fs[0]] + rest
  }

  lemma {:induction false} InsertOrderedOrdered(fs: seq<File>, f: File)
    requires Ordered(fs)
    ensures Ordered(InsertOrdered(fs, f))
  {
    if fs == [] || BySmallest(f, fs[0]) || !BySmallest(fs[0], f) {
    } else {
      InsertOrderedOrdered(fs[1..], f);
      var rest := InsertOrdered(fs[1..], f);
      forall i | 0 <= i < |rest| ensures BySmallest(fs[0], rest[i]) {
        assert rest[i] in Files(rest);
      }
    }
  }

  lemma NoFiles(fs: seq<File>)
    ensures Files(fs) == {} <==> fs == []
  {
    if fs != [] { assert fs[0] in Files(fs); }
  }

  /** An ordered level is determined by its set of files. */
  lemma {:induction false} OrderedUnique(a: seq<File>, b: seq<File>)
    requires Ordered(a) && Ordered(b) && Files(a) == Files(b)
    ensures a == b
  {
    NoFiles(a);
    NoFiles(b);
    if a != [] {
      assert a[0] in Files(b) && b != [];
      assert b[0] in Files(a);
      assert a[0] == b[0];
      assert Files(a[1..]) == Files(a) - {a[0]};
      assert Files(b[1..]) == Files(b) - {b[0]};
      OrderedUnique(a[1..], b[1..]);
    }
  }

  // ---------------------------------------------------------------- the builder

  ghost predicate DistinctNumbers(fs: set<File>) {
    forall f, g :: f in fs && g in fs && f.number == g.number ==> f == g
  }

  /** The files saved so far come before file `x`. */
  ghost predicate AllBefore(files: seq<File>, x: File) {
    forall f :: f in files ==> BySmallest(f, x)
  }

  /** `MaybeAddFile`: appends the file unless it was deleted. */
  function MaybeAdd(files: seq<File>, deleted: set<nat>, f: File): (r: seq<File>)
    ensures forall g :: g in r <==> g in files || (g == f && f.number !in deleted)
    ensures Ordered(files) && AllBefore(files, f) ==> Ordered(r)
  {
    if f.number in deleted then files else files + [f]
  }

  /** Order up to files with the same smallest key and number. */
  ghost predicate WeaklyOrdered(fs: seq<File>) {
    forall i, j :: 0 <= i < j < |fs| ==> !BySmallest(fs[j], fs[i])
  }

  /** A base file is followed by an added file with the same smallest key and number. */
  ghost predicate Clash(base: seq<File>, added: seq<File>) {
    exists f, g :: f in base && g in added && f.number == g.number && f.smallest == g.smallest
  }

  ghost predicate NotAfter(files: seq<File>, x: File) {
    forall f :: f in files ==> !BySmallest(x, f)
  }

  /** The first `next` base files and the first `i` added files have been merged into `files`. */
  ghost predicate Merged(base: seq<File>, deleted: set<nat>, added: seq<File>, next: nat, i: nat, files: seq<File>) {
    && next <= |base| && i <= |added| && WeaklyOrdered(files)
    && (forall f :: f in files <==> (f in base[..next] || f in added[..i]) && f.number !in deleted)
    && (forall j :: i <= j < |added| ==> NotAfter(files, added[j]))
    && (forall j :: next <= j < |base| ==> NotAfter(files, base[j]))
  }

  /** Without a clash the order is strict all along. */
  ghost predicate StrictlyMerged(base: seq<File>, added: seq<File>, next: nat, i: nat, files: seq<File>) {
    && next <= |base| && i <= |added| && Ordered(files)
    && (forall j :: i <= j < |added| ==> AllBefore(files, added[j]))
    && (forall j :: next <= j < |base| ==> AllBefore(files, base[j]))
  }

  lemma MergeBase(base: seq<File>, deleted: set<nat>, added: seq<File>, next: nat, i: nat, files: seq<File>)
    requires Ordered(base) && Ordered(added) && Merged(base, deleted, added, next, i, files) && next < |base|
    requires i < |added| ==> !BySmallest(added[i], base[next])
    ensures Merged(base, deleted, added, next + 1, i, MaybeAdd(files, deleted, base[next]))
  {
    assert base[..next + 1] == base[..next] + [base[next]];
    var r := MaybeAdd(files, deleted, base[next]);
    forall j | i <= j < |added| ensures NotAfter(r, added[j]) {
      assert j > i ==> BySmallest(added[i], added[j]);
    }
  }

  lemma MergeBaseStrictly(base: seq<File>, deleted: set<nat>, added: seq<File>, next: nat, i: nat, files: seq<File>)
    requires Ordered(base) && Ordered(added) && StrictlyMerged(base, added, next, i, files) && next < |base| && !Clash(base, added)
    requires i < |added| ==> !BySmallest(added[i], base[next])
    ensures StrictlyMerged(base, added, next + 1, i, MaybeAdd(files, deleted, base[next]))
  {
    var r := MaybeAdd(files, deleted, base[next]);
    if i < |added| { assert base[next] in base && added[i] in added; }
    forall j | i <= j < |added| ensures AllBefore(r, added[j]) {
      assert j > i ==> BySmallest(added[i], added[j]);
    }
  }

  lemma MergeAdded(base: seq<File>, deleted: set<nat>, added: seq<File>, next: nat, i: nat, files: seq<File>)
    requires Ordered(base) && Ordered(added) && Merged(base, deleted, added, next, i, files) && i < |added|
    requires next < |base| ==> BySmallest(added[i], base[next])
    ensures Merged(base, deleted, added, next, i + 1, MaybeAdd(files, deleted, added[i]))
  {
    assert added[..i + 1] == added[..i] + [added[i]];
    var r := MaybeAdd(files, deleted, added[i]);
    forall j | next <= j < |base| ensures NotAfter(r, base[j]) {
      assert j > next ==> BySmallest(base[next], base[j]);
    }
  }

  lemma MergeAddedStrictly(base: seq<File>, deleted: set<nat>, added: seq<File>, next: nat, i: nat, files: seq<File>)
    requires Ordered(base) && Ordered(added) && StrictlyMerged(base, added, next, i, files) && i < |added|
    requires next < |base| ==> BySmallest(added[i], base[next])
    ensures StrictlyMerged(base, added, next, i + 1, MaybeAdd(files, deleted, added[i]))
  {
    var r := MaybeAdd(files, deleted, added[i]);
    forall j | next <= j < |base| ensures AllBefore(r, base[j]) {
      assert j > next ==> BySmallest(base[next], base[j]);
    }
  }

  lemma MergeDone(base: seq<File>, deleted: set<nat>, added: seq<File>, files: seq<File>)
    requires Merged(base, deleted, added, |base|, |added|, files)
    ensures WeaklyOrdered(files) && Files(files) == Saved(Files(base), Delta(deleted, Files(added)))
  {
    assert base[..|base|] == base && added[..|added|] == added;
  }

  lemma StrictlyDone(base: seq<File>, added: seq<File>, files: seq<File>)
    requires StrictlyMerged(base, added, |base|, |added|, files)
    ensures Ordered(files)
  {
  }

  /** Merges the surviving files of a level with the added ones, both in order. */
  method SaveLevel(base: seq<File>, deleted: set<nat>, added: seq<File>) returns (files: seq<File>)
    requires Ordered(base) && Ordered(added)
    ensures WeaklyOrdered(files) && (!Clash(base, added) ==> Ordered(files))
    ensures Files(files) == Saved(Files(base), Delta(deleted, Files(added)))
  {
    files := [];
    var next := 0;
    assert Merged(base, deleted, added, 0, 0, []) && StrictlyMerged(base, added, 0, 0, []);
    hide *;
    for i := 0 to |added|
      invariant 0 <= next <= |base| && Merged(base, deleted, added, next, i, files)
      invariant !Clash(base, added) ==> StrictlyMerged(base, added, next, i, files)
    {
      while next < |base| && !BySmallest(added[i], base[next])
        invariant 0 <= next <= |base| && Merged(base, deleted, added, next, i, files)
        invariant !Clash(base, added) ==> StrictlyMerged(base, added, next, i, files)
      {
        MergeBase(base, deleted, added, next, i, files);
        if !Clash(base, added) { MergeBaseStrictly(base, deleted, added, next, i, files); }
        files := MaybeAdd(files, deleted, base[next]);
        next := next + 1;
      }
      MergeAdded(base, deleted, added, next, i, files);
      if !Clash(base, added) { MergeAddedStrictly(base, deleted, added, next, i, files); }
      files := MaybeAdd(files, deleted, added[i]);
    }
    while next < |base|
      invariant 0 <= next <= |base| && Merged(base, deleted, added, next, |added|, files)
      invariant !Clash(base, added) ==> StrictlyMerged(base, added, next, |added|, files)
    {
      MergeBase(base, deleted, added, next, |added|, files);
      if !Clash(base, added) { MergeBaseStrictly(base, deleted, added, next, |added|, files); }
      files := MaybeAdd(files, deleted, base[next]);
      next := next + 1;
    }
    MergeDone(base, deleted, added, files);
    if !Clash(base, added) { StrictlyDone(base, added, files); }
  }

  /** What a builder has recorded for one level: numbers deleted, files added. */
  datatype Record = Record(deleted: set<nat>, added: seq<File>)

  /** Additions cancel deletions of the same number; the file set ignores equivalent files. */
  function AddFiles(r: Record, adds: seq<(nat, File)>, l: nat): Record {
    if adds == [] then r
    else
      var front, last := AddFiles(r, adds[..|adds| - 1], l), adds[|adds| - 1];
      if last.0 == l then Record(front.deleted - {last.1.number}, InsertOrdered(front.added, last.1)) else front
  }

  /** One edit recorded: deletions first, then additions. */
  ghost function Applied(r: Record, e: Edit, l: nat): Record {
    AddFiles(Record(r.deleted + DeletedAt(e, l), r.added), e.added, l)
  }

  ghost function DeltaOf(r: Record): Delta {
    Delta(r.deleted, Files(r.added))
  }

  lemma {:induction false} AddFilesOrdered(r: Record, adds: seq<(nat, File)>, l: nat)
    requires Ordered(r.added)
    ensures Ordered(AddFiles(r, adds, l).added)
  {
    if adds != [] {
      var front := adds[..|adds| - 1];
      AddFilesOrdered(r, front, l);
      InsertOrderedOrdered(AddFiles(r, front, l).added, adds[|adds| - 1].1);
    }
  }

  lemma AddFilesNext(r: Record, adds: seq<(nat, File)>, i: nat, l: nat)
    requires i < |adds|
    ensures AddFiles(r, adds[..i + 1], l) ==
            var front := AddFiles(r, adds[..i], l);
            if adds[i].0 == l then Record(front.deleted - {adds[i].1.number}, InsertOrdered(front.added, adds[i].1)) else front
  {
    assert adds[..i + 1][..i] == adds[..i];
  }

  /** With numbers new to the record an edit acts on the sets of numbers and files. */
  lemma {:induction false} FreshApplied(r: Record, e: Edit, l: nat, i: nat)
    requires i <= |e.added| && FreshAt(Files(r.added), e, l)
    ensures DeltaOf(AddFiles(Record(r.deleted + DeletedAt(e, l), r.added), e.added[..i], l)) ==
            ApplyTo(DeltaOf(r), e.(added := e.added[..i]), l)
  {
    var r0 := Record(r.deleted + DeletedAt(e, l), r.added);
    var part := e.(added := e.added[..i]);
    assert DeletedAt(part, l) == DeletedAt(e, l);
    if i == 0 {
      assert AddedAt(part, l) == {};
    } else {
      FreshApplied(r, e, l, i - 1);
      AddFilesNext(r0, e.added, i - 1, l);
      ApplyPrefix(DeltaOf(r), e, i - 1, l);
      if e.added[i - 1].0 == l {
        FreshNumber(Files(r.added), e, i - 1);
        var front := AddFiles(r0, e.added[..i - 1], l);
        forall g | g in front.added ensures g.number != e.added[i - 1].1.number {
          assert g in Files(front.added);
        }
      }
    }
  }

  lemma FreshIsApplyTo(r: Record, e: Edit, l: nat)
    requires FreshAt(Files(r.added), e, l)
    ensures DeltaOf(Applied(r, e, l)) == ApplyTo(DeltaOf(r), e, l)
  {
    FreshApplied(r, e, l, |e.added|);
    assert e.added[..|e.added|] == e.added;
  }

  lemma DisjointNoClash(base: seq<File>, added: seq<File>)
    requires Numbers(Files(base)) !! Numbers(Files(added))
    ensures !Clash(base, added)
  {
    forall f, g | f in base && g in added ensures f.number != g.number {
      assert f in Files(base) && g in Files(added);
      assert f.number in Numbers(Files(base)) && g.number in Numbers(Files(added));
    }
  }

  /** `VersionSet::Builder`: accumulates edits and saves the outcome over a base version. */
  class Builder {
    const base: Version
    var levels: seq<Record>

    ghost predicate Valid()
      reads this
    {
      |base| == |levels| == NUM_LEVELS && forall l :: 0 <= l < NUM_LEVELS ==> Ordered(base[l]) && Ordered(levels[l].added)
    }

    constructor (base: Version)
      requires |base| == NUM_LEVELS && forall l :: 0 <= l < NUM_LEVELS ==> Ordered(base[l])
      ensures Valid() && this.base == base && forall l :: 0 <= l < NUM_LEVELS ==> levels[l] == Record({}, [])
    {
      this.base := base;
      levels := seq(NUM_LEVELS, _ => Record({}, []));
    }

    /** Any edit: deletions first, then additions. */
    method Apply(e: Edit)
      requires Valid() && EditOk(e)
      modifies this
      ensures Valid() && forall l :: 0 <= l < NUM_LEVELS ==> levels[l] == Applied(old(levels[l]), e, l)
      ensures forall l :: 0 <= l < NUM_LEVELS && FreshAt(Files(old(levels[l]).added), e, l) ==>
                DeltaOf(levels[l]) == ApplyTo(DeltaOf(old(levels[l])), e, l)
    {
      ghost var was := levels;
      levels := seq(NUM_LEVELS, l requires 0 <= l < NUM_LEVELS && |levels| == NUM_LEVELS reads this =>
        Record(levels[l].deleted + (set d | d in e.deleted && d.0 == l :: d.1), levels[l].added));
      ghost var start := levels;
      hide InsertOrdered, Ordered;
      for i := 0 to |e.added|
        invariant |levels| == NUM_LEVELS && forall l :: 0 <= l < NUM_LEVELS ==> levels[l] == AddFiles(start[l], e.added[..i], l)
      {
        var (l, f) := e.added[i];
        assert e.added[i] in e.added;
        forall m | 0 <= m < NUM_LEVELS ensures AddFiles(start[m], e.added[..i + 1], m) ==
          if m == l then Record(levels[m].deleted - {f.number}, InsertOrdered(levels[m].added, f)) else levels[m]
        {
          AddFilesNext(start[m], e.added, i, m);
        }
        levels := levels[l := Record(levels[l].deleted - {f.number}, InsertOrdered(levels[l].added, f))];
      }
      assert e.added[..|e.added|] == e.added;
      forall l | 0 <= l < NUM_LEVELS
        ensures Ordered(levels[l].added)
        ensures FreshAt(Files(was[l].added), e, l) ==> DeltaOf(levels[l]) == ApplyTo(DeltaOf(was[l]), e, l)
      {
        AddFilesOrdered(start[l], e.added, l);
        if FreshAt(Files(was[l].added), e, l) { FreshIsApplyTo(was[l], e, l); }
      }
    }

    method SaveTo() returns (v: Version)
      requires Valid()
      ensures |v| == NUM_LEVELS
      ensures forall l :: 0 <= l < NUM_LEVELS ==> WeaklyOrdered(v[l]) && Files(v[l]) == Saved(Files(base[l]), DeltaOf(levels[l]))
      ensures forall l :: 0 <= l < NUM_LEVELS && !Clash(base[l], levels[l].added) ==> Ordered(v[l])
    {
      hide Ordered, WeaklyOrdered, Clash, Saved;
      v := [];
      for l := 0 to NUM_LEVELS
        invariant |v| == l
        invariant forall m :: 0 <= m < l ==> WeaklyOrdered(v[m]) && Files(v[m]) == Saved(Files(base[m]), DeltaOf(levels[m]))
        invariant forall m :: 0 <= m < l && !Clash(base[m], levels[m].added) ==> Ordered(v[m])
      {
        var files := SaveLevel(base[l], levels[l].deleted, levels[l].added);
        v := v + [files];
      }
    }
  }

  lemma AddedPrefix(e: Edit, i: nat, l: nat)
    requires i < |e.added|
    ensures AddedAt(e.(added := e.added[..i + 1]), l) ==
            AddedAt(e.(added := e.added[..i]), l) + (if l == e.added[i].0 then {e.added[i].1} else {})
  {
    assert e.added[..i + 1] == e.added[..i] + [e.added[i]];
  }

  lemma ApplyPrefix(d: Delta, e: Edit, i: nat, l: nat)
    requires i < |e.added|
    ensures ApplyTo(d, e.(added := e.added[..i + 1]), l) ==
            var b := ApplyTo(d, e.(added := e.added[..i]), l);
            if l == e.added[i].0 then Delta(b.del - {e.added[i].1.number}, b.add + {e.added[i].1}) else b
  {
    AddedPrefix(e, i, l);
    var x, y := AddedAt(e.(added := e.added[..i]), l), AddedAt(e.(added := e.added[..i + 1]), l);
    if l == e.added[i].0 {
      assert Numbers(y) == Numbers(x) + {e.added[i].1.number};
    }
  }

  lemma FreshNumber(seen: set<File>, e: Edit, i: nat)
    requires i < |e.added| && FreshAt(seen, e, e.added[i].0)
    ensures forall f :: f in seen ==> f.number != e.added[i].1.number
    ensures forall f :: f in AddedAt(e.(added := e.added[..i]), e.added[i].0) ==> f.number != e.added[i].1.number
  {
    assert e.added[i] in e.added;
    assert e.added[i].1 in AddedAt(e, e.added[i].0);
    assert e.added[i].1.number in Numbers(AddedAt(e, e.added[i].0));
    assert forall f :: f in seen ==> f.number in Numbers(seen);
  }

  /** Every file an edit adds to a level has a number new to that level, and the additions are distinct. */
  ghost predicate FreshAt(seen: set<File>, e: Edit, l: nat) {
    && Numbers(seen) !! Numbers(AddedAt(e, l))
    && forall i, j :: 0 <= i < j < |e.added| && e.added[i].0 == e.added[j].0 == l ==> e.added[i].1.number != e.added[j].1.number
  }

  // ---------------------------------------------------------------- replaying a manifest

  /** One builder per edit, as while the database runs. */
  ghost function EditByEdit(base: set<File>, edits: seq<Edit>, l: nat): set<File> {
    if edits == [] then base
    else After(EditByEdit(base, edits[..|edits| - 1], l), edits[|edits| - 1], l)
  }

  /** One builder for all edits, as in recovery. */
  ghost function Accumulated(edits: seq<Edit>, l: nat): Delta {
    if edits == [] then Delta({}, {})
    else ApplyTo(Accumulated(edits[..|edits| - 1], l), edits[|edits| - 1], l)
  }

  /** No number is added twice to the same level. */
  ghost predicate AllFresh(base: set<File>, edits: seq<Edit>, l: nat) {
    forall i :: 0 <= i < |edits| ==> FreshAt(base + Accumulated(edits[..i], l).add, edits[i], l)
  }

  /** Replaying all edits through one builder gives the level that was built edit by edit. */
  lemma {:induction false} ReplayFusion(base: set<File>, edits: seq<Edit>, l: nat)
    requires AllFresh(base, edits, l)
    ensures Saved(base, Accumulated(edits, l)) == EditByEdit(base, edits, l)
    decreases |edits|
  {
    if edits != [] {
      var front, e := edits[..|edits| - 1], edits[|edits| - 1];
      forall i | 0 <= i < |front| ensures FreshAt(base + Accumulated(front[..i], l).add, front[i], l) {
        assert front[..i] == edits[..i] && front[i] == edits[i];
      }
      ReplayFusion(base, front, l);
      assert FreshAt(base + Accumulated(front, l).add, e, l);
      FusionStep(base, Accumulated(front, l), e, l);
    }
  }

  lemma FusionStep(base: set<File>, d: Delta, e: Edit, l: nat)
    requires FreshAt(base + d.add, e, l)
    ensures Saved(base, ApplyTo(d, e, l)) == After(Saved(base, d), e, l)
  {
    forall f | f in base + d.add ensures f.number !in Numbers(AddedAt(e, l)) {
      assert f.number in Numbers(base + d.add);
    }
    assert forall f :: f in AddedAt(e, l) ==> f.number in Numbers(AddedAt(e, l));
  }

  ghost function LastLogNumber(edits: seq<Edit>): Option<nat> {
    if edits == [] then None
    else if edits[|edits| - 1].logNumber.Some? then edits[|edits| - 1].logNumber
    else LastLogNumber(edits[..|edits| - 1])
  }

  ghost function LastNextFile(edits: seq<Edit>): Option<nat> {
    if edits == [] then None
    else if edits[|edits| - 1].nextFile.Some? then edits[|edits| - 1].nextFile
    else LastNextFile(edits[..|edits| - 1])
  }

  ghost function LastSequence(edits: seq<Edit>): Option<nat> {
    if edits == [] then None
    else if edits[|edits| - 1].lastSequence.Some? then edits[|edits| - 1].lastSequence
    else LastSequence(edits[..|edits| - 1])
  }

  ghost predicate ManifestOk(edits: seq<Edit>) {
    && (forall i :: 0 <= i < |edits| ==> EditOk(edits[i]))
    && (forall l :: 0 <= l < NUM_LEVELS ==> AllFresh({}, edits, l))
  }

  /** `v` is the version the manifest describes. */
  ghost predicate Describes(edits: seq<Edit>, v: Version) {
    && |v| == NUM_LEVELS
    && forall l :: 0 <= l < NUM_LEVELS ==> Ordered(v[l]) && Files(v[l]) == EditByEdit({}, edits, l)
  }

  datatype Recovered = Recovered(v: Version, logNumber: nat, nextFile: nat, lastSequence: nat)

  /** One builder over all edits of a manifest. */
  ghost function Replayed(edits: seq<Edit>, l: nat): Record {
    if edits == [] then Record({}, []) else Applied(Replayed(edits[..|edits| - 1], l), edits[|edits| - 1], l)
  }

  lemma {:induction false} ReplayedFresh(edits: seq<Edit>, l: nat)
    requires AllFresh({}, edits, l)
    ensures DeltaOf(Replayed(edits, l)) == Accumulated(edits, l)
  {
    if edits != [] {
      var n := |edits| - 1;
      forall i | 0 <= i < n ensures FreshAt({} + Accumulated(edits[..n][..i], l).add, edits[..n][i], l) {
        assert edits[..n][..i] == edits[..i];
      }
      ReplayedFresh(edits[..n], l);
      assert FreshAt({} + Accumulated(edits[..n], l).add, edits[n], l);
      assert {} + Accumulated(edits[..n], l).add == Files(Replayed(edits[..n], l).added);
      FreshIsApplyTo(Replayed(edits[..n], l), edits[n], l);
    }
  }

  /** `VersionSet::Recover`: fails exactly when a number is missing; otherwise rebuilds the version. Any
      edits replay to ordered levels; edits that never add a number twice give the version they describe. */
  method Recover(edits: seq<Edit>) returns (r: Option<Recovered>)
    requires forall i :: 0 <= i < |edits| ==> EditOk(edits[i])
    ensures r.None? <==> LastLogNumber(edits).None? || LastNextFile(edits).None? || LastSequence(edits).None?
    ensures r.Some? ==> |r.value.v| == NUM_LEVELS && forall l :: 0 <= l < NUM_LEVELS ==>
              Ordered(r.value.v[l]) && Files(r.value.v[l]) == Saved({}, DeltaOf(Replayed(edits, l)))
    ensures r.Some? && ManifestOk(edits) ==> Describes(edits, r.value.v)
    ensures r.Some? ==> Some(r.value.logNumber) == LastLogNumber(edits)
    ensures r.Some? ==> LastNextFile(edits).Some? && r.value.nextFile == LastNextFile(edits).value + 1
    ensures r.Some? ==> Some(r.value.lastSequence) == LastSequence(edits)
  {
    var builder, logNumber, nextFile, lastSequence := ReplayEdits(edits);
    if nextFile.None? || logNumber.None? || lastSequence.None? {
      return None;
    }
    var v := builder.SaveTo();
    r := Some(Recovered(v, logNumber.value, nextFile.value + 1, lastSequence.value));
    forall l | 0 <= l < NUM_LEVELS ensures Ordered(v[l]) && Files(v[l]) == Saved({}, DeltaOf(Replayed(edits, l))) {
      assert Files(EMPTY_VERSION[l]) == {} && !Clash(EMPTY_VERSION[l], builder.levels[l].added);
    }
    hide Ordered, Saved, Replayed;
    if ManifestOk(edits) {
      forall l | 0 <= l < NUM_LEVELS ensures Files(v[l]) == EditByEdit({}, edits, l) {
        ReplayedFresh(edits, l);
        ReplayFusion({}, edits, l);
      }
    }
  }

  /** The loop over the manifest's records. */
  method ReplayEdits(edits: seq<Edit>)
    returns (builder: Builder, logNumber: Option<nat>, nextFile: Option<nat>, lastSequence: Option<nat>)
    requires forall i :: 0 <= i < |edits| ==> EditOk(edits[i])
    ensures fresh(builder) && builder.Valid() && builder.base == EMPTY_VERSION
    ensures forall l :: 0 <= l < NUM_LEVELS ==> builder.levels[l] == Replayed(edits, l)
    ensures logNumber == LastLogNumber(edits) && nextFile == LastNextFile(edits) && lastSequence == LastSequence(edits)
  {
    builder := new Builder(EMPTY_VERSION);
    logNumber, nextFile, lastSequence := None, None, None;
    hide Applied, Ordered, EditOk;
    for i := 0 to |edits|
      invariant fresh(builder) && builder.Valid() && builder.base == EMPTY_VERSION
      invariant forall l :: 0 <= l < NUM_LEVELS ==> builder.levels[l] == Replayed(edits[..i], l)
      invariant logNumber == LastLogNumber(edits[..i]) && nextFile == LastNextFile(edits[..i])
      invariant lastSequence == LastSequence(edits[..i])
    {
      var e := edits[i];
      builder.Apply(e);
      if e.logNumber.Some? { logNumber := e.logNumber; }
      if e.nextFile.Some? { nextFile := e.nextFile; }
      if e.lastSequence.Some? { lastSequence := e.lastSequence; }
      assert edits[..i + 1][..i] == edits[..i];
    }
    assert edits[..|edits|] == edits;
  }

  // ---------------------------------------------------------------- a number used twice

  const ONCE := File(4, 100, IKey(1.0, 1), IKey(1.0, 1), [Entry(IKey(1.0, 1), Put("once"))])
  const AGAIN := File(4, 100, IKey(2.0, 2), IKey(2.0, 2), [Entry(IKey(2.0, 2), Put("again"))])
  const REUSED := [Edit({}, [(0, ONCE)], None, None, None), Edit({(0, 4)}, [], None, None, None), Edit({}, [(0, AGAIN)], None, None, None)]

  /** Replaying needs numbers that are never reused: when one is added again after its deletion, a
      builder over all edits brings the deleted file back. */
  lemma ReuseResurrects()
    ensures ONCE !in EditByEdit({}, REUSED, 0) && ONCE in Saved({}, Accumulated(REUSED, 0)) && !AllFresh({}, REUSED, 0)
  {
    var e1, e2, e3 := REUSED[0], REUSED[1], REUSED[2];
    assert REUSED == [e1, e2, e3];
    ThreeEdits(e1, e2, e3);
    OneAddition(ONCE);
    OneAddition(AGAIN);
    OneDeletion(4);
    assert ONCE !in After(After({}, e1, 0), e2, 0);
    ReuseReplayed(e1, e2, e3);
    if AllFresh({}, REUSED, 0) { ReplayFusion({}, REUSED, 0); }
  }

  lemma OneAddition(f: File)
    ensures var e := Edit({}, [(0, f)], None, None, None); AddedAt(e, 0) == {f} && DeletedAt(e, 0) == {}
  {
    var e := Edit({}, [(0, f)], None, None, None);
    assert e.added[0] == (0, f) && (0, f) in e.added;
  }

  lemma OneDeletion(n: nat)
    ensures var e := Edit({(0, n)}, [], None, None, None); AddedAt(e, 0) == {} && DeletedAt(e, 0) == {n}
  {
    var e := Edit({(0, n)}, [], None, None, None);
    assert (0, n) in e.deleted;
  }

  lemma ThreeEdits(e1: Edit, e2: Edit, e3: Edit)
    ensures EditByEdit({}, [e1, e2, e3], 0) == After(After(After({}, e1, 0), e2, 0), e3, 0)
    ensures Accumulated([e1, e2, e3], 0) == ApplyTo(ApplyTo(ApplyTo(Delta({}, {}), e1, 0), e2, 0), e3, 0)
  {
    hide After, ApplyTo;
    assert [e1, e2, e3][..2] == [e1, e2] && [e1, e2][..1] == [e1] && [e1][..0] == [];
    assert EditByEdit({}, [e1], 0) == After({}, e1, 0) && Accumulated([e1], 0) == ApplyTo(Delta({}, {}), e1, 0);
    assert EditByEdit({}, [e1, e2], 0) == After(After({}, e1, 0), e2, 0);
    assert Accumulated([e1, e2], 0) == ApplyTo(ApplyTo(Delta({}, {}), e1, 0), e2, 0);
  }

  lemma ReuseReplayed(e1: Edit, e2: Edit, e3: Edit)
    requires REUSED == [e1, e2, e3] && AddedAt(e1, 0) == {ONCE} && AddedAt(e2, 0) == {} && AddedAt(e3, 0) == {AGAIN}
    requires DeletedAt(e1, 0) == {} && DeletedAt(e2, 0) == {4} && DeletedAt(e3, 0) == {}
    ensures ONCE in Saved({}, Accumulated(REUSED, 0))
  {
    ThreeEdits(e1, e2, e3);
    assert AGAIN.number == 4 && Numbers({AGAIN}) == {4};
    assert ApplyTo(Delta({}, {}), e1, 0).add == {ONCE};
  }

  /** A manifest describes one version only. */
  lemma DescribesUnique(edits: seq<Edit>, v: Version, w: Version)
    requires Describes(edits, v) && Describes(edits, w)
    ensures v == w
  {
    forall l | 0 <= l < NUM_LEVELS ensures v[l] == w[l] {
      OrderedUnique(v[l], w[l]);
    }
  }

  /** Logging an installed edit keeps the manifest in step with the version. */
  lemma DescribesNext(edits: seq<Edit>, v: Version, e: Edit, w: Version)
    requires Describes(edits, v) && Installs(v, e, w)
    ensures Describes(edits + [e], w)
  {
    assert (edits + [e])[..|edits|] == edits;
  }
}
