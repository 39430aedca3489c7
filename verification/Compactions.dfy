/** The work of a compaction: merging the inputs, the drop rule and the output files. */
module Compactions {
  import opened Optional
  import opened Keys
  import opened Versions
  import Merging

  // ---------------------------------------------------------------- the merging input iterator

  ghost predicate DistinctKeys(fs: seq<File>) {
    forall i, j, e, f :: 0 <= i < j < |fs| && e in fs[i].entries && f in fs[j].entries ==> e.ik != f.ik
  }

  ghost function Taken(fs: seq<File>, pos: seq<nat>): set<Entry>
    requires Merging.Positions(Lists(fs), pos)
  {
    set i, j | 0 <= i < |fs| && 0 <= j < pos[i] :: fs[i].entries[j]
  }

  ghost function Remaining(fs: seq<File>, pos: seq<nat>): nat
    requires Merging.Positions(Lists(fs), pos)
  {
    if fs == [] then 0 else |fs[0].entries| - pos[0] + Remaining(fs[1..], pos[1..])
  }

  lemma {:induction false} RemainingDrops(fs: seq<File>, pos: seq<nat>, i: nat)
    requires Merging.Positions(Lists(fs), pos)
    requires i < |fs| && pos[i] < |fs[i].entries|
    ensures Remaining(fs, pos[i := pos[i] + 1]) < Remaining(fs, pos)
  {
    if i > 0 {
      RemainingDrops(fs[1..], pos[1..], i - 1);
      assert pos[i := pos[i] + 1][1..] == pos[1..][i - 1 := pos[i] + 1];
    } else {
      assert pos[0 := pos[0] + 1][1..] == pos[1..];
    }
  }

  /** `MergingIterator` run to its end: repeatedly takes the smallest head of the children. */
  method MergeInputs(fs: seq<File>) returns (merged: seq<Entry>)
    requires (forall f :: f in fs ==> FileOk(f)) && DistinctKeys(fs)
    ensures Sorted(merged) && Content(merged) == LevelContent(fs)
  {
    merged := [];
    var pos: seq<nat> := seq(|fs|, _ => 0);
    var done := false;
    MergeStart(fs);
    hide *;
    while !done
      invariant Merges(fs, pos, merged)
      invariant done ==> AllDone(fs, pos)
      decreases Left(fs, pos), !done
    {
      MergeLengths(fs, pos, merged);
      var smallest := Merging.FindSmallest(Lists(fs), pos);
      SmallestOf(fs, pos, smallest);
      if smallest.None? {
        done := true;
      } else {
        var i := smallest.value;
        var e := fs[i].entries[pos[i]];
        MergeOne(fs, pos, merged, i);
        merged := merged + [e];
        pos := pos[i := pos[i] + 1];
      }
    }
    MergeEnd(fs, pos, merged);
  }

  /** What has been taken is sorted, complete up to the positions, and before everything that is left. */
  ghost predicate Merges(fs: seq<File>, pos: seq<nat>, merged: seq<Entry>) {
    Merging.Positions(Lists(fs), pos) && Content(merged) == Taken(fs, pos) && Sorted(merged) && HeadsAfter(fs, pos, merged)
  }

  ghost predicate AllDone(fs: seq<File>, pos: seq<nat>) {
    |pos| == |fs| && forall i :: 0 <= i < |fs| ==> pos[i] == |fs[i].entries|
  }

  ghost predicate Smallest(fs: seq<File>, pos: seq<nat>, i: nat) {
    && |pos| == |fs| && i < |fs| && pos[i] < |fs[i].entries|
    && forall j :: 0 <= j < |fs| && pos[j] < |fs[j].entries| ==>
         !Before(fs[j].entries[pos[j]].ik, fs[i].entries[pos[i]].ik)
  }

  ghost function Left(fs: seq<File>, pos: seq<nat>): nat {
    if Merging.Positions(Lists(fs), pos) then Remaining(fs, pos) else 0
  }

  lemma MergeStart(fs: seq<File>)
    ensures Merges(fs, seq(|fs|, _ => 0), [])
  {
  }

  lemma MergeLengths(fs: seq<File>, pos: seq<nat>, merged: seq<Entry>)
    requires Merges(fs, pos, merged)
    ensures |pos| == |fs| && Merging.Positions(Lists(fs), pos)
  {
  }

  lemma SmallestOf(fs: seq<File>, pos: seq<nat>, r: Option<nat>)
    requires Merging.Positions(Lists(fs), pos) && Merging.IsSmallest(Lists(fs), pos, r)
    ensures r.None? ==> AllDone(fs, pos)
    ensures r.Some? ==> Smallest(fs, pos, r.value)
    ensures r.Some? ==> r.value < |fs| && pos[r.value] < |fs[r.value].entries|
  {
  }

  lemma MergeOne(fs: seq<File>, pos: seq<nat>, merged: seq<Entry>, i: nat)
    requires (forall f :: f in fs ==> FileOk(f)) && DistinctKeys(fs) && Merges(fs, pos, merged) && Smallest(fs, pos, i)
    ensures Merges(fs, pos[i := pos[i] + 1], merged + [fs[i].entries[pos[i]]])
    ensures Left(fs, pos[i := pos[i] + 1]) < Left(fs, pos)
  {
    TakenOne(fs, pos, merged, i);
    MergeStep(fs, pos, merged, i);
    RemainingDrops(fs, pos, i);
  }

  lemma MergeEnd(fs: seq<File>, pos: seq<nat>, merged: seq<Entry>)
    requires Merges(fs, pos, merged) && AllDone(fs, pos)
    ensures Sorted(merged) && Content(merged) == LevelContent(fs)
  {
    AllTaken(fs, pos);
  }

  function Lists(fs: seq<File>): (r: seq<seq<Entry>>)
    ensures |r| == |fs| && forall i :: 0 <= i < |fs| ==> r[i] == fs[i].entries
  {
    seq(|fs|, i requires 0 <= i < |fs| => fs[i].entries)
  }

  /** Everything taken comes before the head of every child. */
  ghost predicate HeadsAfter(fs: seq<File>, pos: seq<nat>, merged: seq<Entry>)
    requires Merging.Positions(Lists(fs), pos)
  {
    forall j, x :: 0 <= j < |fs| && pos[j] < |fs[j].entries| && x in merged ==> Before(x.ik, fs[j].entries[pos[j]].ik)
  }

  lemma TakenOne(fs: seq<File>, pos: seq<nat>, merged: seq<Entry>, i: nat)
    requires Merging.Positions(Lists(fs), pos) && i < |fs| && pos[i] < |fs[i].entries| && Content(merged) == Taken(fs, pos)
    ensures Content(merged + [fs[i].entries[pos[i]]]) == Taken(fs, pos[i := pos[i] + 1])
  {
    var e, p := fs[i].entries[pos[i]], pos[i := pos[i] + 1];
    assert Content(merged + [e]) == Content(merged) + {e};
    assert Taken(fs, p) == Taken(fs, pos) + {e};
  }

  lemma MergeStep(fs: seq<File>, pos: seq<nat>, merged: seq<Entry>, i: nat)
    requires (forall f :: f in fs ==> FileOk(f)) && DistinctKeys(fs)
    requires Merging.Positions(Lists(fs), pos) && i < |fs| && pos[i] < |fs[i].entries| && HeadsAfter(fs, pos, merged)
    requires forall j :: 0 <= j < |fs| && pos[j] < |fs[j].entries| ==>
              !Before(fs[j].entries[pos[j]].ik, fs[i].entries[pos[i]].ik)
    ensures HeadsAfter(fs, pos[i := pos[i] + 1], merged + [fs[i].entries[pos[i]]])
  {
    var e := fs[i].entries[pos[i]];
    var m, p := merged + [e], pos[i := pos[i] + 1];
    assert fs[i] in fs;
    forall j, x | 0 <= j < |fs| && p[j] < |fs[j].entries| && x in m
      ensures Before(x.ik, fs[j].entries[p[j]].ik)
    {
      if j == i {
        assert Before(e.ik, fs[i].entries[p[i]].ik);
        assert x == e || Before(x.ik, e.ik);
      } else {
        var h := fs[j].entries[pos[j]];
        assert h in fs[j].entries && e in fs[i].entries;
        assert h.ik != e.ik;
      }
    }
  }

  lemma AllTaken(fs: seq<File>, pos: seq<nat>)
    requires |pos| == |fs| && forall i :: 0 <= i < |fs| ==> pos[i] == |fs[i].entries|
    ensures Taken(fs, pos) == LevelContent(fs)
  {
    forall e | e in Taken(fs, pos) ensures e in LevelContent(fs) {
      var i, j :| 0 <= i < |fs| && 0 <= j < pos[i] && fs[i].entries[j] == e;
      assert fs[i] in Files(fs) && e in fs[i].entries;
    }
    forall e | e in LevelContent(fs) ensures e in Taken(fs, pos) {
      var f :| f in fs && e in f.entries;
      var i :| 0 <= i < |fs| && fs[i] == f;
      var j :| 0 <= j < |f.entries| && f.entries[j] == e;
      assert fs[i].entries[j] == e;
    }
  }

  // ---------------------------------------------------------------- the drop rule

  /** No level below the output level has a file whose user key range covers `k`. */
  ghost predicate IsBase(v: Version, level: nat, k: UserKey) {
    forall l, f :: level + 2 <= l < |v| && f in v[l] ==> !(f.smallest.ukey <= k <= f.largest.ukey)
  }

  /** A newer entry for the same user key is already visible to every live snapshot. */
  ghost predicate Hidden(input: set<Entry>, ss: nat, e: Entry) {
    exists f :: f in input && f.ik.ukey == e.ik.ukey && e.ik.seqno < f.ik.seqno <= ss
  }

  /** A tombstone visible to every live snapshot and with nothing below it. */
  ghost predicate Obsolete(v: Version, level: nat, ss: nat, e: Entry) {
    e.op.Delete? && e.ik.seqno <= ss && IsBase(v, level, e.ik.ukey)
  }

  ghost predicate Dropped(v: Version, level: nat, input: set<Entry>, ss: nat, e: Entry) {
    Hidden(input, ss, e) || Obsolete(v, level, ss, e)
  }

  /** The state of one compaction. `levelPtrs` only ever move forward, which is sound because the
      keys asked about never decrease. */
  class Compaction {
    const v: Version
    const level: nat
    var levelPtrs: seq<nat>
    ghost var reached: Option<UserKey>

    ghost predicate Valid()
      reads this
    {
      && |levelPtrs| == NUM_LEVELS && level + 1 < NUM_LEVELS
      && (forall l :: 0 <= l < NUM_LEVELS && l < |v| ==> levelPtrs[l] <= |v[l]|)
      && (forall l, i :: level + 2 <= l < NUM_LEVELS && l < |v| && 0 <= i < levelPtrs[l] ==>
            reached.Some? && v[l][i].largest.ukey < reached.value)
    }

    constructor (v: Version, level: nat)
      requires level + 1 < NUM_LEVELS
      ensures Valid() && this.v == v && this.level == level && reached == None
    {
      this.v, this.level := v, level;
      levelPtrs := [0, 0, 0, 0, 0, 0, 0];
      reached := None;
    }

    /** Moves the cursor of one level past the files that end before `k`; false if it then stands on a
        file whose range covers `k`. */
    method Advance(lvl: nat, k: UserKey) returns (clear: bool)
      requires Valid() && level + 2 <= lvl < NUM_LEVELS && lvl < |v| && reached == Some(k)
      modifies this`levelPtrs
      ensures Valid()
      ensures forall i :: 0 <= i < levelPtrs[lvl] ==> v[lvl][i].largest.ukey < k
      ensures clear <==> levelPtrs[lvl] == |v[lvl]| || k < v[lvl][levelPtrs[lvl]].smallest.ukey
      ensures !clear ==> levelPtrs[lvl] < |v[lvl]| && v[lvl][levelPtrs[lvl]].smallest.ukey <= k <= v[lvl][levelPtrs[lvl]].largest.ukey
    {
      var files := v[lvl];
      while levelPtrs[lvl] < |files|
        invariant Valid()
      {
        var f := files[levelPtrs[lvl]];
        if k <= f.largest.ukey {
          return k < f.smallest.ukey;
        }
        levelPtrs := levelPtrs[lvl := levelPtrs[lvl] + 1];
      }
      clear := true;
    }

    /** Agrees with a full scan of the levels below, although it only looks from the cursors on. */
    method IsBaseLevelForKey(k: UserKey) returns (r: bool)
      requires Valid() && VersionOk(v) && (reached.Some? ==> reached.value <= k)
      modifies this
      ensures Valid() && reached == Some(k)
      ensures r <==> IsBase(v, level, k)
    {
      reached := Some(k);
      LevelCount(v);
      hide VersionOk, LevelSorted, FileOk, IsBase;
      BaseStarts(v, level, k);
      for lvl := level + 2 to NUM_LEVELS
        invariant Valid() && reached == Some(k) && BaseUpTo(v, level, lvl, k)
      {
        var far := Advance(lvl, k);
        if !far {
          NotBase(v, level, lvl, v[lvl][levelPtrs[lvl]], k);
          return false;
        }
        DeepLevel(v, lvl);
        CursorSuffices(v[lvl], levelPtrs[lvl], k);
        BaseNext(v, level, lvl, k);
      }
      BaseEnds(v, level, k);
      r := true;
    }
  }

  /** Files before the cursor end before `k`; if the file at the cursor starts after `k`, so do the rest. */
  ghost predicate BaseUpTo(v: Version, level: nat, lvl: nat, k: UserKey) {
    forall l, f :: level + 2 <= l < lvl && l < |v| && f in v[l] ==> !(f.smallest.ukey <= k <= f.largest.ukey)
  }

  lemma LevelCount(v: Version)
    requires VersionOk(v)
    ensures |v| == NUM_LEVELS
  {
  }

  lemma DeepLevel(v: Version, l: nat)
    requires VersionOk(v) && 1 <= l < NUM_LEVELS
    ensures |v| == NUM_LEVELS && LevelSorted(v[l]) && forall f :: f in v[l] ==> FileOk(f)
  {
    assert LevelOk(v[l]);
  }

  lemma BaseStarts(v: Version, level: nat, k: UserKey)
    ensures BaseUpTo(v, level, level + 2, k)
  {
  }

  lemma BaseNext(v: Version, level: nat, lvl: nat, k: UserKey)
    requires BaseUpTo(v, level, lvl, k) && lvl < |v| && forall f :: f in v[lvl] ==> !(f.smallest.ukey <= k <= f.largest.ukey)
    ensures BaseUpTo(v, level, lvl + 1, k)
  {
  }

  lemma BaseEnds(v: Version, level: nat, k: UserKey)
    requires |v| == NUM_LEVELS && BaseUpTo(v, level, NUM_LEVELS, k)
    ensures IsBase(v, level, k)
  {
  }

  lemma NotBase(v: Version, level: nat, l: nat, f: File, k: UserKey)
    requires level + 2 <= l < |v| && f in v[l] && f.smallest.ukey <= k <= f.largest.ukey
    ensures !IsBase(v, level, k)
  {
  }

  lemma CursorSuffices(files: seq<File>, n: nat, k: UserKey)
    requires LevelSorted(files) && (forall f :: f in files ==> FileOk(f)) && n <= |files|
    requires forall i :: 0 <= i < n ==> files[i].largest.ukey < k
    requires n < |files| ==> k < files[n].smallest.ukey
    ensures forall f :: f in files ==> !(f.smallest.ukey <= k <= f.largest.ukey)
  {
    forall f | f in files ensures !(f.smallest.ukey <= k <= f.largest.ukey) {
      var i :| 0 <= i < |files| && files[i] == f;
      if i >= n {
        assert files[n] in files;
        InRange(files[n], files[n].entries[0]);
      }
    }
  }

  function Flatten(parts: seq<seq<Entry>>): seq<Entry> {
    if parts == [] then [] else Flatten(parts[..|parts| - 1]) + parts[|parts| - 1]
  }

  lemma HiddenByPrevious(input: seq<Entry>, ss: nat, i: nat)
    requires Sorted(input) && i < |input|
    ensures Hidden(Content(input), ss, input[i]) <==>
              i > 0 && input[i - 1].ik.ukey == input[i].ik.ukey && input[i - 1].ik.seqno <= ss
  {
    if i > 0 && input[i - 1].ik.ukey == input[i].ik.ukey && input[i - 1].ik.seqno <= ss {
      assert Before(input[i - 1].ik, input[i].ik);
      assert input[i - 1] in Content(input);
    }
    forall f | f in input && f.ik.ukey == input[i].ik.ukey && input[i].ik.seqno < f.ik.seqno <= ss
      ensures i > 0 && input[i - 1].ik.ukey == input[i].ik.ukey && input[i - 1].ik.seqno <= ss
    {
      var j :| 0 <= j < |input| && input[j] == f;
      assert j < i;
      if j < i - 1 {
        assert Before(input[j].ik, input[i - 1].ik) && Before(input[i - 1].ik, input[i].ik);
      }
    }
  }

  /** `kept` is what the drop rule leaves of the first `n` input entries. */
  ghost predicate KeptPrefix(v: Version, level: nat, input: seq<Entry>, ss: nat, n: nat, kept: seq<Entry>)
    requires n <= |input|
  {
    && Sorted(kept)
    && (forall x :: x in kept ==> x in input[..n])
    && (forall i :: 0 <= i < n ==> (input[i] in kept <==> !Dropped(v, level, Content(input), ss, input[i])))
  }

  lemma KeptStep(v: Version, level: nat, input: seq<Entry>, ss: nat, n: nat, kept: seq<Entry>, next: seq<Entry>)
    requires Sorted(input) && n < |input| && KeptPrefix(v, level, input, ss, n, kept)
    requires next == if Dropped(v, level, Content(input), ss, input[n]) then kept else kept + [input[n]]
    ensures KeptPrefix(v, level, input, ss, n + 1, next)
  {
    assert input[..n + 1] == input[..n] + [input[n]];
    assert forall x :: x in kept ==> Before(x.ik, input[n].ik);
    forall i | 0 <= i < n + 1
      ensures input[i] in next <==> !Dropped(v, level, Content(input), ss, input[i])
    {
      if i < n { assert input[i] != input[n]; }
    }
  }

  /** The output files of a compaction: those finished and the one being built, empty if none is open. */
  datatype Outputs = Outputs(files: seq<seq<Entry>>, builder: seq<Entry>) {
    ghost predicate NoneEmpty() {
      forall i :: 0 <= i < |files| ==> files[i] != []
    }

    ghost function Written(): seq<Entry> {
      Flatten(files) + builder
    }

    /** `FinishCompactionOutputFile`, if a file is open. */
    function Finish(): (r: Outputs)
      ensures r.Written() == Written() && r.builder == []
      ensures NoneEmpty() ==> r.NoneEmpty()
    {
      if builder == [] then this
      else
        assert (files + [builder])[..|files|] == files;
        Outputs(files + [builder], [])
    }

    function Add(e: Entry): (r: Outputs)
      ensures r.Written() == Written() + [e]
      ensures NoneEmpty() ==> r.NoneEmpty()
    {
      assert Flatten(files) + (builder + [e]) == Flatten(files) + builder + [e];
      Outputs(files, builder + [e])
    }
  }

  /** The decision about the next entry, given the user key and sequence number of the previous one. */
  method ShouldDrop(c: Compaction, input: seq<Entry>, i: nat, ss: nat, current: Option<UserKey>, last: nat)
    returns (drop: bool)
    requires VersionOk(c.v) && c.Valid() && Sorted(input) && i < |input| && ss < MAX_SEQUENCE
    requires c.reached.Some? ==> i > 0 && c.reached.value <= input[i - 1].ik.ukey
    requires if i == 0 then current == None
             else current == Some(input[i - 1].ik.ukey) && last == input[i - 1].ik.seqno
    modifies c
    ensures c.Valid() && (c.reached.Some? ==> c.reached.value <= input[i].ik.ukey)
    ensures drop <==> Dropped(c.v, c.level, Content(input), ss, input[i])
  {
    var e := input[i];
    HiddenByPrevious(input, ss, i);
    assert i > 0 ==> Before(input[i - 1].ik, e.ik);
    var lastSequenceForKey := last;
    if current != Some(e.ik.ukey) {
      lastSequenceForKey := MAX_SEQUENCE;
    }
    drop := false;
    if lastSequenceForKey <= ss {
      drop := true;
    } else if e.op.Delete? && e.ik.seqno <= ss {
      drop := c.IsBaseLevelForKey(e.ik.ukey);
    }
  }

  /** The local variables of the compaction loop. */
  datatype Progress = Progress(currentUserKey: Option<UserKey>, lastSequenceForKey: nat, out: Outputs)

  ghost predicate ProgressOk(v: Version, level: nat, input: seq<Entry>, ss: nat, i: nat, p: Progress)
    requires i <= |input|
  {
    && (if i == 0 then p.currentUserKey == None
        else p.currentUserKey == Some(input[i - 1].ik.ukey) && p.lastSequenceForKey == input[i - 1].ik.seqno)
    && p.out.NoneEmpty() && KeptPrefix(v, level, input, ss, i, p.out.Written())
  }

  /** The cursors have been asked about no key beyond the entries before `i`. */
  ghost predicate CursorsBehind(c: Compaction, input: seq<Entry>, i: nat)
    requires i <= |input|
    reads c
  {
    c.Valid() && (c.reached.Some? ==> i > 0 && c.reached.value <= input[i - 1].ik.ukey)
  }

  // ---------------------------------------------------------------- where output files end

  /** No file ends between input `i` and the point at which `stopBefore` has been asked about the
      inputs before `stops` and `full` about the inputs before `fulls`. */
  ghost predicate Uncut(input: seq<Entry>, kept: seq<Entry>, stopBefore: nat -> bool, full: nat -> bool, i: nat, stops: nat, fulls: nat)
    requires fulls <= |input|
  {
    && (forall m: nat :: i < m < stops ==> !stopBefore(m))
    && (forall m: nat :: i <= m < fulls && input[m] in kept ==> !full(m))
  }

  ghost predicate Together(files: seq<seq<Entry>>, a: Entry, b: Entry) {
    exists n :: 0 <= n < |files| && a in files[n] && b in files[n]
  }

  /** The open file holds what has not been cut off yet. */
  ghost predicate OpenOk(input: seq<Entry>, stopBefore: nat -> bool, full: nat -> bool, n: nat, stops: nat, fulls: nat, out: Outputs)
    requires n <= |input| && fulls <= |input|
  {
    forall i: nat :: i < n && input[i] in out.Written() ==>
      (input[i] in out.builder <==> Uncut(input, out.Written(), stopBefore, full, i, stops, fulls))
  }

  /** Two entries are in one file exactly if nothing cuts between them. */
  ghost predicate ClosedOk(input: seq<Entry>, stopBefore: nat -> bool, full: nat -> bool, n: nat, out: Outputs)
    requires n <= |input|
  {
    forall i: nat, j: nat :: i < j < n && input[i] in out.Written() && input[j] in out.Written() ==>
      (Together(out.files, input[i], input[j]) || (input[i] in out.builder && input[j] in out.builder) <==>
       Uncut(input, out.Written(), stopBefore, full, i, j + 1, j))
  }

  ghost predicate CutsOk(input: seq<Entry>, stopBefore: nat -> bool, full: nat -> bool, n: nat, stops: nat, fulls: nat, out: Outputs)
    requires n <= |input| && fulls <= |input|
  {
    OpenOk(input, stopBefore, full, n, stops, fulls, out) && ClosedOk(input, stopBefore, full, n, out)
  }

  lemma TogetherAppend(files: seq<seq<Entry>>, f: seq<Entry>, a: Entry, b: Entry)
    ensures Together(files + [f], a, b) <==> Together(files, a, b) || (a in f && b in f)
  {
    var all := files + [f];
    if Together(files, a, b) {
      var n :| 0 <= n < |files| && a in files[n] && b in files[n];
      assert all[n] == files[n];
    }
    if a in f && b in f {
      assert all[|files|] == f;
    }
    if Together(all, a, b) {
      var n :| 0 <= n < |all| && a in all[n] && b in all[n];
      assert n < |files| ==> all[n] == files[n];
    }
  }

  lemma FinishIs(out: Outputs)
    ensures out.Finish().files == if out.builder == [] then out.files else out.files + [out.builder]
  {
    hide Flatten;
  }

  lemma FinishTogether(out: Outputs, a: Entry, b: Entry)
    ensures var r := out.Finish();
            Together(r.files, a, b) <==> Together(out.files, a, b) || (a in out.builder && b in out.builder)
  {
    hide *;
    FinishIs(out);
    TogetherAppend(out.files, out.builder, a, b);
  }

  lemma UncutOn(input: seq<Entry>, kept: seq<Entry>, stopBefore: nat -> bool, full: nat -> bool, i: nat, n: nat)
    requires i <= n < |input|
    ensures i < n && !stopBefore(n) ==> Uncut(input, kept, stopBefore, full, i, n + 1, n) == Uncut(input, kept, stopBefore, full, i, n, n)
    ensures input[n] !in kept || !full(n) ==>
              Uncut(input, kept, stopBefore, full, i, n + 1, n + 1) == Uncut(input, kept, stopBefore, full, i, n + 1, n)
  {
  }

  /** Closing the open file, if some condition cuts every kept entry from what follows. */
  lemma FinishCuts(input: seq<Entry>, stopBefore: nat -> bool, full: nat -> bool, n: nat, stops: nat, fulls: nat, stops2: nat, fulls2: nat, out: Outputs)
    requires n <= |input| && fulls <= |input| && fulls2 <= |input| && CutsOk(input, stopBefore, full, n, stops, fulls, out)
    requires forall i: nat :: i < n && input[i] in out.Written() ==> !Uncut(input, out.Written(), stopBefore, full, i, stops2, fulls2)
    ensures CutsOk(input, stopBefore, full, n, stops2, fulls2, out.Finish())
  {
    hide Uncut, Outputs.Written;
    forall i: nat, j: nat | i < j < n ensures Together(out.Finish().files, input[i], input[j]) <==>
      Together(out.files, input[i], input[j]) || (input[i] in out.builder && input[j] in out.builder)
    {
      FinishTogether(out, input[i], input[j]);
    }
  }

  lemma StopCuts(input: seq<Entry>, stopBefore: nat -> bool, full: nat -> bool, n: nat, out: Outputs)
    requires n < |input| && CutsOk(input, stopBefore, full, n, n, n, out)
    ensures CutsOk(input, stopBefore, full, n, n + 1, n, if stopBefore(n) then out.Finish() else out)
  {
    if stopBefore(n) {
      FinishCuts(input, stopBefore, full, n, n, n, n + 1, n, out);
    } else {
      forall i: nat | i < n && input[i] in out.Written()
        ensures Uncut(input, out.Written(), stopBefore, full, i, n + 1, n) == Uncut(input, out.Written(), stopBefore, full, i, n, n)
      {
        UncutOn(input, out.Written(), stopBefore, full, i, n);
      }
    }
  }

  lemma {:induction false} InFlatten(files: seq<seq<Entry>>, n: nat)
    requires n < |files|
    ensures forall e :: e in files[n] ==> e in Flatten(files)
  {
    var last := |files| - 1;
    if n < last {
      InFlatten(files[..last], n);
    }
  }

  /** An entry new to the outputs shares no closed file with another. */
  lemma NewTogether(out: Outputs, e: Entry)
    requires e !in out.Written()
    ensures e !in out.builder && forall a :: !Together(out.files, a, e)
  {
    forall n: nat | n < |out.files| ensures e !in out.files[n] {
      InFlatten(out.files, n);
    }
  }

  lemma UncutSame(input: seq<Entry>, kept: seq<Entry>, kept2: seq<Entry>, stopBefore: nat -> bool, full: nat -> bool, i: nat, stops: nat, fulls: nat)
    requires fulls <= |input| && forall m: nat :: m < fulls ==> (input[m] in kept <==> input[m] in kept2)
    ensures Uncut(input, kept, stopBefore, full, i, stops, fulls) == Uncut(input, kept2, stopBefore, full, i, stops, fulls)
  {
  }

  lemma AddParts(input: seq<Entry>, n: nat, out: Outputs)
    requires Sorted(input) && n < |input| && input[n] !in out.Written()
    ensures var r := out.Add(input[n]);
            && r.files == out.files && input[n] in r.builder && input[n] in r.Written()
            && (forall i: nat :: i < n ==> (input[i] in r.Written() <==> input[i] in out.Written()))
            && (forall i: nat :: i < n ==> (input[i] in r.builder <==> input[i] in out.builder))
  {
    var e, r := input[n], out.Add(input[n]);
    assert forall i: nat :: i < n ==> input[i] != e;
    hide Sorted;
    assert r.Written() == out.Written() + [e];
    assert r.builder == out.builder + [e];
  }

  lemma AddOpen(input: seq<Entry>, stopBefore: nat -> bool, full: nat -> bool, n: nat, out: Outputs)
    requires Sorted(input) && n < |input| && OpenOk(input, stopBefore, full, n, n + 1, n, out)
    requires input[n] !in out.Written()
    ensures OpenOk(input, stopBefore, full, n + 1, n + 1, n, out.Add(input[n]))
  {
    var r := out.Add(input[n]);
    AddParts(input, n, out);
    assert Uncut(input, r.Written(), stopBefore, full, n, n + 1, n);
    hide Uncut, Outputs.Written, Outputs.Add, Sorted;
    forall i: nat | i < n && input[i] in r.Written()
      ensures Uncut(input, out.Written(), stopBefore, full, i, n + 1, n) == Uncut(input, r.Written(), stopBefore, full, i, n + 1, n)
    {
      UncutSame(input, out.Written(), r.Written(), stopBefore, full, i, n + 1, n);
    }
  }

  lemma AddClosed(input: seq<Entry>, stopBefore: nat -> bool, full: nat -> bool, n: nat, out: Outputs)
    requires Sorted(input) && n < |input| && CutsOk(input, stopBefore, full, n, n + 1, n, out)
    requires input[n] !in out.Written()
    ensures ClosedOk(input, stopBefore, full, n + 1, out.Add(input[n]))
  {
    var r := out.Add(input[n]);
    NewTogether(out, input[n]);
    AddParts(input, n, out);
    hide Uncut, Outputs.Written, Outputs.Add, Together, Sorted;
    forall i: nat, j: nat | i < j < n + 1 && input[i] in r.Written() && input[j] in r.Written()
      ensures Together(r.files, input[i], input[j]) || (input[i] in r.builder && input[j] in r.builder) <==>
              Uncut(input, r.Written(), stopBefore, full, i, j + 1, j)
    {
      UncutSame(input, out.Written(), r.Written(), stopBefore, full, i, j + 1, j);
    }
  }

  lemma SkipCuts(input: seq<Entry>, stopBefore: nat -> bool, full: nat -> bool, n: nat, out: Outputs)
    requires n < |input| && CutsOk(input, stopBefore, full, n, n + 1, n, out) && input[n] !in out.Written()
    ensures CutsOk(input, stopBefore, full, n + 1, n + 1, n + 1, out)
  {
    hide Uncut, Outputs.Written, Together;
    forall i: nat | i < n && input[i] in out.Written()
      ensures Uncut(input, out.Written(), stopBefore, full, i, n + 1, n + 1) == Uncut(input, out.Written(), stopBefore, full, i, n + 1, n)
    {
      UncutOn(input, out.Written(), stopBefore, full, i, n);
    }
  }

  lemma FullCuts(input: seq<Entry>, stopBefore: nat -> bool, full: nat -> bool, n: nat, out: Outputs)
    requires n < |input| && CutsOk(input, stopBefore, full, n + 1, n + 1, n, out) && input[n] in out.Written()
    ensures CutsOk(input, stopBefore, full, n + 1, n + 1, n + 1, if full(n) then out.Finish() else out)
  {
    if full(n) {
      FinishCuts(input, stopBefore, full, n + 1, n + 1, n, n + 1, n + 1, out);
    } else {
      forall i: nat | i < n + 1 && input[i] in out.Written()
        ensures Uncut(input, out.Written(), stopBefore, full, i, n + 1, n + 1) == Uncut(input, out.Written(), stopBefore, full, i, n + 1, n)
      {
        UncutOn(input, out.Written(), stopBefore, full, i, n);
      }
    }
  }

  /** What one round does to the open and the closed files. */
  lemma CutStep(input: seq<Entry>, stopBefore: nat -> bool, full: nat -> bool, n: nat, out: Outputs, drop: bool, next: Outputs)
    requires Sorted(input) && n < |input| && CutsOk(input, stopBefore, full, n, n, n, out) && input[n] !in out.Written()
    requires var open := if stopBefore(n) then out.Finish() else out;
             next == if drop then open else if full(n) then open.Add(input[n]).Finish() else open.Add(input[n])
    ensures CutsOk(input, stopBefore, full, n + 1, n + 1, n + 1, next)
  {
    hide Sorted, OpenOk, ClosedOk, Outputs.Written;
    StopCuts(input, stopBefore, full, n, out);
    var open := if stopBefore(n) then out.Finish() else out;
    if drop {
      SkipCuts(input, stopBefore, full, n, open);
    } else {
      AddOpen(input, stopBefore, full, n, open);
      AddClosed(input, stopBefore, full, n, open);
      FullCuts(input, stopBefore, full, n, open.Add(input[n]));
    }
  }

  /** One round of the compaction loop. */
  method ProcessEntry(c: Compaction, input: seq<Entry>, i: nat, ss: nat, stop: bool, full: bool, p: Progress)
    returns (drop: bool, q: Progress)
    requires VersionOk(c.v) && Sorted(input) && i < |input| && ss < MAX_SEQUENCE
    requires CursorsBehind(c, input, i) && ProgressOk(c.v, c.level, input, ss, i, p)
    modifies c
    ensures CursorsBehind(c, input, i + 1) && ProgressOk(c.v, c.level, input, ss, i + 1, q)
    ensures var open := if stop then p.out.Finish() else p.out;
            q.out == if drop then open else if full then open.Add(input[i]).Finish() else open.Add(input[i])
  {
    var out := if stop then p.out.Finish() else p.out;
    var e := input[i];
    drop := ShouldDrop(c, input, i, ss, p.currentUserKey, p.lastSequenceForKey);
    hide VersionOk, Sorted, Dropped, KeptPrefix, Flatten, Content, Outputs.Written, Outputs.NoneEmpty, Compaction.Valid, Before;
    var next := if drop then out else out.Add(e);
    KeptStep(c.v, c.level, input, ss, i, out.Written(), next.Written());
    q := Progress(Some(e.ik.ukey), e.ik.seqno, if !drop && full then next.Finish() else next);
  }

  /** The loop itself. */
  method ProcessEntries(c: Compaction, input: seq<Entry>, ss: nat, stopBefore: nat -> bool, full: nat -> bool)
    returns (p: Progress)
    requires VersionOk(c.v) && c.Valid() && c.reached == None
    requires Sorted(input) && ss < MAX_SEQUENCE
    modifies c
    ensures ProgressOk(c.v, c.level, input, ss, |input|, p) && CutsOk(input, stopBefore, full, |input|, |input|, |input|, p.out)
  {
    p := Progress(None, MAX_SEQUENCE, Outputs([], []));
    WorkStarts(c, input, ss, stopBefore, full, p);
    hide *;
    for i := 0 to |input|
      invariant CursorsBehind(c, input, i) && ProgressOk(c.v, c.level, input, ss, i, p)
      invariant CutsOk(input, stopBefore, full, i, i, i, p.out)
    {
      NotYet(c.v, c.level, input, ss, i, p);
      ghost var was := p.out;
      var drop;
      drop, p := ProcessEntry(c, input, i, ss, stopBefore(i), full(i), p);
      CutStep(input, stopBefore, full, i, was, drop, p.out);
    }
  }

  /** The compaction loop. `stopBefore` and `full` stand for the two reasons to close an output file
      (overlap with grandparents, file size); they decide where files end and nothing else. */
  method DoCompactionWork(c: Compaction, input: seq<Entry>, ss: nat, stopBefore: nat -> bool, full: nat -> bool)
    returns (outputs: seq<seq<Entry>>)
    requires VersionOk(c.v) && c.Valid() && c.reached == None
    requires Sorted(input) && ss < MAX_SEQUENCE
    modifies c
    ensures forall i :: 0 <= i < |outputs| ==> outputs[i] != []
    ensures Sorted(Flatten(outputs))
    ensures forall e :: e in Flatten(outputs) <==>
              e in input && !Dropped(c.v, c.level, Content(input), ss, e)
    ensures forall e :: e in Flatten(outputs) && e.op.Delete? && e.ik.seqno <= ss ==>
              exists l, f :: c.level + 2 <= l < |c.v| && f in c.v[l] && f.smallest.ukey <= e.ik.ukey <= f.largest.ukey
    ensures forall e, f :: e in Flatten(outputs) && f in Flatten(outputs) && e.ik.ukey == f.ik.ukey ==>
              e.ik.seqno > ss || f.ik.seqno > ss || e == f
    ensures forall e :: e in input && e !in Flatten(outputs) ==>
              || (exists f :: f in input && f.ik.ukey == e.ik.ukey && e.ik.seqno < f.ik.seqno <= ss)
              || (e.op.Delete? && e.ik.seqno <= ss &&
                  !exists l, f :: c.level + 2 <= l < |c.v| && f in c.v[l] && f.smallest.ukey <= e.ik.ukey <= f.largest.ukey)
    ensures forall i, j :: 0 <= i < j < |input| && input[i] in Flatten(outputs) && input[j] in Flatten(outputs) ==>
              ((exists n :: 0 <= n < |outputs| && input[i] in outputs[n] && input[j] in outputs[n]) <==>
               && (forall m :: i < m <= j ==> !stopBefore(m))
               && (forall m :: i <= m < j && input[m] in Flatten(outputs) ==> !full(m)))
  {
    hide *;
    var p := ProcessEntries(c, input, ss, stopBefore, full);
    outputs := p.out.Finish().files;
    Finished(c.v, c.level, input, ss, p);
    KeptExactly(c.v, c.level, input, ss, Flatten(outputs));
    FilesCut(input, stopBefore, full, p.out);
  }

  lemma WorkStarts(c: Compaction, input: seq<Entry>, ss: nat, stopBefore: nat -> bool, full: nat -> bool, p: Progress)
    requires c.Valid() && c.reached == None && p == Progress(None, MAX_SEQUENCE, Outputs([], []))
    ensures CursorsBehind(c, input, 0) && ProgressOk(c.v, c.level, input, ss, 0, p)
    ensures CutsOk(input, stopBefore, full, 0, 0, 0, p.out)
  {
    KeptNone(c.v, c.level, input, ss);
  }

  lemma NotYet(v: Version, level: nat, input: seq<Entry>, ss: nat, i: nat, p: Progress)
    requires Sorted(input) && i < |input| && ProgressOk(v, level, input, ss, i, p)
    ensures input[i] !in p.out.Written()
  {
    hide Dropped, Outputs.Written;
  }

  /** The drop rule, stated about the outputs. */
  lemma KeptExactly(v: Version, level: nat, input: seq<Entry>, ss: nat, kept: seq<Entry>)
    requires Sorted(input) && forall e :: e in kept <==> e in input && !Dropped(v, level, Content(input), ss, e)
    ensures forall e :: e in kept && e.op.Delete? && e.ik.seqno <= ss ==>
              exists l, f :: level + 2 <= l < |v| && f in v[l] && f.smallest.ukey <= e.ik.ukey <= f.largest.ukey
    ensures forall e, f :: e in kept && f in kept && e.ik.ukey == f.ik.ukey && e.ik.seqno <= ss && f.ik.seqno <= ss ==> e == f
    ensures forall e :: e in input && e !in kept ==>
              || (exists f :: f in input && f.ik.ukey == e.ik.ukey && e.ik.seqno < f.ik.seqno <= ss)
              || (e.op.Delete? && e.ik.seqno <= ss &&
                  !exists l, f :: level + 2 <= l < |v| && f in v[l] && f.smallest.ukey <= e.ik.ukey <= f.largest.ukey)
  {
    assert forall e :: e in input <==> e in Content(input);
    forall e, f | e in kept && f in kept && e.ik.ukey == f.ik.ukey && e.ik.seqno <= ss && f.ik.seqno <= ss ensures e == f {
      assert !Hidden(Content(input), ss, e) && !Hidden(Content(input), ss, f);
    }
  }

  lemma FilesCut(input: seq<Entry>, stopBefore: nat -> bool, full: nat -> bool, out: Outputs)
    requires CutsOk(input, stopBefore, full, |input|, |input|, |input|, out)
    ensures var outputs := out.Finish().files;
            forall i, j :: 0 <= i < j < |input| && input[i] in Flatten(outputs) && input[j] in Flatten(outputs) ==>
              ((exists n :: 0 <= n < |outputs| && input[i] in outputs[n] && input[j] in outputs[n]) <==>
               && (forall m :: i < m <= j ==> !stopBefore(m))
               && (forall m :: i <= m < j && input[m] in Flatten(outputs) ==> !full(m)))
  {
    hide *;
    var outputs := out.Finish().files;
    WrittenIs(out);
    forall i: nat, j: nat | i < j < |input| && input[i] in Flatten(outputs) && input[j] in Flatten(outputs)
      ensures (exists n :: 0 <= n < |outputs| && input[i] in outputs[n] && input[j] in outputs[n]) <==>
              && (forall m :: i < m <= j ==> !stopBefore(m))
              && (forall m :: i <= m < j && input[m] in Flatten(outputs) ==> !full(m))
    {
      ClosedAt(input, stopBefore, full, out, i, j);
      FinishTogether(out, input[i], input[j]);
      TogetherIs(outputs, input[i], input[j]);
      UncutIs(input, out.Written(), stopBefore, full, i, j);
    }
  }

  lemma WrittenIs(out: Outputs)
    ensures out.Written() == Flatten(out.Finish().files)
  {
    assert out.Finish().Written() == Flatten(out.Finish().files) + [];
  }

  lemma ClosedAt(input: seq<Entry>, stopBefore: nat -> bool, full: nat -> bool, out: Outputs, i: nat, j: nat)
    requires CutsOk(input, stopBefore, full, |input|, |input|, |input|, out)
    requires i < j < |input| && input[i] in out.Written() && input[j] in out.Written()
    ensures Together(out.files, input[i], input[j]) || (input[i] in out.builder && input[j] in out.builder) <==>
            Uncut(input, out.Written(), stopBefore, full, i, j + 1, j)
  {
    hide Together, Uncut, OpenOk, Outputs.Written;
  }

  lemma TogetherIs(files: seq<seq<Entry>>, a: Entry, b: Entry)
    ensures Together(files, a, b) <==> exists n :: 0 <= n < |files| && a in files[n] && b in files[n]
  {
  }

  lemma UncutIs(input: seq<Entry>, kept: seq<Entry>, stopBefore: nat -> bool, full: nat -> bool, i: nat, j: nat)
    requires j <= |input|
    ensures Uncut(input, kept, stopBefore, full, i, j + 1, j) <==>
            && (forall m :: i < m <= j ==> !stopBefore(m))
            && (forall m :: i <= m < j && input[m] in kept ==> !full(m))
  {
  }

  lemma Finished(v: Version, level: nat, input: seq<Entry>, ss: nat, p: Progress)
    requires ProgressOk(v, level, input, ss, |input|, p)
    ensures var files := p.out.Finish().files;
            && (forall i :: 0 <= i < |files| ==> files[i] != []) && Sorted(Flatten(files))
            && forall e :: e in Flatten(files) <==> e in input && !Dropped(v, level, Content(input), ss, e)
  {
    KeptAll(v, level, input, ss, p.out.Written());
    hide Sorted, Dropped, KeptPrefix, Content;
    NothingOpen(p.out.Finish());
  }

  lemma NothingOpen(out: Outputs)
    requires out.builder == [] && out.NoneEmpty()
    ensures out.Written() == Flatten(out.files) && forall i :: 0 <= i < |out.files| ==> out.files[i] != []
  {
  }

  lemma KeptNone(v: Version, level: nat, input: seq<Entry>, ss: nat)
    ensures KeptPrefix(v, level, input, ss, 0, []) && Flatten([]) == []
  {
  }

  lemma KeptAll(v: Version, level: nat, input: seq<Entry>, ss: nat, kept: seq<Entry>)
    requires KeptPrefix(v, level, input, ss, |input|, kept)
    ensures Sorted(kept)
    ensures forall e :: e in kept <==> e in input && !Dropped(v, level, Content(input), ss, e)
  {
    assert input[..|input|] == input;
  }
}
