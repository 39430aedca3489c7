/** The merging iterator as a cursor over the sorted merge of its children, in both directions. */
module Merging {
  import opened Optional
  import opened Keys

  // ---------------------------------------------------------------- ranks

  /** The children are sorted lists with pairwise different internal keys, and `merged` is their merge. */
  ghost predicate Family(children: seq<seq<Entry>>, merged: seq<Entry>) {
    && Sorted(merged) && (forall j :: 0 <= j < |children| ==> Sorted(children[j]))
    && (forall j, x :: 0 <= j < |children| && 0 <= x < |children[j]| ==> children[j][x] in merged)
    && (forall e :: e in merged ==> exists j, x :: 0 <= j < |children| && 0 <= x < |children[j]| && children[j][x] == e)
    && (forall j, k, x, y :: 0 <= j < k < |children| && 0 <= x < |children[j]| && 0 <= y < |children[k]| ==>
          children[j][x].ik != children[k][y].ik)
  }

  /** The place of an entry in the merge. */
  ghost function Rank(merged: seq<Entry>, e: Entry): (r: nat)
    requires e in merged
    ensures r < |merged| && merged[r] == e
  {
    var r :| 0 <= r < |merged| && merged[r] == e;
    r
  }

  lemma RankOrder(merged: seq<Entry>, e: Entry, f: Entry)
    requires Sorted(merged) && e in merged && f in merged
    ensures Before(e.ik, f.ik) <==> Rank(merged, e) < Rank(merged, f)
    ensures e.ik == f.ik <==> Rank(merged, e) == Rank(merged, f)
  {
  }

  lemma RankAt(merged: seq<Entry>, i: nat)
    requires Sorted(merged) && i < |merged|
    ensures Rank(merged, merged[i]) == i
  {
    RankOrder(merged, merged[i], merged[i]);
  }

  /** The rank of the entry at `x` of child `j`. */
  ghost function R(children: seq<seq<Entry>>, merged: seq<Entry>, j: nat, x: nat): (r: nat)
    requires Family(children, merged) && j < |children| && x < |children[j]|
    ensures r < |merged| && merged[r] == children[j][x]
  {
    Rank(merged, children[j][x])
  }

  lemma RanksIncrease(children: seq<seq<Entry>>, merged: seq<Entry>, j: nat, x: nat, y: nat)
    requires Family(children, merged) && j < |children| && x < y < |children[j]|
    ensures R(children, merged, j, x) < R(children, merged, j, y)
  {
    RankOrder(merged, children[j][x], children[j][y]);
  }

  lemma RanksDiffer(children: seq<seq<Entry>>, merged: seq<Entry>, j: nat, x: nat, k: nat, y: nat)
    requires Family(children, merged) && j < |children| && k < |children| && j != k && x < |children[j]| && y < |children[k]|
    ensures R(children, merged, j, x) != R(children, merged, k, y)
  {
    RankOrder(merged, children[j][x], children[k][y]);
  }

  lemma SomeChild(children: seq<seq<Entry>>, merged: seq<Entry>, t: nat) returns (j: nat, x: nat)
    requires Family(children, merged) && t < |merged|
    ensures j < |children| && x < |children[j]| && R(children, merged, j, x) == t
  {
    assert merged[t] in merged;
    j, x :| 0 <= j < |children| && 0 <= x < |children[j]| && children[j][x] == merged[t];
    RankAt(merged, t);
  }

  // ---------------------------------------------------------------- positions

  ghost predicate Positions(children: seq<seq<Entry>>, pos: seq<nat>) {
    |pos| == |children| && forall j :: 0 <= j < |children| ==> pos[j] <= |children[j]|
  }

  /** A child stands at its first entry of rank `t` or more. */
  ghost predicate AtLeast(children: seq<seq<Entry>>, merged: seq<Entry>, j: nat, p: nat, t: int)
    requires Family(children, merged) && j < |children|
  {
    p <= |children[j]| && forall x: nat :: x < |children[j]| ==> (x < p <==> R(children, merged, j, x) < t)
  }

  /** A child stands at its last entry of rank `t` or less, and nowhere if there is none. */
  ghost predicate AtMost(children: seq<seq<Entry>>, merged: seq<Entry>, j: nat, p: nat, t: int)
    requires Family(children, merged) && j < |children|
  {
    && p <= |children[j]|
    && if p == |children[j]| then forall x: nat :: x < |children[j]| ==> R(children, merged, j, x) > t
       else forall x: nat :: x < |children[j]| ==> (x <= p <==> R(children, merged, j, x) <= t)
  }

  ghost predicate Placed(children: seq<seq<Entry>>, merged: seq<Entry>, pos: seq<nat>, forward: bool, t: int)
    requires Family(children, merged)
  {
    && |pos| == |children|
    && forall j :: 0 <= j < |children| ==>
         if forward then AtLeast(children, merged, j, pos[j], t) else AtMost(children, merged, j, pos[j], t)
  }

  /** With every child at its first entry of rank `t` or more, the smallest head has rank `t`. */
  lemma SmallestHead(children: seq<seq<Entry>>, merged: seq<Entry>, pos: seq<nat>, t: nat, smallest: Option<nat>)
    requires Family(children, merged) && Placed(children, merged, pos, true, t) && t <= |merged|
    requires smallest.None? ==> forall j :: 0 <= j < |children| ==> pos[j] == |children[j]|
    requires smallest.Some? ==> smallest.value < |children| && pos[smallest.value] < |children[smallest.value]|
    requires smallest.Some? ==> forall j :: 0 <= j < |children| && pos[j] < |children[j]| ==>
               !Before(children[j][pos[j]].ik, children[smallest.value][pos[smallest.value]].ik)
    ensures smallest.None? <==> t == |merged|
    ensures smallest.Some? ==> t < |merged| && children[smallest.value][pos[smallest.value]] == merged[t]
  {
    if t < |merged| {
      var j, x := SomeChild(children, merged, t);
      assert AtLeast(children, merged, j, pos[j], t);
      if pos[j] < x { RanksIncrease(children, merged, j, pos[j], x); }
      assert x == pos[j];
      if smallest.Some? {
        var i := smallest.value;
        assert AtLeast(children, merged, i, pos[i], t);
        RankOrder(merged, children[j][x], children[i][pos[i]]);
        assert R(children, merged, i, pos[i]) == t;
      }
    } else {
      forall j: nat | j < |children| ensures pos[j] == |children[j]| {
        assert AtLeast(children, merged, j, pos[j], t);
        assert pos[j] < |children[j]| ==> R(children, merged, j, pos[j]) < t;
      }
    }
  }

  lemma LargestHead(children: seq<seq<Entry>>, merged: seq<Entry>, pos: seq<nat>, t: int, largest: Option<nat>)
    requires Family(children, merged) && Placed(children, merged, pos, false, t) && -1 <= t < |merged|
    requires largest.None? ==> forall j :: 0 <= j < |children| ==> pos[j] == |children[j]|
    requires largest.Some? ==> largest.value < |children| && pos[largest.value] < |children[largest.value]|
    requires largest.Some? ==> forall j :: 0 <= j < |children| && pos[j] < |children[j]| ==>
               !Before(children[largest.value][pos[largest.value]].ik, children[j][pos[j]].ik)
    ensures largest.None? <==> t == -1
    ensures largest.Some? ==> t >= 0 && children[largest.value][pos[largest.value]] == merged[t]
  {
    if t >= 0 {
      var j, x := SomeChild(children, merged, t);
      assert AtMost(children, merged, j, pos[j], t);
      assert pos[j] < |children[j]| && x <= pos[j];
      if x < pos[j] { RanksIncrease(children, merged, j, x, pos[j]); }
      assert x == pos[j];
      if largest.Some? {
        var i := largest.value;
        assert AtMost(children, merged, i, pos[i], t);
        RankOrder(merged, children[i][pos[i]], children[j][x]);
        assert R(children, merged, i, pos[i]) == t;
      }
    } else {
      forall j: nat | j < |children| ensures pos[j] == |children[j]| {
        assert AtMost(children, merged, j, pos[j], t);
        assert pos[j] < |children[j]| ==> R(children, merged, j, pos[j]) > t;
      }
    }
  }

  /** What one child does, as its own iterator. */
  function Back(c: seq<Entry>, p: nat): nat
    requires p < |c|
  {
    if p == 0 then |c| else p - 1
  }

  function Last(c: seq<Entry>): nat {
    if c == [] then 0 else |c| - 1
  }

  lemma SeekPlaces(children: seq<seq<Entry>>, merged: seq<Entry>, j: nat, target: IKey, t: nat)
    requires Family(children, merged) && j < |children| && t <= |merged|
    requires forall i :: 0 <= i < t ==> Before(merged[i].ik, target)
    requires t < |merged| ==> !Before(merged[t].ik, target)
    ensures AtLeast(children, merged, j, SeekFrom(children[j], target, 0), t)
  {
    var c := children[j];
    SeekSplits(merged, target, t);
    SeekSplits(c, target, SeekFrom(c, target, 0));
  }

  lemma SeekSplits(es: seq<Entry>, target: IKey, t: nat)
    requires Sorted(es) && t <= |es| && (forall i :: 0 <= i < t ==> Before(es[i].ik, target))
    requires t < |es| ==> !Before(es[t].ik, target)
    ensures forall i :: 0 <= i < |es| ==> (i < t <==> Before(es[i].ik, target))
  {
    assert forall i :: t < i < |es| ==> Before(es[t].ik, es[i].ik);
  }

  lemma LastPlaces(children: seq<seq<Entry>>, merged: seq<Entry>, j: nat)
    requires Family(children, merged) && j < |children|
    ensures AtMost(children, merged, j, Last(children[j]), |merged| - 1)
  {
  }

  lemma FirstPlaces(children: seq<seq<Entry>>, merged: seq<Entry>, j: nat)
    requires Family(children, merged) && j < |children|
    ensures AtLeast(children, merged, j, 0, 0)
  {
  }

  /** Reaching the next rank moves the child that holds the current one and no other. */
  lemma StepForward(children: seq<seq<Entry>>, merged: seq<Entry>, pos: seq<nat>, t: nat, i: nat)
    requires Family(children, merged) && Placed(children, merged, pos, true, t)
    requires i < |children| && pos[i] < |children[i]| && R(children, merged, i, pos[i]) == t
    ensures Placed(children, merged, pos[i := pos[i] + 1], true, t + 1)
  {
    forall j: nat, x: nat | j < |children| && x < |children[j]|
      ensures x < pos[i := pos[i] + 1][j] <==> R(children, merged, j, x) < t + 1
    {
      assert AtLeast(children, merged, j, pos[j], t);
      if j != i {
        RanksDiffer(children, merged, j, x, i, pos[i]);
      } else if x > pos[i] {
        RanksIncrease(children, merged, i, pos[i], x);
      }
    }
  }

  lemma StepBack(children: seq<seq<Entry>>, merged: seq<Entry>, pos: seq<nat>, t: nat, i: nat)
    requires Family(children, merged) && Placed(children, merged, pos, false, t)
    requires i < |children| && pos[i] < |children[i]| && R(children, merged, i, pos[i]) == t
    ensures Placed(children, merged, pos[i := Back(children[i], pos[i])], false, t - 1)
  {
    var next := pos[i := Back(children[i], pos[i])];
    forall j: nat | j < |children| ensures AtMost(children, merged, j, next[j], t - 1) {
      assert AtMost(children, merged, j, pos[j], t);
      forall x: nat | x < |children[j]| ensures j != i ==> R(children, merged, j, x) != t {
        if j != i { RanksDiffer(children, merged, j, x, i, pos[i]); }
      }
      forall x: nat | x < pos[i] ensures R(children, merged, i, x) < t {
        RanksIncrease(children, merged, i, x, pos[i]);
      }
    }
  }

  /** The direction switch: a child other than the current one is placed by seeking the current key. */
  lemma SwitchForward(children: seq<seq<Entry>>, merged: seq<Entry>, t: nat, j: nat)
    requires Family(children, merged) && j < |children| && t < |merged|
    ensures AtLeast(children, merged, j, SeekFrom(children[j], merged[t].ik, 0), t)
  {
    SeekPlaces(children, merged, j, merged[t].ik, t);
  }

  lemma SwitchBack(children: seq<seq<Entry>>, merged: seq<Entry>, t: nat, j: nat, p: nat)
    requires Family(children, merged) && j < |children| && t < |merged| && AtLeast(children, merged, j, p, t)
    requires forall x: nat :: x < |children[j]| ==> R(children, merged, j, x) != t
    ensures AtMost(children, merged, j, if p < |children[j]| then Back(children[j], p) else Last(children[j]), t)
  {
  }

  // ---------------------------------------------------------------- the iterator

  /** `at` is the rank of the current entry, and the number of entries when there is none. */
  class MergingIterator {
    const children: seq<seq<Entry>>
    var pos: seq<nat>
    var current: Option<nat>
    var forward: bool
    ghost const merged: seq<Entry>
    ghost var at: nat

    ghost predicate Valid()
      reads this
    {
      && Family(children, merged) && Positions(children, pos) && at <= |merged|
      && (current.None? <==> at == |merged|)
      && (current.Some? ==> current.value < |children| && pos[current.value] < |children[current.value]|
                            && children[current.value][pos[current.value]] == merged[at]
                            && Placed(children, merged, pos, forward, at))
    }

    constructor (children: seq<seq<Entry>>, ghost merged: seq<Entry>)
      requires Family(children, merged)
      ensures Valid() && this.children == children && this.merged == merged && at == |merged|
    {
      this.children := children;
      pos := seq(|children|, j requires 0 <= j < |children| => |children[j]|);
      current, forward := None, true;
      this.merged := merged;
      at := |merged|;
    }

    /** The current key and value. */
    function Entry(): (e: Entry)
      requires Valid() && current.Some?
      reads this
      ensures at < |merged| && e == merged[at]
    {
      children[current.value][pos[current.value]]
    }

    method SeekToFirst()
      requires Valid()
      modifies this
      ensures Valid() && forward && at == 0
    {
      hide *;
      FamilyOf();
      pos := FirstAll(children, merged);
      forward := true;
      current := FindSmallest(children, pos);
      Arrive(0);
    }

    /** The last entry, or none if there is none. */
    method SeekToLast()
      requires Valid()
      modifies this
      ensures Valid() && !forward && at == if merged == [] then 0 else |merged| - 1
    {
      hide *;
      FamilyOf();
      pos := LastAll(children, merged);
      forward := false;
      current := FindLargest(children, pos);
      Arrive(|merged| - 1);
    }

    /** The first entry at or after the target. */
    method Seek(target: IKey)
      requires Valid()
      modifies this
      ensures Valid() && forward && at == SeekFrom(merged, target, 0)
    {
      hide *;
      FamilyOf();
      pos := SeekAll(children, target, merged, SeekFrom(merged, target, 0));
      forward := true;
      current := FindSmallest(children, pos);
      Arrive(SeekFrom(merged, target, 0));
    }

    method Next()
      requires Valid() && current.Some?
      modifies this
      ensures Valid() && forward && at == old(at) + 1
    {
      hide *;
      FamilyOf();
      CurrentAt();
      var i := current.value;
      if !forward {
        pos := SwitchToForward(children, pos, i, merged, at);
        forward := true;
      }
      StepForward(children, merged, pos, at, i);
      pos := pos[i := pos[i] + 1];
      current := FindSmallest(children, pos);
      Arrive(at + 1);
    }

    method Prev()
      requires Valid() && current.Some?
      modifies this
      ensures Valid() && !forward && at == if old(at) == 0 then |merged| else old(at) - 1
    {
      hide *;
      FamilyOf();
      CurrentAt();
      var i := current.value;
      if forward {
        pos := SwitchToReverse(children, pos, i, merged, at);
        forward := false;
      }
      StepBack(children, merged, pos, at, i);
      pos := pos[i := Back(children[i], pos[i])];
      current := FindLargest(children, pos);
      Arrive(at - 1);
    }

    /** What users of the iterator rely on. */
    lemma Bounds()
      requires Valid()
      ensures at <= |merged| && (current.None? <==> at == |merged|) && Sorted(merged)
    {
    }

    lemma FamilyOf()
      requires Valid()
      ensures Family(children, merged) && |pos| == |children|
    {
    }

    lemma CurrentAt()
      requires Valid() && current.Some?
      ensures Family(children, merged) && |pos| == |children| && at < |merged|
      ensures current.value < |children| && pos[current.value] < |children[current.value]|
      ensures R(children, merged, current.value, pos[current.value]) == at && Placed(children, merged, pos, forward, at)
    {
      RankAt(merged, at);
    }

    /** The children are placed around rank `t` and the extreme head has been found. */
    ghost method Arrive(t: int)
      requires Family(children, merged) && -1 <= t <= |merged| && Placed(children, merged, pos, forward, t)
      requires if forward then t >= 0 && IsSmallest(children, pos, current) else t < |merged| && IsLargest(children, pos, current)
      modifies this`at
      ensures Valid() && at == if t == -1 then |merged| else t
    {
      PlacedPositions(children, merged, pos, forward, t);
      if forward { SmallestHead(children, merged, pos, t, current); } else { LargestHead(children, merged, pos, t, current); }
      hide *;
      at := if t == -1 then |merged| else t;
      Arrived();
    }

    lemma Arrived()
      requires Family(children, merged) && Positions(children, pos) && at <= |merged|
      requires current.None? <==> at == |merged|
      requires current.Some? ==> current.value < |children| && pos[current.value] < |children[current.value]|
                                 && children[current.value][pos[current.value]] == merged[at]
                                 && Placed(children, merged, pos, forward, at)
      ensures Valid()
    {
    }
  }

  // ---------------------------------------------------------------- loops over the children

  ghost predicate IsSmallest(children: seq<seq<Entry>>, pos: seq<nat>, r: Option<nat>) {
    && |pos| == |children|
    && (r.None? ==> forall j :: 0 <= j < |children| ==> pos[j] >= |children[j]|)
    && (r.Some? ==> r.value < |children| && pos[r.value] < |children[r.value]|)
    && (r.Some? ==> forall j :: 0 <= j < |children| && pos[j] < |children[j]| ==>
          !Before(children[j][pos[j]].ik, children[r.value][pos[r.value]].ik))
  }

  ghost predicate IsLargest(children: seq<seq<Entry>>, pos: seq<nat>, r: Option<nat>) {
    && |pos| == |children|
    && (r.None? ==> forall j :: 0 <= j < |children| ==> pos[j] >= |children[j]|)
    && (r.Some? ==> r.value < |children| && pos[r.value] < |children[r.value]|)
    && (r.Some? ==> forall j :: 0 <= j < |children| && pos[j] < |children[j]| ==>
          !Before(children[r.value][pos[r.value]].ik, children[j][pos[j]].ik))
  }

  method FindSmallest(children: seq<seq<Entry>>, pos: seq<nat>) returns (smallest: Option<nat>)
    requires |pos| == |children|
    ensures IsSmallest(children, pos, smallest)
  {
    smallest := None;
    var i := 0;
    while i < |children|
      invariant 0 <= i <= |children|
      invariant smallest.None? ==> forall j :: 0 <= j < i ==> pos[j] >= |children[j]|
      invariant smallest.Some? ==> smallest.value < i && pos[smallest.value] < |children[smallest.value]|
      invariant smallest.Some? ==> forall j :: 0 <= j < i && pos[j] < |children[j]| ==>
                  !Before(children[j][pos[j]].ik, children[smallest.value][pos[smallest.value]].ik)
    {
      if pos[i] < |children[i]| {
        if smallest.None? || Before(children[i][pos[i]].ik, children[smallest.value][pos[smallest.value]].ik) {
          smallest := Some(i);
        }
      }
      i := i + 1;
    }
  }

  method FindLargest(children: seq<seq<Entry>>, pos: seq<nat>) returns (largest: Option<nat>)
    requires |pos| == |children|
    ensures IsLargest(children, pos, largest)
  {
    largest := None;
    var i := |children|;
    while i > 0
      invariant 0 <= i <= |children|
      invariant largest.None? ==> forall j :: i <= j < |children| ==> pos[j] >= |children[j]|
      invariant largest.Some? ==> i <= largest.value < |children| && pos[largest.value] < |children[largest.value]|
      invariant largest.Some? ==> forall j :: i <= j < |children| && pos[j] < |children[j]| ==>
                  !Before(children[largest.value][pos[largest.value]].ik, children[j][pos[j]].ik)
    {
      i := i - 1;
      if pos[i] < |children[i]| {
        if largest.None? || Before(children[largest.value][pos[largest.value]].ik, children[i][pos[i]].ik) {
          largest := Some(i);
        }
      }
    }
  }

  method FirstAll(children: seq<seq<Entry>>, ghost merged: seq<Entry>) returns (pos: seq<nat>)
    requires Family(children, merged)
    ensures |pos| == |children| && Placed(children, merged, pos, true, 0)
  {
    hide AtLeast, Family;
    pos := [];
    for j := 0 to |children|
      invariant |pos| == j && forall i :: 0 <= i < j ==> AtLeast(children, merged, i, pos[i], 0)
    {
      FirstPlaces(children, merged, j);
      pos := pos + [0];
    }
  }

  method LastAll(children: seq<seq<Entry>>, ghost merged: seq<Entry>) returns (pos: seq<nat>)
    requires Family(children, merged)
    ensures |pos| == |children| && Placed(children, merged, pos, false, |merged| - 1)
  {
    hide AtMost, Family;
    pos := [];
    for j := 0 to |children|
      invariant |pos| == j && forall i :: 0 <= i < j ==> AtMost(children, merged, i, pos[i], |merged| - 1)
    {
      LastPlaces(children, merged, j);
      pos := pos + [Last(children[j])];
    }
  }

  method SeekAll(children: seq<seq<Entry>>, target: IKey, ghost merged: seq<Entry>, ghost t: nat) returns (pos: seq<nat>)
    requires Family(children, merged) && t == SeekFrom(merged, target, 0)
    ensures |pos| == |children| && Placed(children, merged, pos, true, t)
  {
    hide AtLeast, Family;
    pos := [];
    for j := 0 to |children|
      invariant |pos| == j && forall i :: 0 <= i < j ==> AtLeast(children, merged, i, pos[i], t)
    {
      SeekPlaces(children, merged, j, target, t);
      pos := pos + [SeekFrom(children[j], target, 0)];
    }
  }

  /** Every child but the current one is placed after the current key. */
  method SwitchToForward(children: seq<seq<Entry>>, pos0: seq<nat>, i: nat, ghost merged: seq<Entry>, ghost t: nat) returns (pos: seq<nat>)
    requires Family(children, merged) && |pos0| == |children| && i < |children| && pos0[i] < |children[i]| && t < |merged|
    requires R(children, merged, i, pos0[i]) == t
    ensures |pos| == |children| && Placed(children, merged, pos, true, t) && pos[i] == pos0[i]
  {
    var key := children[i][pos0[i]].ik;
    assert key == merged[t].ik;
    pos := [];
    for j := 0 to |children|
      invariant |pos| == j && (forall k :: 0 <= k < j ==> AtLeast(children, merged, k, pos[k], t)) && (i < j ==> pos[i] == pos0[i])
    {
      hide AtLeast, Family, R;
      if j != i {
        var p := SeekFrom(children[j], key, 0);
        SwitchForward(children, merged, t, j);
        OtherKeys(children, merged, t, i, pos0[i], j);
        if p < |children[j]| && children[j][p].ik == key {
          p := p + 1;
        }
        pos := pos + [p];
      } else {
        KeepsForward(children, merged, t, i, pos0[i]);
        pos := pos + [pos0[i]];
      }
    }
  }

  /** No other child holds the current key. */
  lemma OtherKeys(children: seq<seq<Entry>>, merged: seq<Entry>, t: nat, i: nat, p: nat, j: nat)
    requires Family(children, merged) && i < |children| && p < |children[i]| && R(children, merged, i, p) == t && j < |children| && j != i
    ensures forall x: nat :: x < |children[j]| ==> children[j][x].ik != children[i][p].ik && R(children, merged, j, x) != t
  {
    forall x: nat | x < |children[j]| ensures children[j][x].ik != children[i][p].ik && R(children, merged, j, x) != t {
      RanksDiffer(children, merged, j, x, i, p);
    }
  }

  lemma KeepsForward(children: seq<seq<Entry>>, merged: seq<Entry>, t: nat, i: nat, p: nat)
    requires Family(children, merged) && i < |children| && p < |children[i]| && R(children, merged, i, p) == t
    ensures AtLeast(children, merged, i, p, t) && AtMost(children, merged, i, p, t)
  {
    forall x: nat | x < |children[i]| ensures (x < p <==> R(children, merged, i, x) < t) && (x <= p <==> R(children, merged, i, x) <= t) {
      if x < p { RanksIncrease(children, merged, i, x, p); } else if x > p { RanksIncrease(children, merged, i, p, x); }
    }
  }

  /** Every child but the current one is placed before the current key. */
  method SwitchToReverse(children: seq<seq<Entry>>, pos0: seq<nat>, i: nat, ghost merged: seq<Entry>, ghost t: nat) returns (pos: seq<nat>)
    requires Family(children, merged) && |pos0| == |children| && i < |children| && pos0[i] < |children[i]| && t < |merged|
    requires R(children, merged, i, pos0[i]) == t
    ensures |pos| == |children| && Placed(children, merged, pos, false, t) && pos[i] == pos0[i]
  {
    var key := children[i][pos0[i]].ik;
    assert key == merged[t].ik;
    pos := [];
    for j := 0 to |children|
      invariant |pos| == j && (forall k :: 0 <= k < j ==> AtMost(children, merged, k, pos[k], t)) && (i < j ==> pos[i] == pos0[i])
    {
      hide AtLeast, AtMost, Family, R;
      if j != i {
        var p := SeekFrom(children[j], key, 0);
        SwitchForward(children, merged, t, j);
        OtherKeys(children, merged, t, i, pos0[i], j);
        SwitchBack(children, merged, t, j, p);
        if p < |children[j]| {
          p := Back(children[j], p);
        } else {
          p := Last(children[j]);
        }
        pos := pos + [p];
      } else {
        KeepsForward(children, merged, t, i, pos0[i]);
        pos := pos + [pos0[i]];
      }
    }
  }

  lemma PlacedPositions(children: seq<seq<Entry>>, merged: seq<Entry>, pos: seq<nat>, forward: bool, t: int)
    requires Family(children, merged) && Placed(children, merged, pos, forward, t)
    ensures Positions(children, pos)
  {
  }
}
