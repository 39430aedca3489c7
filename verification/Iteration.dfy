/** The database iterator: a cursor over the keys and values visible at a snapshot. */
module Iteration {
  import opened Optional
  import opened Keys
  import opened Merging

  // ---------------------------------------------------------------- what a snapshot shows

  predicate Seen(es: seq<Entry>, s: nat, i: nat) {
    i < |es| && es[i].ik.seqno <= s
  }

  /** The newest entry of its key at or below the snapshot, and not a tombstone. */
  ghost predicate Shown(es: seq<Entry>, s: nat, i: nat) {
    && Seen(es, s, i) && es[i].op.Put?
    && forall j: nat :: j < i && Seen(es, s, j) ==> es[j].ik.ukey != es[i].ik.ukey
  }

  /** What is shown is what a read at the snapshot returns, no more and no less. */
  lemma ShownIsRead(es: seq<Entry>, s: nat, k: UserKey, value: string)
    requires Sorted(es)
    ensures ValueOf(Find(Content(es), k, s)) == Some(value) <==>
              exists i: nat :: Shown(es, s, i) && es[i].ik.ukey == k && es[i].op == Put(value)
  {
    var r := Find(Content(es), k, s);
    if exists i: nat :: Shown(es, s, i) && es[i].ik.ukey == k && es[i].op == Put(value) {
      var i: nat :| Shown(es, s, i) && es[i].ik.ukey == k && es[i].op == Put(value);
      assert es[i] in Content(es);
      assert r.Some?;
      var j: nat :| j < |es| && es[j] == r.value;
      assert Seen(es, s, j);
      assert j == i;
    }
    if ValueOf(r) == Some(value) {
      var i: nat :| i < |es| && es[i] == r.value;
      forall j: nat | j < i && Seen(es, s, j) ensures es[j].ik.ukey != es[i].ik.ukey {
        assert es[j] in Content(es);
      }
      assert Shown(es, s, i);
    }
  }

  lemma KeysAscend(es: seq<Entry>, i: nat, j: nat)
    requires Sorted(es) && i <= j < |es|
    ensures es[i].ik.ukey <= es[j].ik.ukey
  {
  }

  /** Two entries are shown in the order of their keys, and no key twice. */
  lemma ShownAscend(es: seq<Entry>, s: nat, i: nat, j: nat)
    requires Sorted(es) && Shown(es, s, i) && Shown(es, s, j) && i < j
    ensures es[i].ik.ukey < es[j].ik.ukey
  {
    KeysAscend(es, i, j);
  }

  /** The first entry shown from `p` on whose key lies beyond `skip`; the number of entries if there is none. */
  ghost predicate FirstShown(es: seq<Entry>, s: nat, p: nat, skip: Option<UserKey>, r: nat) {
    && p <= r <= |es| && (r < |es| ==> Eligible(es, s, skip, r))
    && forall j: nat :: p <= j < r ==> !Eligible(es, s, skip, j)
  }

  ghost predicate Eligible(es: seq<Entry>, s: nat, skip: Option<UserKey>, i: nat) {
    Shown(es, s, i) && (skip.Some? ==> skip.value < es[i].ik.ukey)
  }

  /** The last entry shown up to `p`. */
  ghost predicate LastShown(es: seq<Entry>, s: nat, p: int, r: nat) {
    if r == |es| then forall j: nat :: j <= p ==> !Shown(es, s, j)
    else r <= p && Shown(es, s, r) && forall j: nat :: r < j <= p ==> !Shown(es, s, j)
  }

  // ---------------------------------------------------------------- the list of what is shown

  /** The keys and values shown among the first `n` entries, in order. */
  ghost function Pairs(es: seq<Entry>, s: nat, n: nat): (r: seq<(UserKey, string)>)
    requires n <= |es|
    ensures |r| <= n
  {
    if n == 0 then []
    else Pairs(es, s, n - 1) + if Shown(es, s, n - 1) then [(es[n - 1].ik.ukey, es[n - 1].op.value)] else []
  }

  lemma {:induction false} PairsPrefix(es: seq<Entry>, s: nat, m: nat, n: nat)
    requires m <= n <= |es|
    ensures Pairs(es, s, m) <= Pairs(es, s, n)
  {
    if m < n { PairsPrefix(es, s, m, n - 1); }
  }

  /** Where nothing is shown the list does not grow. */
  lemma {:induction false} PairsStay(es: seq<Entry>, s: nat, m: nat, n: nat)
    requires m <= n <= |es| && forall j: nat :: m <= j < n ==> !Shown(es, s, j)
    ensures Pairs(es, s, m) == Pairs(es, s, n)
  {
    if m < n { PairsStay(es, s, m, n - 1); }
  }

  lemma PairAt(es: seq<Entry>, s: nat, i: nat)
    requires Shown(es, s, i)
    ensures |Pairs(es, s, i + 1)| == |Pairs(es, s, i)| + 1 && |Pairs(es, s, i)| < |Pairs(es, s, |es|)|
    ensures Pairs(es, s, |es|)[|Pairs(es, s, i)|] == (es[i].ik.ukey, es[i].op.value)
  {
    PairsPrefix(es, s, i + 1, |es|);
  }

  lemma {:induction false} PairsAre(es: seq<Entry>, s: nat, n: nat, c: nat) returns (i: nat)
    requires n <= |es| && c < |Pairs(es, s, n)|
    ensures i < n && Shown(es, s, i) && |Pairs(es, s, i)| == c && Pairs(es, s, n)[c] == (es[i].ik.ukey, es[i].op.value)
  {
    if c < |Pairs(es, s, n - 1)| {
      i := PairsAre(es, s, n - 1, c);
    } else {
      i := n - 1;
    }
  }

  /** The list is strictly ascending and holds exactly the keys a read finds, with the values it finds. */
  lemma PairsAreReads(es: seq<Entry>, s: nat)
    requires Sorted(es)
    ensures var t := Pairs(es, s, |es|);
            && (forall c, d :: 0 <= c < d < |t| ==> t[c].0 < t[d].0)
            && forall k, value :: (k, value) in t <==> ValueOf(Find(Content(es), k, s)) == Some(value)
  {
    var t := Pairs(es, s, |es|);
    hide Pairs;
    forall c, d | 0 <= c < d < |t| ensures t[c].0 < t[d].0 {
      var i := PairsAre(es, s, |es|, c);
      var j := PairsAre(es, s, |es|, d);
      if j <= i { PairsPrefix(es, s, j, i); }
      ShownAscend(es, s, i, j);
    }
    forall k, value ensures (k, value) in t <==> ValueOf(Find(Content(es), k, s)) == Some(value) {
      ShownIsRead(es, s, k, value);
      if (k, value) in t {
        var c :| 0 <= c < |t| && t[c] == (k, value);
        var i := PairsAre(es, s, |es|, c);
        assert es[i].op == Put(value);
      }
      if exists i: nat :: Shown(es, s, i) && es[i].ik.ukey == k && es[i].op == Put(value) {
        var i: nat :| Shown(es, s, i) && es[i].ik.ukey == k && es[i].op == Put(value);
        PairAt(es, s, i);
      }
    }
  }

  lemma NoneShown(es: seq<Entry>, s: nat, p: nat, r: nat)
    requires FirstShown(es, s, p, None, r)
    ensures forall j: nat :: p <= j < r ==> !Shown(es, s, j)
  {
    forall j: nat | p <= j < r ensures !Shown(es, s, j) { assert !Eligible(es, s, None, j); }
  }

  /** One place up the list. */
  lemma NextPair(es: seq<Entry>, s: nat, i: nat, r: nat)
    requires Shown(es, s, i) && FirstShown(es, s, i + 1, None, r)
    ensures |Pairs(es, s, r)| == |Pairs(es, s, i)| + 1
  {
    PairAt(es, s, i);
    NoneShown(es, s, i + 1, r);
    PairsStay(es, s, i + 1, r);
  }

  lemma FirstPair(es: seq<Entry>, s: nat, r: nat)
    requires FirstShown(es, s, 0, None, r)
    ensures |Pairs(es, s, r)| == 0
  {
    NoneShown(es, s, 0, r);
    PairsStay(es, s, 0, r);
  }

  /** One place down, or off the list. */
  lemma PrevPair(es: seq<Entry>, s: nat, i: nat, r: nat)
    requires i <= |es| && LastShown(es, s, i - 1, r) && r <= |es|
    ensures if r < |es| then |Pairs(es, s, i)| == |Pairs(es, s, r)| + 1 else |Pairs(es, s, i)| == 0
  {
    if r < |es| {
      PairAt(es, s, r);
      PairsStay(es, s, r + 1, i);
    } else {
      PairsStay(es, s, 0, i);
    }
  }

  /** The first pair at or after a key. */
  lemma SoughtPair(es: seq<Entry>, s: nat, target: UserKey, p: nat, r: nat)
    requires Sorted(es) && p == SeekFrom(es, IKey(target, s), 0) && FirstShown(es, s, p, None, r)
    ensures var t, c := Pairs(es, s, |es|), |Pairs(es, s, r)|;
            c <= |t| && (forall d :: 0 <= d < c ==> t[d].0 < target) && forall d :: c <= d < |t| ==> t[d].0 >= target
  {
    var t, c := Pairs(es, s, |es|), |Pairs(es, s, r)|;
    PairsPrefix(es, s, r, |es|);
    NoneShown(es, s, p, r);
    PairsStay(es, s, p, r);
    hide Pairs;
    SeekSplits(es, IKey(target, s), p);
    forall d | 0 <= d < |t| ensures d < c <==> t[d].0 < target {
      var i := PairsAre(es, s, |es|, d);
      if i < p { PairAt(es, s, i); PairsPrefix(es, s, i + 1, p); } else { PairsPrefix(es, s, p, i); }
    }
  }

  // ---------------------------------------------------------------- scanning forward

  ghost predicate CanScan(es: seq<Entry>, s: nat, p: nat, skip: Option<UserKey>) {
    && (forall j: nat, q: nat :: j < p <= q && Seen(es, s, j) && Seen(es, s, q) && es[j].ik.ukey == es[q].ik.ukey ==>
          skip.Some? && es[q].ik.ukey <= skip.value)
    && (skip.Some? ==> forall q: nat :: p <= q && Seen(es, s, q) ==> skip.value <= es[q].ik.ukey)
  }

  /** Between `p` and `q` nothing was eligible, and `now` hides every key seen there. */
  ghost predicate Scanned(es: seq<Entry>, s: nat, p: nat, q: nat, skip: Option<UserKey>, now: Option<UserKey>) {
    && p <= q <= |es|
    && (forall j: nat :: p <= j < q ==> !Eligible(es, s, skip, j))
    && (forall j: nat :: p <= j < q && Seen(es, s, j) ==> now.Some? && es[j].ik.ukey <= now.value)
    && (now == skip || (now.Some? && exists j: nat :: p <= j < q && Seen(es, s, j) && es[j].op.Delete? && es[j].ik.ukey == now.value))
    && (skip.Some? ==> now.Some? && skip.value <= now.value)
  }

  lemma ScanPast(es: seq<Entry>, s: nat, p: nat, q: nat, skip: Option<UserKey>, now: Option<UserKey>)
    requires Sorted(es) && CanScan(es, s, p, skip) && Scanned(es, s, p, q, skip, now) && q < |es|
    requires !Seen(es, s, q) || (es[q].op.Put? && now.Some? && es[q].ik.ukey <= now.value)
    ensures Scanned(es, s, p, q + 1, skip, now)
  {
    if Seen(es, s, q) && now != skip {
      var j: nat :| p <= j < q && Seen(es, s, j) && es[j].op.Delete? && es[j].ik.ukey == now.value;
      KeysAscend(es, j, q);
      assert !Shown(es, s, q);
    }
  }

  lemma ScanTombstone(es: seq<Entry>, s: nat, p: nat, q: nat, skip: Option<UserKey>, now: Option<UserKey>)
    requires Sorted(es) && CanScan(es, s, p, skip) && Scanned(es, s, p, q, skip, now) && q < |es|
    requires Seen(es, s, q) && es[q].op.Delete?
    ensures Scanned(es, s, p, q + 1, skip, Some(es[q].ik.ukey))
  {
    forall j: nat | p <= j < q + 1 ensures es[j].ik.ukey <= es[q].ik.ukey { KeysAscend(es, j, q); }
    assert Seen(es, s, q) && p <= q < q + 1;
  }

  lemma ScanStops(es: seq<Entry>, s: nat, p: nat, q: nat, skip: Option<UserKey>, now: Option<UserKey>)
    requires Sorted(es) && CanScan(es, s, p, skip) && Scanned(es, s, p, q, skip, now)
    requires q < |es| ==> Seen(es, s, q) && es[q].op.Put? && !(now.Some? && es[q].ik.ukey <= now.value)
    ensures FirstShown(es, s, p, skip, q)
  {
    if q < |es| {
      forall j: nat | j < q && Seen(es, s, j) ensures es[j].ik.ukey != es[q].ik.ukey {
        assert j < p || p <= j;
      }
    }
  }

  // ---------------------------------------------------------------- scanning backward

  /** From `p` down to, but not including, `q`: `j` is the last entry seen, and nothing after it is shown. */
  ghost predicate ScannedBack(es: seq<Entry>, s: nat, p: nat, q: int, last: Option<nat>) {
    && -1 <= q <= p < |es|
    && match last
       case None => forall x: nat :: q < x <= p ==> !Seen(es, s, x)
       case Some(j) =>
         && q < j <= p && Seen(es, s, j) && (forall x: nat :: q < x < j ==> !Seen(es, s, x))
         && forall x: nat :: j < x <= p ==> !Shown(es, s, x)
  }

  lemma BackPast(es: seq<Entry>, s: nat, p: nat, q: nat, last: Option<nat>)
    requires Sorted(es) && ScannedBack(es, s, p, q, last)
    ensures !Seen(es, s, q) ==> ScannedBack(es, s, p, q - 1, last)
    ensures Seen(es, s, q) && (last.None? || es[last.value].op.Delete? || es[q].ik.ukey >= es[last.value].ik.ukey) ==>
              ScannedBack(es, s, p, q - 1, Some(q))
  {
    if Seen(es, s, q) && last.Some? && (es[last.value].op.Delete? || es[q].ik.ukey >= es[last.value].ik.ukey) {
      KeysAscend(es, q, last.value);
      assert !Shown(es, s, last.value);
    }
  }

  /** Just before the entries of a shown key: nothing is seen between. */
  ghost predicate JustBefore(es: seq<Entry>, s: nat, p: nat, i: nat) {
    && i < |es|
    && if p >= |es| then forall j: nat :: j < i ==> !Seen(es, s, j)
       else p < i && es[p].ik.ukey < es[i].ik.ukey && forall j: nat :: p < j < i ==> !Seen(es, s, j)
  }

  lemma BackStops(es: seq<Entry>, s: nat, p: nat, q: int, last: Option<nat>)
    requires Sorted(es) && ScannedBack(es, s, p, q, last)
    requires q >= 0 ==> Seen(es, s, q) && last.Some? && es[last.value].op.Put? && es[q].ik.ukey < es[last.value].ik.ukey
    ensures if last.Some? && es[last.value].op.Put?
            then LastShown(es, s, p, last.value) && JustBefore(es, s, if q < 0 then |es| else q, last.value)
            else LastShown(es, s, p, |es|)
  {
    if last.Some? && es[last.value].op.Put? {
      var j := last.value;
      forall x: nat | x < j && Seen(es, s, x) ensures es[x].ik.ukey != es[j].ik.ukey {
        assert x <= q;
        KeysAscend(es, x, q);
      }
    }
  }

  // ---------------------------------------------------------------- the iterator

  /** `at` is the rank of the entry shown, and the number of entries when the iterator is not valid.
      Moving forward the internal iterator stands at that entry; moving backward it stands just before
      the entries of its key, which has been saved. */
  class DBIter {
    const iter: MergingIterator
    const sequence: nat
    var forward: bool
    var valid: bool
    var savedKey: Option<UserKey>
    var savedValue: string
    ghost var at: nat

    ghost predicate Valid()
      reads this, iter
    {
      && iter.Valid() && at <= |iter.merged| && (valid <==> at < |iter.merged|)
      && (valid ==> Shown(iter.merged, sequence, at))
      && (valid && forward ==> iter.at == at)
      && (valid && !forward ==> savedKey == Some(iter.merged[at].ik.ukey) && Put(savedValue) == iter.merged[at].op
                                && JustBefore(iter.merged, sequence, iter.at, at))
    }

    constructor (iter: MergingIterator, sequence: nat)
      requires iter.Valid()
      ensures Valid() && this.iter == iter && this.sequence == sequence && !valid
    {
      this.iter, this.sequence := iter, sequence;
      forward, valid, savedKey, savedValue := true, false, None, "";
      at := |iter.merged|;
    }

    /** `key()` and `value()`. */
    function Current(): (kv: (UserKey, string))
      requires Valid() && valid
      reads this, iter
      ensures kv.0 == iter.merged[at].ik.ukey && Put(kv.1) == iter.merged[at].op
    {
      if forward then (iter.Entry().ik.ukey, iter.Entry().op.value) else (savedKey.value, savedValue)
    }

    // The abstract cursor.

    /** All keys and values visible at the snapshot. */
    ghost function Table(): (t: seq<(UserKey, string)>)
      reads this, iter
    {
      Pairs(iter.merged, sequence, |iter.merged|)
    }

    /** The place in that list; its length when the iterator is not valid. */
    ghost function Index(): (c: nat)
      requires Valid()
      reads this, iter
    {
      |Pairs(iter.merged, sequence, at)|
    }

    lemma AtIndex()
      requires Valid()
      ensures valid <==> Index() < |Table()|
      ensures valid ==> Table()[Index()] == Current()
    {
      if valid { PairAt(iter.merged, sequence, at); }
    }

    method SeekToFirst()
      requires Valid()
      modifies this, iter
      ensures Valid() && Index() == 0
    {
      ParseValid();
      hide Pairs, Shown, FirstShown, CanScan, JustBefore;
      forward, savedValue := true, "";
      iter.SeekToFirst();
      CanStart(iter.merged, sequence);
      if iter.current.Some? {
        FindNextUserEntry(None);
        FirstPair(iter.merged, sequence, at);
      } else {
        valid, at := false, |iter.merged|;
      }
    }

    method Seek(target: UserKey)
      requires Valid()
      modifies this, iter
      ensures Valid() && Index() <= |Table()|
      ensures forall d :: 0 <= d < Index() ==> Table()[d].0 < target
      ensures forall d :: Index() <= d < |Table()| ==> Table()[d].0 >= target
    {
      hide *;
      ParseValid();
      forward, savedValue, savedKey := true, "", None;
      iter.Seek(IKey(target, sequence));
      iter.Bounds();
      ghost var p := iter.at;
      SoughtScan(iter.merged, sequence, target, p);
      if iter.current.Some? {
        FindNextUserEntry(None);
      } else {
        valid, at := false, |iter.merged|;
        ValidForward();
      }
      SoughtPair(iter.merged, sequence, target, p, at);
      TableIndex();
    }

    lemma TableIndex()
      requires Valid()
      ensures Table() == Pairs(iter.merged, sequence, |iter.merged|) && at <= |iter.merged|
      ensures Index() == |Pairs(iter.merged, sequence, at)|
    {
      hide Pairs;
    }

    method SeekToLast()
      requires Valid()
      modifies this, iter
      ensures Valid() && Index() == if Table() == [] then 0 else |Table()| - 1
    {
      ParseValid();
      hide Pairs, Shown, LastShown, JustBefore;
      forward, savedValue := false, "";
      iter.SeekToLast();
      FindPrevUserEntry();
      PrevPair(iter.merged, sequence, |iter.merged|, at);
    }

    method Next()
      requires Valid() && valid
      modifies this, iter
      ensures Valid() && Index() == old(Index()) + 1
    {
      ghost var es, was := iter.merged, at;
      ParseValid();
      hide Pairs, FirstShown, CanScan;
      var skip: UserKey;
      if !forward {
        // The entry being left is still ahead, so the internal iterator stays valid here.
        forward := true;
        skip := savedKey.value;
        if iter.current.None? {
          iter.SeekToFirst();
        } else {
          iter.Next();
        }
      } else {
        skip := iter.Entry().ik.ukey;
      }
      iter.Bounds();
      SkipScan(es, sequence, iter.at, was);
      ghost var p := iter.at;
      FindNextUserEntry(Some(skip));
      SkippedShown(es, sequence, p, was, at);
      NextPair(es, sequence, was, at);
    }

    method Prev()
      requires Valid() && valid
      modifies this, iter
      ensures Valid() && Index() == if old(Index()) == 0 then |Table()| else old(Index()) - 1
    {
      ghost var es, was := iter.merged, at;
      ParseValid();
      hide Pairs, LastShown;
      if forward {
        savedKey := Some(iter.Entry().ik.ukey);
        StepOut(was);
        if iter.current.None? {
          valid, savedKey, savedValue := false, None, "";
          at := |es|;
          PrevPair(es, sequence, was, at);
          return;
        }
        forward := false;
      }
      ghost var p := if iter.current.None? then -1 else iter.at;
      FindPrevUserEntry();
      BackFrom(es, sequence, p, was, at);
      PrevPair(es, sequence, was, at);
    }

    /** Scans back until the key changes. */
    method StepOut(ghost was: nat)
      requires iter.Valid() && iter.current.Some? && iter.at == was && savedKey == Some(iter.Entry().ik.ukey)
      requires Shown(iter.merged, sequence, was)
      modifies iter
      ensures iter.Valid() && (iter.current.None? ==> LastShown(iter.merged, sequence, was - 1, |iter.merged|))
      ensures iter.current.Some? ==> JustBefore(iter.merged, sequence, iter.at, was)
    {
      hide *;
      ghost var es := iter.merged;
      iter.Bounds();
      SameKeyStarts(es, was);
      iter.Prev();
      iter.Bounds();
      while iter.current.Some? && !(iter.Entry().ik.ukey < savedKey.value)
        invariant iter.Valid() && iter.merged == es && was < |es| && (iter.current.None? <==> iter.at == |es|)
        invariant iter.current.Some? ==> iter.at < was
        invariant SameKey(es, if iter.current.None? then -1 else iter.at, was)
        decreases if iter.current.None? then 0 else iter.at + 1
      {
        KeysAscend(es, iter.at, was);
        SameKeyDown(es, iter.at, was);
        iter.Prev();
        iter.Bounds();
      }
      SteppedOut(es, sequence, if iter.current.None? then -1 else iter.at, was);
    }

    /** What Valid() says. */
    lemma ParseValid()
      requires Valid()
      ensures iter.Valid() && at <= |iter.merged| && (valid <==> at < |iter.merged|) && (iter.current.None? <==> iter.at == |iter.merged|)
      ensures iter.at <= |iter.merged| && Sorted(iter.merged) && (valid ==> Shown(iter.merged, sequence, at))
      ensures valid && forward ==> iter.at == at
      ensures valid && !forward ==> savedKey == Some(iter.merged[at].ik.ukey) && Put(savedValue) == iter.merged[at].op
                                    && JustBefore(iter.merged, sequence, iter.at, at)
    {
      iter.Bounds();
    }

    method FindNextUserEntry(skip: Option<UserKey>)
      requires iter.Valid() && iter.current.Some? && forward && CanScan(iter.merged, sequence, iter.at, skip)
      modifies this, iter
      ensures Valid() && forward && FirstShown(iter.merged, sequence, old(iter.at), skip, at)
    {
      hide *;
      ghost var es, p := iter.merged, iter.at;
      ghost var now := ScanForward(skip);
      ScanStops(es, sequence, p, iter.at, skip, now);
      ShownFirst(es, sequence, p, skip, iter.at);
      savedKey := None;
      at := iter.at;
      iter.Bounds();
      ValidForward();
    }

    /** Skips hidden and deleted entries; `now` is what is being skipped at the end. */
    method ScanForward(skip: Option<UserKey>) returns (ghost now: Option<UserKey>)
      requires iter.Valid() && iter.current.Some? && forward && CanScan(iter.merged, sequence, iter.at, skip)
      modifies this`valid, iter
      ensures iter.Valid() && Sorted(iter.merged) && iter.at <= |iter.merged| && (valid <==> iter.at < |iter.merged|)
      ensures Scanned(iter.merged, sequence, old(iter.at), iter.at, skip, now)
      ensures valid ==> Seen(iter.merged, sequence, iter.at) && iter.merged[iter.at].op.Put?
                        && !(now.Some? && iter.merged[iter.at].ik.ukey <= now.value)
    {
      hide *;
      ghost var es, p := iter.merged, iter.at;
      iter.Bounds();
      ScanStarts(es, sequence, p, skip);
      var hiding := skip;
      valid := false;
      while iter.current.Some? && !valid
        invariant iter.Valid() && iter.merged == es && iter.at <= |es| && (iter.current.None? <==> iter.at == |es|)
        invariant Scanned(es, sequence, p, iter.at, skip, hiding)
        invariant valid ==> iter.at < |es| && Seen(es, sequence, iter.at) && es[iter.at].op.Put?
                            && !(hiding.Some? && es[iter.at].ik.ukey <= hiding.value)
        decreases |es| - iter.at, !valid
      {
        var e := iter.Entry();
        SeenIs(es, sequence, iter.at);
        if e.ik.seqno <= sequence && e.op.Delete? {
          ScanTombstone(es, sequence, p, iter.at, skip, hiding);
          hiding := Some(e.ik.ukey);
          iter.Next();
        } else if e.ik.seqno <= sequence && !(hiding.Some? && e.ik.ukey <= hiding.value) {
          valid := true;
        } else {
          ScanPast(es, sequence, p, iter.at, skip, hiding);
          iter.Next();
        }
        iter.Bounds();
      }
      now := hiding;
    }

    method FindPrevUserEntry()
      requires iter.Valid() && !forward
      modifies this, iter
      ensures Valid() && LastShown(iter.merged, sequence, if old(iter.current).None? then -1 else old(iter.at), at)
    {
      hide *;
      iter.Bounds();
      ghost var es, p := iter.merged, iter.at;
      valid := false;
      at := |es|;
      if iter.current.None? {
        NothingUpTo(es, sequence);
      } else {
        ghost var last, q := ScanBack();
        BackStops(es, sequence, p, q, last);
        if valid { at := last.value; }
      }
      if !valid {
        savedKey, savedValue, forward := None, "", true;
      }
      ValidBack();
    }

    /** Remembers the entry seen last and stops when it is known to be the newest of its key. */
    method ScanBack() returns (ghost last: Option<nat>, ghost q: int)
      requires iter.Valid() && iter.current.Some?
      modifies this`valid, this`savedKey, this`savedValue, iter
      ensures iter.Valid() && Sorted(iter.merged) && q == (if iter.current.None? then -1 else iter.at)
      ensures iter.current.None? ==> iter.at == |iter.merged|
      ensures old(iter.at) < |iter.merged| && ScannedBack(iter.merged, sequence, old(iter.at), q, last)
      ensures last.Some? ==> last.value < |iter.merged|
      ensures valid <==> last.Some? && iter.merged[last.value].op.Put?
      ensures valid ==> savedKey == Some(iter.merged[last.value].ik.ukey) && Put(savedValue) == iter.merged[last.value].op
      ensures q >= 0 ==> Seen(iter.merged, sequence, q) && valid && q < |iter.merged| &&
                         iter.merged[q].ik.ukey < iter.merged[last.value].ik.ukey
    {
      hide *;
      ghost var es, p := iter.merged, iter.at;
      iter.Bounds();
      BackStarts(es, sequence, p);
      valid, last, q := false, None, p;
      var stop := false;
      while iter.current.Some? && !stop
        invariant iter.Valid() && iter.merged == es && (iter.current.None? <==> iter.at == |es|) && iter.at <= |es|
        invariant q == (if iter.current.None? then -1 else iter.at) && ScannedBack(es, sequence, p, q, last)
        invariant (last.Some? ==> last.value < |es|) && (valid <==> last.Some? && es[last.value].op.Put?)
        invariant valid ==> savedKey == Some(es[last.value].ik.ukey) && Put(savedValue) == es[last.value].op
        invariant stop ==> q >= 0 && Seen(es, sequence, q) && valid && es[q].ik.ukey < es[last.value].ik.ukey
        decreases q + 1, !stop
      {
        var e := iter.Entry();
        SeenIs(es, sequence, iter.at);
        BackPast(es, sequence, p, iter.at, last);
        if e.ik.seqno <= sequence && valid && e.ik.ukey < savedKey.value {
          stop := true;
        } else {
          if e.ik.seqno <= sequence {
            last := Some(iter.at);
            valid := e.op.Put?;
            if valid {
              savedKey, savedValue := Some(e.ik.ukey), e.op.value;
            } else {
              savedKey, savedValue := None, "";
            }
          }
          iter.Prev();
          iter.Bounds();
          q := q - 1;
        }
      }
    }

    lemma ValidBack()
      requires iter.Valid() && at <= |iter.merged| && (valid <==> at < |iter.merged|) && (valid ==> !forward)
      requires valid ==> Shown(iter.merged, sequence, at) && savedKey == Some(iter.merged[at].ik.ukey)
                         && Put(savedValue) == iter.merged[at].op && JustBefore(iter.merged, sequence, iter.at, at)
      ensures Valid()
    {
    }

    lemma ValidForward()
      requires iter.Valid() && at == iter.at && forward && (valid <==> at < |iter.merged|)
      requires valid ==> Shown(iter.merged, sequence, at)
      ensures Valid()
    {
      iter.Bounds();
    }
  }

  lemma SeenIs(es: seq<Entry>, s: nat, i: nat)
    requires i < |es|
    ensures Seen(es, s, i) <==> es[i].ik.seqno <= s
  {
  }

  lemma BackStarts(es: seq<Entry>, s: nat, p: nat)
    requires p < |es|
    ensures ScannedBack(es, s, p, p, None)
  {
  }

  lemma NothingUpTo(es: seq<Entry>, s: nat)
    ensures LastShown(es, s, -1, |es|)
  {
  }

  lemma CanStart(es: seq<Entry>, s: nat)
    ensures CanScan(es, s, 0, None) && (es == [] ==> Pairs(es, s, |es|) == [])
  {
  }

  lemma SoughtScan(es: seq<Entry>, s: nat, target: UserKey, p: nat)
    requires Sorted(es) && p == SeekFrom(es, IKey(target, s), 0)
    ensures CanScan(es, s, p, None) && (p == |es| ==> FirstShown(es, s, p, None, p))
  {
    SeekSplits(es, IKey(target, s), p);
  }

  /** Whether it stands at a shown entry or just before it, the scan may skip that entry's key. */
  lemma SkipScan(es: seq<Entry>, s: nat, p: nat, i: nat)
    requires Sorted(es) && Shown(es, s, i) && p <= i
    requires forall j: nat :: p <= j < i ==> !Seen(es, s, j)
    requires p == i || p == 0 || es[p - 1].ik.ukey < es[i].ik.ukey
    ensures CanScan(es, s, p, Some(es[i].ik.ukey))
  {
    forall q: nat | p <= q && Seen(es, s, q) ensures es[i].ik.ukey <= es[q].ik.ukey { KeysAscend(es, i, q); }
    forall j: nat, q: nat | j < p <= q && Seen(es, s, j) && Seen(es, s, q)
      ensures es[j].ik.ukey == es[q].ik.ukey ==> es[q].ik.ukey <= es[i].ik.ukey
    {
      KeysAscend(es, j, i);
    }
  }

  lemma SkippedShown(es: seq<Entry>, s: nat, p: nat, i: nat, r: nat)
    requires Sorted(es) && Shown(es, s, i) && p <= i && FirstShown(es, s, p, Some(es[i].ik.ukey), r)
    ensures FirstShown(es, s, i + 1, None, r)
  {
    if r <= i { KeysAscend(es, r, i); }
    forall j: nat | i + 1 <= j < r ensures !Eligible(es, s, None, j) {
      assert !Eligible(es, s, Some(es[i].ik.ukey), j);
      if Shown(es, s, j) { ShownAscend(es, s, i, j); }
    }
  }

  /** Between `p` and `i` there are only entries of the key at `i`. */
  ghost predicate SameKey(es: seq<Entry>, p: int, i: nat) {
    i < |es| && forall j: nat :: p < j < i ==> es[j].ik.ukey == es[i].ik.ukey
  }

  lemma SameKeyStarts(es: seq<Entry>, i: nat)
    requires i < |es|
    ensures SameKey(es, i - 1, i)
  {
  }

  lemma SameKeyDown(es: seq<Entry>, p: nat, i: nat)
    requires SameKey(es, p, i) && p < i && es[p].ik.ukey == es[i].ik.ukey
    ensures SameKey(es, p - 1, i)
  {
  }

  lemma SteppedOut(es: seq<Entry>, s: nat, p: int, i: nat)
    requires Shown(es, s, i) && -1 <= p < i && SameKey(es, p, i) && (p >= 0 ==> es[p].ik.ukey < es[i].ik.ukey)
    ensures if p < 0 then LastShown(es, s, i - 1, |es|) else JustBefore(es, s, p, i)
  {
  }

  lemma BackFrom(es: seq<Entry>, s: nat, p: int, i: nat, r: nat)
    requires Shown(es, s, i) && -1 <= p < i && LastShown(es, s, p, r) && forall j: nat :: p < j < i ==> !Seen(es, s, j)
    ensures LastShown(es, s, i - 1, r)
  {
  }

  lemma ScanStarts(es: seq<Entry>, s: nat, p: nat, skip: Option<UserKey>)
    requires p <= |es|
    ensures Scanned(es, s, p, p, skip, skip)
  {
  }

  lemma ShownFirst(es: seq<Entry>, s: nat, p: nat, skip: Option<UserKey>, r: nat)
    requires FirstShown(es, s, p, skip, r)
    ensures r < |es| ==> Shown(es, s, r)
  {
  }
}
