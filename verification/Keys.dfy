/** Internal keys, entries and the meaning of a read.

    A user key is modelled as a `real`, of which only the order is ever used: every countable
    total order, in particular the bytewise order on strings, embeds in it. */
module Keys {
  import opened Optional

  type UserKey = real

  /** Sequence numbers share 64 bits with the value type. */
  const MAX_SEQUENCE: nat := 0xFF_FFFF_FFFF_FFFF

  datatype IKey = IKey(ukey: UserKey, seqno: nat)

  /** The internal key order: user keys ascending, then newer entries first. The value type only
      breaks ties between equal sequence numbers, which no two entries of a store share. */
  predicate Before(a: IKey, b: IKey) {
    a.ukey < b.ukey || (a.ukey == b.ukey && a.seqno > b.seqno)
  }

  datatype Op = Put(value: string) | Delete

  datatype Entry = Entry(ik: IKey, op: Op)

  ghost predicate Sorted(es: seq<Entry>) {
    forall i, j :: 0 <= i < j < |es| ==> Before(es[i].ik, es[j].ik)
  }

  ghost function Content(es: seq<Entry>): set<Entry> {
    set e | e in es
  }

  lemma NoContent(es: seq<Entry>)
    ensures Content(es) == {} <==> es == []
  {
    if es != [] { assert es[0] in Content(es); }
  }

  // ---------------------------------------------------------------- reads

  /** `e` can be seen by a read of `k` at sequence number `s`. */
  predicate Matches(e: Entry, k: UserKey, s: nat) {
    e.ik.ukey == k && e.ik.seqno <= s
  }

  ghost predicate Newest(E: set<Entry>, k: UserKey, s: nat, e: Entry) {
    && e in E && Matches(e, k, s)
    && forall f :: f in E && Matches(f, k, s) ==> f.ik.seqno <= e.ik.seqno
  }

  ghost predicate Absent(E: set<Entry>, k: UserKey, s: nat) {
    forall f :: f in E ==> !Matches(f, k, s)
  }

  /** `r` is what a read of `k` at `s` must find among the entries `E`. */
  ghost predicate Finds(E: set<Entry>, k: UserKey, s: nat, r: Option<Entry>) {
    match r
    case Some(e) => Newest(E, k, s, e)
    case None => Absent(E, k, s)
  }

  /** What the caller of a read sees: a tombstone reads as "not found". */
  function ValueOf(r: Option<Entry>): Option<string> {
    if r.Some? && r.value.op.Put? then Some(r.value.op.value) else None
  }

  ghost predicate UniqueSeqnos(E: set<Entry>) {
    forall e, f :: e in E && f in E && e.ik.seqno == f.ik.seqno ==> e == f
  }

  lemma {:induction false} NewestExists(E: set<Entry>, k: UserKey, s: nat)
    ensures Absent(E, k, s) || exists e :: Newest(E, k, s, e)
    decreases |E|
  {
    if !Absent(E, k, s) {
      var x :| x in E && Matches(x, k, s);
      var rest := E - {x};
      NewestExists(rest, k, s);
      if exists y :: Newest(rest, k, s, y) {
        var y :| Newest(rest, k, s, y);
        assert Newest(E, k, s, if x.ik.seqno > y.ik.seqno then x else y);
      } else {
        assert Newest(E, k, s, x) by {
          forall f | f in E && Matches(f, k, s) ensures f == x {
            assert f in rest || f == x;
          }
        }
      }
    }
  }

  /** The entry a read finds in a set of entries. */
  ghost function Find(E: set<Entry>, k: UserKey, s: nat): (r: Option<Entry>)
    ensures Finds(E, k, s, r)
  {
    NewestExists(E, k, s);
    if Absent(E, k, s) then None else var e :| Newest(E, k, s, e); Some(e)
  }

  lemma FindUnique(E: set<Entry>, k: UserKey, s: nat, r: Option<Entry>)
    requires UniqueSeqnos(E) && Finds(E, k, s, r)
    ensures r == Find(E, k, s)
  {
    var q := Find(E, k, s);
    if r.Some? && q.Some? {
      assert r.value.ik.seqno == q.value.ik.seqno;
    }
  }

  /** Reads of `E` and `H` at or above `floor` return the same values. */
  ghost predicate Agrees(E: set<Entry>, H: set<Entry>, floor: nat) {
    forall k: UserKey, s: nat :: s >= floor ==> ValueOf(Find(E, k, s)) == ValueOf(Find(H, k, s))
  }

  /** Entries of `upper` are newer than entries of `lower` for the same user key. */
  ghost predicate NewerThan(upper: set<Entry>, lower: set<Entry>) {
    forall e, f :: e in upper && f in lower && e.ik.ukey == f.ik.ukey ==> e.ik.seqno > f.ik.seqno
  }

  /** A hit in a newer layer settles the read; a miss passes it on. */
  lemma LayeredFind(upper: set<Entry>, lower: set<Entry>, k: UserKey, s: nat)
    requires NewerThan(upper, lower)
    ensures forall r :: Finds(upper, k, s, r) && r.Some? ==> Finds(upper + lower, k, s, r)
    ensures forall r :: Absent(upper, k, s) && Finds(lower, k, s, r) ==> Finds(upper + lower, k, s, r)
  {
  }

  // ---------------------------------------------------------------- sorted tables

  /** The position a table or memtable iterator reaches by `Seek(target)`. */
  function SeekFrom(es: seq<Entry>, target: IKey, i: nat): (n: nat)
    requires i <= |es|
    requires forall j :: 0 <= j < i ==> Before(es[j].ik, target)
    ensures i <= n <= |es|
    ensures forall j :: 0 <= j < n ==> Before(es[j].ik, target)
    ensures n < |es| ==> !Before(es[n].ik, target)
    decreases |es| - i
  {
    if i < |es| && Before(es[i].ik, target) then SeekFrom(es, target, i + 1) else i
  }

  /** `MemTable::Get` and the table lookup: seek to the lookup key, then compare user keys. */
  function TableGet(es: seq<Entry>, k: UserKey, s: nat): (r: Option<Entry>)
    ensures Sorted(es) ==> Finds(Content(es), k, s, r)
  {
    var i := SeekFrom(es, IKey(k, s), 0);
    if i < |es| && es[i].ik.ukey == k then Some(es[i]) else None
  }

  /** Adding one entry to a memtable, which keeps its entries in internal key order. */
  function Insert(es: seq<Entry>, e: Entry): (r: seq<Entry>)
    ensures Content(r) == Content(es) + {e}
  {
    var i := SeekFrom(es, e.ik, 0);
    assert es == es[..i] + es[i..];
    es[..i] + [e] + es[i..]
  }

  lemma SpliceSorted(es: seq<Entry>, e: Entry, i: nat)
    requires Sorted(es) && i <= |es|
    requires forall j :: 0 <= j < i ==> Before(es[j].ik, e.ik)
    requires forall j :: i <= j < |es| ==> Before(e.ik, es[j].ik)
    ensures Sorted(es[..i] + [e] + es[i..])
  {
    var r := es[..i] + [e] + es[i..];
    forall a, b | 0 <= a < b < |r| ensures Before(r[a].ik, r[b].ik) {
      if b < i {
        assert r[a] == es[a] && r[b] == es[b];
      } else if a < i {
        assert r[a] == es[a] && (b == i ==> r[b] == e) && (b > i ==> r[b] == es[b - 1]);
      } else {
        assert r[b] == es[b - 1] && (a == i ==> r[a] == e) && (a > i ==> r[a] == es[a - 1]);
      }
    }
  }

  lemma InsertSorted(es: seq<Entry>, e: Entry)
    requires Sorted(es) && forall x :: x in es ==> x.ik != e.ik
    ensures Sorted(Insert(es, e))
  {
    var i := SeekFrom(es, e.ik, 0);
    if i < |es| {
      assert es[i] in es;
      assert Before(e.ik, es[i].ik);
    }
    assert forall j :: i <= j < |es| ==> Before(e.ik, es[j].ik);
    SpliceSorted(es, e, i);
  }

  /** Inserting a run of entries one by one, as `WriteBatchInternal::InsertInto` does. */
  function InsertAll(es: seq<Entry>, more: seq<Entry>): (r: seq<Entry>)
    ensures Content(r) == Content(es) + Content(more)
    decreases |more|
  {
    if more == [] then es
    else
      var r := InsertAll(Insert(es, more[0]), more[1..]);
      assert more == [more[0]] + more[1..];
      r
  }

  /** Sequence numbers strictly increase along `h`: the order in which writes were committed. */
  ghost predicate Increasing(h: seq<Entry>) {
    forall i, j :: 0 <= i < j < |h| ==> h[i].ik.seqno < h[j].ik.seqno
  }

  lemma {:induction false} InsertAllSorted(es: seq<Entry>, more: seq<Entry>)
    requires Sorted(es) && Increasing(more)
    requires forall x, y :: x in es && y in more ==> x.ik.seqno < y.ik.seqno
    ensures Sorted(InsertAll(es, more))
    decreases |more|
  {
    if more != [] {
      var next := Insert(es, more[0]);
      assert more[0] in more;
      assert Content(next) == Content(es) + {more[0]};
      forall x, y | x in next && y in more[1..] ensures x.ik.seqno < y.ik.seqno {
        assert x in Content(next);
      }
      InsertSorted(es, more[0]);
      InsertAllSorted(next, more[1..]);
    }
  }

  /** The same for entries in any order whose internal keys are new and different. */
  lemma {:induction false} InsertDistinctSorted(es: seq<Entry>, more: seq<Entry>)
    requires Sorted(es) && (forall x, y :: x in es && y in more ==> x.ik != y.ik)
    requires forall i, j :: 0 <= i < j < |more| ==> more[i].ik != more[j].ik
    ensures Sorted(InsertAll(es, more))
    decreases |more|
  {
    if more != [] {
      var next := Insert(es, more[0]);
      assert more[0] in more;
      forall x, y | x in next && y in more[1..] ensures x.ik != y.ik {
        assert x in Content(next);
      }
      InsertSorted(es, more[0]);
      InsertDistinctSorted(next, more[1..]);
    }
  }

  // ---------------------------------------------------------------- histories

  /** The specification of a read: the last write of `k` in the history numbered at most `s`. */
  function HistoryFind(h: seq<Entry>, k: UserKey, s: nat): (r: Option<Entry>) {
    if h == [] then None
    else
      var last := h[|h| - 1];
      if Matches(last, k, s) then Some(last) else HistoryFind(h[..|h| - 1], k, s)
  }

  /** Entries above the snapshot do not change what it sees. */
  lemma {:induction false} HistoryFindPrefix(h: seq<Entry>, more: seq<Entry>, k: UserKey, s: nat)
    requires forall e :: e in more ==> e.ik.seqno > s
    ensures HistoryFind(h + more, k, s) == HistoryFind(h, k, s)
    decreases |more|
  {
    if more == [] {
      assert h + more == h;
    } else {
      var front := more[..|more| - 1];
      assert more[|more| - 1] in more;
      assert (h + more)[..|h + more| - 1] == h + front;
      HistoryFindPrefix(h, front, k, s);
    }
  }

  lemma {:induction false} HistoryFindAbove(h: seq<Entry>, k: UserKey, last: nat, s: nat)
    requires (forall e :: e in h ==> e.ik.seqno <= last) && s >= last
    ensures HistoryFind(h, k, s) == HistoryFind(h, k, last)
    decreases |h|
  {
    if h != [] {
      assert h[|h| - 1] in h;
      HistoryFindAbove(h[..|h| - 1], k, last, s);
    }
  }

  lemma {:induction false} HistoryFindsNewest(h: seq<Entry>, k: UserKey, s: nat)
    requires Increasing(h)
    ensures Finds(Content(h), k, s, HistoryFind(h, k, s))
  {
    if h != [] {
      var front := h[..|h| - 1];
      HistoryFindsNewest(front, k, s);
      assert h == front + [h[|h| - 1]];
      assert Content(h) == Content(front) + {h[|h| - 1]};
    }
  }

  lemma IncreasingUnique(h: seq<Entry>)
    requires Increasing(h)
    ensures UniqueSeqnos(Content(h))
  {
  }

  lemma Reassociate(a: seq<Entry>, b: seq<Entry>, c: seq<Entry>)
    ensures a + b + c == a + (b + c)
  {
  }
}
