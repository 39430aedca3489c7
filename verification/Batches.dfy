/** Write batches and the entries a log of them stands for. */
module Batches {
  import opened Optional
  import opened Keys

  /** A logged write batch: its first sequence number and its operations. */
  datatype Batch = Batch(seqno: nat, ops: seq<(UserKey, Op)>)

  function BatchEntries(b: Batch): seq<Entry> {
    seq(|b.ops|, i requires 0 <= i < |b.ops| => Entry(IKey(b.ops[i].0, b.seqno + i), b.ops[i].1))
  }

  function LogEntries(log: seq<Batch>): seq<Entry> {
    if log == [] then [] else LogEntries(log[..|log| - 1]) + BatchEntries(log[|log| - 1])
  }

  lemma LogAppend(log: seq<Batch>, b: Batch)
    ensures LogEntries(log + [b]) == LogEntries(log) + BatchEntries(b)
  {
    assert (log + [b])[..|log|] == log;
  }

  lemma BatchLater(last: nat, ops: seq<(UserKey, Op)>)
    ensures forall e :: e in BatchEntries(Batch(last + 1, ops)) ==> e.ik.seqno > last
  {
  }

  // ---------------------------------------------------------------- what a batch makes readable

  /** `ops[i]` is the last operation on `k`. */
  predicate LastOn(ops: seq<(UserKey, Op)>, k: UserKey, i: nat) {
    i < |ops| && ops[i].0 == k && forall j :: i < j < |ops| ==> ops[j].0 != k
  }

  predicate Names(ops: seq<(UserKey, Op)>, k: UserKey) {
    exists i :: 0 <= i < |ops| && ops[i].0 == k
  }

  /** A batch appended to a history: each key it names reads as its last operation on that key, a key
      it does not name reads as before. */
  lemma {:induction false} BatchRead(h: seq<Entry>, last: nat, ops: seq<(UserKey, Op)>, k: UserKey, s: nat)
    requires (forall e :: e in h ==> e.ik.seqno <= last) && s >= last + |ops|
    ensures var r := ValueOf(HistoryFind(h + BatchEntries(Batch(last + 1, ops)), k, s));
            && (forall i: nat :: LastOn(ops, k, i) ==> r == if ops[i].1.Put? then Some(ops[i].1.value) else None)
            && (!Names(ops, k) ==> r == ValueOf(HistoryFind(h, k, last)))
    decreases |ops|
  {
    hide *;
    if ops == [] {
      NoBatch(h, last);
      NobodyLast(k);
      HistoryFindAbove(h, k, last, s);
    } else {
      var front, n := ops[..|ops| - 1], |ops| - 1;
      BatchLast(h, last, ops);
      FindLast(h + BatchEntries(Batch(last + 1, front)), Entry(IKey(ops[n].0, last + 1 + n), ops[n].1), k, s);
      BatchRead(h, last, front, k, s);
      LastOperation(ops, k);
    }
  }

  lemma NoBatch(h: seq<Entry>, last: nat)
    ensures h + BatchEntries(Batch(last + 1, [])) == h
  {
  }

  lemma NobodyLast(k: UserKey)
    ensures forall i: nat :: !LastOn([], k, i)
  {
  }

  lemma BatchLast(h: seq<Entry>, last: nat, ops: seq<(UserKey, Op)>)
    requires ops != []
    ensures var n := |ops| - 1;
            h + BatchEntries(Batch(last + 1, ops)) ==
              (h + BatchEntries(Batch(last + 1, ops[..n]))) + [Entry(IKey(ops[n].0, last + 1 + n), ops[n].1)]
  {
    var n := |ops| - 1;
    assert BatchEntries(Batch(last + 1, ops)) ==
           BatchEntries(Batch(last + 1, ops[..n])) + [Entry(IKey(ops[n].0, last + 1 + n), ops[n].1)];
  }

  lemma FindLast(h: seq<Entry>, e: Entry, k: UserKey, s: nat)
    ensures e.ik.seqno <= s ==>
              ValueOf(HistoryFind(h + [e], k, s)) ==
                if e.ik.ukey == k then (if e.op.Put? then Some(e.op.value) else None) else ValueOf(HistoryFind(h, k, s))
  {
    assert (h + [e])[..|h|] == h;
  }

  lemma LastOperation(ops: seq<(UserKey, Op)>, k: UserKey)
    requires ops != []
    ensures var front, n := ops[..|ops| - 1], |ops| - 1;
            if ops[n].0 == k then Names(ops, k) && forall i: nat :: LastOn(ops, k, i) ==> i == n
            else (Names(front, k) ==> Names(ops, k)) &&
                 forall i: nat :: LastOn(ops, k, i) ==> LastOn(front, k, i) && i < n && front[i] == ops[i]
  {
  }

  lemma BatchReads(h: seq<Entry>, last: nat, ops: seq<(UserKey, Op)>)
    requires forall e :: e in h ==> e.ik.seqno <= last
    ensures var h2 := h + BatchEntries(Batch(last + 1, ops));
            && (forall k, i: nat :: LastOn(ops, k, i) ==>
                  ValueOf(HistoryFind(h2, k, last + |ops|)) == if ops[i].1.Put? then Some(ops[i].1.value) else None)
            && (forall k :: !Names(ops, k) ==>
                  ValueOf(HistoryFind(h2, k, last + |ops|)) == ValueOf(HistoryFind(h, k, last)))
            && (forall k, s: nat :: s <= last ==> HistoryFind(h2, k, s) == HistoryFind(h, k, s))
  {
    hide BatchEntries, HistoryFind, ValueOf, Names;
    var es := BatchEntries(Batch(last + 1, ops));
    forall k, i: nat | LastOn(ops, k, i)
      ensures ValueOf(HistoryFind(h + es, k, last + |ops|)) == if ops[i].1.Put? then Some(ops[i].1.value) else None
    {
      BatchRead(h, last, ops, k, last + |ops|);
    }
    forall k | !Names(ops, k)
      ensures ValueOf(HistoryFind(h + es, k, last + |ops|)) == ValueOf(HistoryFind(h, k, last))
    {
      BatchRead(h, last, ops, k, last + |ops|);
    }
    BatchLater(last, ops);
    forall k, s: nat | s <= last ensures HistoryFind(h + es, k, s) == HistoryFind(h, k, s) {
      HistoryFindPrefix(h, es, k, s);
    }
  }
}
