/** The thread pool's invariant over all interleavings, and what follows from it. */
module ThreadPoolProof {
  import opened Optional
  import opened ThreadPool

  // ---------------------------------------------------------------- counters under one change

  ghost function B(b: bool): int { if b then 1 else 0 }

  lemma WorkerChange(ws: seq<Worker>, i: nat, w: Worker)
    requires i < |ws|
    ensures Count(ws[i := w], IsIdle) == Count(ws, IsIdle) - B(IsIdle(ws[i])) + B(IsIdle(w))
    ensures Count(ws[i := w], IsSlow) == Count(ws, IsSlow) - B(IsSlow(ws[i])) + B(IsSlow(w))
    ensures Count(ws[i := w], IsWaiting) == Count(ws, IsWaiting) - B(IsWaiting(ws[i])) + B(IsWaiting(w))
    ensures Count(ws[i := w], IsComing) == Count(ws, IsComing) - B(IsComing(ws[i])) + B(IsComing(w))
  {
    CountUpdate(ws, IsIdle, i, w);
    CountUpdate(ws, IsSlow, i, w);
    CountUpdate(ws, IsWaiting, i, w);
    CountUpdate(ws, IsComing, i, w);
  }

  lemma SignalCounts(ws: seq<Worker>, wake: Option<nat>)
    requires WakeOk(ws, wake)
    ensures var s := Signal(ws, wake);
            && |s| == |ws| && Count(s, IsIdle) == Count(ws, IsIdle) && Count(s, IsSlow) == Count(ws, IsSlow)
            && Count(s, IsWaiting) == Count(ws, IsWaiting) - B(wake.Some?)
            && Count(s, IsComing) == Count(ws, IsComing) + B(wake.Some?)
            && (wake.None? ==> Count(ws, IsWaiting) == 0)
            && forall j :: 0 <= j < |ws| && !ws[j].Waiting? ==> s[j] == ws[j]
  {
    hide Count;
    if wake.Some? {
      WorkerChange(ws, wake.value, Woken);
    } else {
      CountSome(ws, IsWaiting);
    }
  }

  lemma {:induction false} WaitingIsIdle(ws: seq<Worker>)
    ensures Count(ws, IsWaiting) <= Count(ws, IsIdle)
  {
    if ws != [] { WaitingIsIdle(ws[..|ws| - 1]); }
  }

  // ---------------------------------------------------------------- the queue

  lemma {:induction false} JobsNone(wq: seq<Item>)
    requires Jobs(wq) == 0
    ensures forall i :: 0 <= i < |wq| ==> wq[i].SlowMessage?
  {
    forall i | 0 <= i < |wq| ensures wq[i].SlowMessage? {
      if !wq[i].SlowMessage? { JobsSome(wq, i); }
    }
  }

  /** A worker waits exactly when there is nothing it could act upon. */
  lemma BlockedIffNothingRunnable(p: Pool)
    requires SlowOk(p)
    ensures Blocked(p) <==> Runnable(p) == 0
  {
    if Blocked(p) {
      if p.wq == [SlowMessage] { JobsAppend([], SlowMessage); assert [] + [SlowMessage] == [SlowMessage]; }
    }
    if Runnable(p) == 0 && p.wq != [] {
      JobsNone(p.wq);
      SlowLeaves(p.wq);
      HeadRemoved(p.wq);
      JobsNone(p.wq[1..]);
      NoneLeft(p.wq[1..]);
      assert p.wq == [p.wq[0]] + p.wq[1..];
    }
  }

  lemma NoneLeft(wq: seq<Item>)
    ensures SlowMessage !in wq && (forall i :: 0 <= i < |wq| ==> wq[i].SlowMessage?) ==> wq == []
  {
    if wq != [] { assert wq[0] in wq; }
  }

  lemma HeadRemoved(wq: seq<Item>)
    requires wq != []
    ensures Jobs(wq[1..]) == Jobs(wq) - B(!wq[0].SlowMessage?)
  {
    JobsRemove(wq, 0);
    assert wq[..0] + wq[1..] == wq[1..];
  }

  // ---------------------------------------------------------------- wakeups

  /** Appending one entry and signalling an idle thread keeps enough workers on their way. */
  lemma EnqueueWakes(p: Pool, x: Item, wake: Option<nat>, q: Pool)
    requires WakeupsOk(p) && p.idle == Count(p.workers, IsIdle) && Enqueued(p, x, wake, q)
    ensures |q.workers| == |p.workers|
    ensures Count(q.workers, IsIdle) == Count(p.workers, IsIdle) && Count(q.workers, IsSlow) == Count(p.workers, IsSlow)
    ensures Count(q.workers, IsWaiting) > 0 ==> Count(q.workers, IsComing) >= Runnable(p) + 1
    ensures forall j :: 0 <= j < |p.workers| && !p.workers[j].Waiting? ==> q.workers[j] == p.workers[j]
    ensures forall j :: 0 <= j < |p.workers| && p.workers[j].Waiting? ==> q.workers[j].Waiting? || q.workers[j].Woken?
  {
    hide Count, Runnable;
    WaitingIsIdle(p.workers);
    if p.idle > 0 {
      SignalCounts(p.workers, wake);
    }
  }

  lemma SubmitCounts(p: Pool, id: nat, slow: bool, wake: Option<nat>, q: Pool)
    requires CountersOk(p) && SlowOk(p) && WakeupsOk(p) && NextSubmit(p, id, slow, wake, q)
    ensures CountersOk(q) && SlowOk(q) && WakeupsOk(q)
  {
    hide Count, Jobs;
    if slow && SlowMessage in p.wq {
    } else {
      var x := if slow then SlowMessage else Work(id);
      EnqueueWakes(p, x, wake, q);
      JobsAppend(p.wq, x);
      assert Runnable(q) <= Runnable(p) + 1;
      assert x in q.wq by { assert q.wq[|p.wq|] == x; }
      assert SlowMessage in p.wq ==> SlowMessage in q.wq;
    }
  }

  lemma CleanupCounts(p: Pool, wake: Option<nat>, q: Pool)
    requires CountersOk(p) && SlowOk(p) && WakeupsOk(p) && Next(p, Cleanup(wake), q)
    ensures CountersOk(q) && SlowOk(q) && WakeupsOk(q)
  {
    hide Count, Jobs;
    EnqueueWakes(p, ExitMessage, wake, q);
    JobsAppend(p.wq, ExitMessage);
    assert SlowMessage in q.wq <==> SlowMessage in p.wq;
  }

  lemma SlowLeaves(wq: seq<Item>)
    requires wq != [] && wq[0].SlowMessage?
    requires forall i, j :: 0 <= i < j < |wq| && wq[i].SlowMessage? ==> !wq[j].SlowMessage?
    ensures SlowMessage !in wq[1..] && SlowMessage in wq
  {
    assert wq[0] in wq;
  }

  lemma AdvanceCounts(p: Pool, i: nat, wake: Option<nat>, q: Pool)
    requires CountersOk(p) && SlowOk(p) && WakeupsOk(p) && NextAdvance(p, i, wake, q)
    ensures CountersOk(q) && SlowOk(q) && WakeupsOk(q)
  {
    hide Count, Jobs;
    BlockedIffNothingRunnable(p);
    if Blocked(p) {
      WorkerChange(p.workers, i, Waiting);
    } else {
      HeadRemoved(p.wq);
      assert p.wq == [p.wq[0]] + p.wq[1..];
      match p.wq[0] {
        case ExitMessage => ExitCounts(p, i, wake, q);
        case Work(id) => WorkCounts(p, i, id, q);
        case SlowMessage => SlowCounts(p, i, wake, q);
      }
    }
  }

  lemma ExitCounts(p: Pool, i: nat, wake: Option<nat>, q: Pool)
    requires CountersOk(p) && SlowOk(p) && WakeupsOk(p) && i < |p.workers| && p.workers[i].Ready?
    requires WakeOk(p.workers, wake) && q == p.(workers := Signal(p.workers, wake)[i := Exited])
    ensures CountersOk(q) && SlowOk(q) && WakeupsOk(q)
  {
    hide Count, Jobs;
    SignalCounts(p.workers, wake);
    WorkerChange(Signal(p.workers, wake), i, Exited);
  }

  lemma WorkCounts(p: Pool, i: nat, id: nat, q: Pool)
    requires CountersOk(p) && SlowOk(p) && WakeupsOk(p) && i < |p.workers| && p.workers[i].Ready?
    requires p.wq != [] && p.wq[0] == Work(id)
    requires q == p.(wq := p.wq[1..], workers := p.workers[i := Running(id, false)], requests := q.requests)
    ensures CountersOk(q) && SlowOk(q) && WakeupsOk(q)
  {
    hide Count, Jobs;
    HeadRemoved(p.wq);
    WorkerChange(p.workers, i, Running(id, false));
    assert p.wq == [p.wq[0]] + p.wq[1..];
    assert SlowMessage in q.wq <==> SlowMessage in p.wq;
  }

  lemma SlowCounts(p: Pool, i: nat, wake: Option<nat>, q: Pool)
    requires CountersOk(p) && SlowOk(p) && WakeupsOk(p) && NextAdvance(p, i, wake, q)
    requires !Blocked(p) && p.wq != [] && p.wq[0] == SlowMessage
    ensures CountersOk(q) && SlowOk(q) && WakeupsOk(q)
  {
    hide Count, Jobs;
    var rest := p.wq[1..];
    HeadRemoved(p.wq);
    SlowLeaves(p.wq);
    if p.slowRunning >= Threshold(p) {
      JobsAppend(rest, SlowMessage);
      assert q.wq[|rest|] == SlowMessage;
    } else if p.slowPending == [] {
      assert Runnable(q) <= Runnable(p);
    } else {
      var id := p.slowPending[0];
      var mid := p.(wq := rest, slowRunning := p.slowRunning + 1, slowPending := p.slowPending[1..],
                    workers := p.workers[i := Running(id, true)]);
      WorkerChange(p.workers, i, Running(id, true));
      assert Runnable(mid) == Runnable(p) - 1;
      assert WakeupsOk(mid) && CountersOk(mid);
      if mid.slowPending != [] {
        EnqueueWakes(mid, SlowMessage, wake, q);
        JobsAppend(rest, SlowMessage);
        assert q.wq[|rest|] == SlowMessage;
        assert Runnable(q) <= Runnable(mid) + 1;
      }
    }
  }

  lemma OtherCounts(p: Pool, a: Action, q: Pool)
    requires CountersOk(p) && SlowOk(p) && WakeupsOk(p) && Next(p, a, q)
    requires a.SpuriousWakeup? || a.Reacquire? || a.Finish? || a.Rejoin?
    ensures CountersOk(q) && SlowOk(q) && WakeupsOk(q)
  {
    hide Count, Jobs;
    var w := if a.SpuriousWakeup? then Woken else if a.Finish? then Posted(p.workers[a.i].slow) else Ready;
    WorkerChange(p.workers, a.i, w);
    assert q.workers == p.workers[a.i := w];
  }

  lemma CutMembers<T>(s: seq<T>, i: nat)
    requires i < |s| && forall j :: 0 <= j < |s| && j != i ==> s[j] != s[i]
    ensures var r := s[..i] + s[i + 1..];
            && (forall k :: 0 <= k < |r| ==> r[k] == s[if k < i then k else k + 1])
            && (forall y :: y in r <==> y in s && y != s[i])
  {
    var r := s[..i] + s[i + 1..];
    forall y | y in s && y != s[i] ensures y in r {
      var j :| 0 <= j < |s| && s[j] == y;
      assert r[if j < i then j else j - 1] == y;
    }
  }

  /** Removing one of pairwise different elements removes it and nothing else. */
  lemma RemoveMembers<T>(s: seq<T>, x: T)
    requires forall i, j :: 0 <= i < j < |s| && s[i] == x ==> s[j] != x
    ensures forall y :: y in Remove(s, x) <==> y in s && y != x
    ensures NoDups(s) ==> NoDups(Remove(s, x))
  {
    hide IndexOf;
    if x in s {
      CutMembers(s, IndexOf(s, x));
    }
  }

  lemma RemoveWork(wq: seq<Item>, id: nat)
    requires forall i, j :: 0 <= i < j < |wq| && wq[i].Work? ==> wq[i] != wq[j]
    requires forall i, j :: 0 <= i < j < |wq| && wq[i].SlowMessage? ==> !wq[j].SlowMessage?
    ensures var r := Remove(wq, Work(id));
            && (forall y :: y in r <==> y in wq && y != Work(id)) && Jobs(r) <= Jobs(wq)
            && (forall i, j :: 0 <= i < j < |r| && r[i].Work? ==> r[i] != r[j])
            && (forall i, j :: 0 <= i < j < |r| && r[i].SlowMessage? ==> !r[j].SlowMessage?)
  {
    hide Jobs;
    hide IndexOf;
    if Work(id) in wq {
      var i := IndexOf(wq, Work(id));
      JobsRemove(wq, i);
      CutMembers(wq, i);
    }
  }

  lemma CancelCounts(p: Pool, id: nat, q: Pool)
    requires CountersOk(p) && SlowOk(p) && WakeupsOk(p) && PlacesOk(p) && NextCancelCheck(p, id, q)
    ensures CountersOk(q) && SlowOk(q) && WakeupsOk(q)
  {
    hide Count, Jobs;
    RemoveWork(p.wq, id);
    if q != p {
      assert SlowMessage in q.wq <==> SlowMessage in p.wq;
      assert Runnable(q) <= Runnable(p);
      if q.slowPending != [] {
        RemoveMembers(p.slowPending, id);
        assert q.slowPending[0] in q.slowPending;
        assert q.slowPending[0] in p.slowPending;
      }
    }
  }

  lemma LoopCounts(p: Pool, q: Pool)
    requires CountersOk(p) && SlowOk(p) && WakeupsOk(p)
    requires q.workers == p.workers && q.wq == p.wq && q.slowPending == p.slowPending && q.idle == p.idle && q.slowRunning == p.slowRunning
    ensures CountersOk(q) && SlowOk(q) && WakeupsOk(q)
  {
    hide Count, Jobs;
  }

  lemma NextCounts(p: Pool, a: Action, q: Pool)
    requires CountersOk(p) && SlowOk(p) && WakeupsOk(p) && PlacesOk(p) && Next(p, a, q)
    ensures CountersOk(q) && SlowOk(q) && WakeupsOk(q)
  {
    hide CountersOk, SlowOk, WakeupsOk, PlacesOk, NextSubmit, NextAdvance;
    match a {
      case Submit(id, slow, wake) => SubmitCounts(p, id, slow, wake, q);
      case Advance(i, wake) => AdvanceCounts(p, i, wake, q);
      case CancelCheck(id) => CancelCounts(p, id, q);
      case CancelPost => LoopCounts(p, q);
      case Drain => LoopCounts(p, q);
      case CallDone => LoopCounts(p, q);
      case Cleanup(wake) => CleanupCounts(p, wake, q);
      case _ => OtherCounts(p, a, q);
    }
  }

  // ---------------------------------------------------------------- places

  lemma AppendMembers<T>(s: seq<T>, x: T)
    ensures forall y :: y in s + [x] <==> y in s || y == x
    ensures NoDups(s) && x !in s ==> NoDups(s + [x])
  {
    forall y | y in s ensures y in s + [x] {
      var j :| 0 <= j < |s| && s[j] == y;
      assert (s + [x])[j] == y;
    }
    assert (s + [x])[|s|] == x;
  }

  lemma HeadMembers<T>(s: seq<T>)
    requires s != []
    ensures s[0] in s && forall y :: y in s <==> y in s[1..] || y == s[0]
    ensures NoDups(s) ==> NoDups(s[1..]) && s[0] !in s[1..]
  {
    assert s == [s[0]] + s[1..];
  }

  /** One request moves to another place: what each queue must do. */
  lemma ListMoves(s: seq<nat>, rs: map<nat, Request>, place: Place, id: nat, r: Request)
    requires Lists(s, rs, place)
    ensures !At(rs, id, place) && r.place != place ==> Lists(s, rs[id := r], place)
    ensures !At(rs, id, place) && r.place == place ==> Lists(s + [id], rs[id := r], place)
    ensures s != [] && s[0] == id && r.place != place ==> Lists(s[1..], rs[id := r], place)
    ensures r.place != place ==> Lists(Remove(s, id), rs[id := r], place)
  {
    hide Remove;
    AppendMembers(s, id);
    RemoveMembers(s, id);
    if s != [] { HeadMembers(s); }
  }

  lemma WorkMoves(wq: seq<Item>, rs: map<nat, Request>, id: nat, r: Request)
    requires ListsWork(wq, rs)
    requires forall i, j :: 0 <= i < j < |wq| && wq[i].SlowMessage? ==> !wq[j].SlowMessage?
    ensures !At(rs, id, InQueue) && !r.place.InQueue? ==> ListsWork(wq, rs[id := r])
    ensures !At(rs, id, InQueue) && r.place.InQueue? ==> ListsWork(wq + [Work(id)], rs[id := r])
    ensures wq != [] && wq[0] == Work(id) && !r.place.InQueue? ==> ListsWork(wq[1..], rs[id := r])
    ensures !r.place.InQueue? ==> ListsWork(Remove(wq, Work(id)), rs[id := r])
  {
    hide Remove;
    AppendMembers(wq, Work(id));
    RemoveWork(wq, id);
    if wq != [] { HeadMembers(wq); }
  }

  lemma MessageMoves(wq: seq<Item>, rs: map<nat, Request>, x: Item)
    requires ListsWork(wq, rs) && !x.Work?
    ensures ListsWork(wq + [x], rs)
    ensures wq != [] && !wq[0].Work? ==> ListsWork(wq[1..], rs)
  {
    AppendMembers(wq, x);
    if wq != [] { HeadMembers(wq); }
  }

  ghost predicate OffWorker(rs: map<nat, Request>, id: nat) {
    id !in rs || !rs[id].place.OnWorker?
  }

  lemma WorkersMove(ws: seq<Worker>, rs: map<nat, Request>, id: nat, r: Request, i: nat, w: Worker)
    requires ListsWorkers(ws, rs)
    ensures OffWorker(rs, id) && !r.place.OnWorker? ==> ListsWorkers(ws, rs[id := r])
    ensures i < |ws| && !ws[i].Running? && w == Running(id, w.Running? && w.slow) && r.place == OnWorker(i) && OffWorker(rs, id) ==>
              ListsWorkers(ws[i := w], rs[id := r])
    ensures i < |ws| && ws[i].Running? && ws[i].id == id && !w.Running? && !r.place.OnWorker? ==> ListsWorkers(ws[i := w], rs[id := r])
    ensures i < |ws| && !ws[i].Running? && !w.Running? ==> ListsWorkers(ws[i := w], rs)
  {
  }

  /** A signal changes no running worker and no other place. */
  lemma SignalPlaces(ws: seq<Worker>, rs: map<nat, Request>, wake: Option<nat>)
    requires ListsWorkers(ws, rs) && WakeOk(ws, wake)
    ensures ListsWorkers(Signal(ws, wake), rs)
  {
    if wake.Some? { WorkersMove(ws, rs, 0, Request(Set, InQueue, 0, 0), wake.value, Woken); }
  }

  lemma SubmitPlaces(p: Pool, id: nat, slow: bool, wake: Option<nat>, q: Pool)
    requires SlowOk(p) && PlacesOk(p) && RequestsOk(p) && NextSubmit(p, id, slow, wake, q)
    ensures PlacesOk(q) && RequestsOk(q)
  {
    hide ListsWork, ListsWorkers, Lists, WakeOk, Signal;
    var r := Request(Set, if slow then InSlowQueue else InQueue, 0, 0);
    ListMoves(p.slowPending, p.requests, InSlowQueue, id, r);
    ListMoves(p.loopQueue, p.requests, InLoopQueue, id, r);
    ListMoves(p.draining, p.requests, InDrain, id, r);
    WorkMoves(p.wq, p.requests, id, r);
    if slow { MessageMoves(p.wq, q.requests, SlowMessage); }
    WorkersMove(p.workers, p.requests, id, r, 0, Woken);
    if q.workers != p.workers { SignalPlaces(p.workers, q.requests, wake); }
  }

  lemma FinishPlaces(p: Pool, i: nat, q: Pool)
    requires SlowOk(p) && PlacesOk(p) && RequestsOk(p) && NextFinish(p, i, q)
    ensures PlacesOk(q) && RequestsOk(q)
  {
    var id := p.workers[i].id;
    assert At(p.requests, id, OnWorker(i));
    hide ListsWork, ListsWorkers, Lists;
    var r := q.requests[id];
    ListMoves(p.slowPending, p.requests, InSlowQueue, id, r);
    ListMoves(p.loopQueue, p.requests, InLoopQueue, id, r);
    ListMoves(p.draining, p.requests, InDrain, id, r);
    WorkMoves(p.wq, p.requests, id, r);
    WorkersMove(p.workers, p.requests, id, r, i, Posted(p.workers[i].slow));
  }

  lemma CancelPlaces(p: Pool, id: nat, q: Pool)
    requires SlowOk(p) && PlacesOk(p) && RequestsOk(p) && NextCancelCheck(p, id, q)
    ensures PlacesOk(q) && RequestsOk(q)
  {
    if q != p {
      assert Linked(p, id);
      assert OffWorker(p.requests, id) && !p.requests[id].place.InCancel? by { assert At(p.requests, id, p.requests[id].place); }
      hide ListsWork, ListsWorkers, Lists, Remove;
      var r := q.requests[id];
      ListMoves(p.slowPending, p.requests, InSlowQueue, id, r);
      ListMoves(p.loopQueue, p.requests, InLoopQueue, id, r);
      ListMoves(p.draining, p.requests, InDrain, id, r);
      WorkMoves(p.wq, p.requests, id, r);
      WorkersMove(p.workers, p.requests, id, r, 0, Woken);
    }
  }

  lemma CancelPostPlaces(p: Pool, q: Pool)
    requires SlowOk(p) && PlacesOk(p) && RequestsOk(p) && NextCancelPost(p, q)
    ensures PlacesOk(q) && RequestsOk(q)
  {
    var id := p.cancelling.value;
    assert At(p.requests, id, InCancel);
    hide ListsWork, ListsWorkers, Lists;
    var r := q.requests[id];
    ListMoves(p.slowPending, p.requests, InSlowQueue, id, r);
    ListMoves(p.loopQueue, p.requests, InLoopQueue, id, r);
    ListMoves(p.draining, p.requests, InDrain, id, r);
    WorkMoves(p.wq, p.requests, id, r);
    WorkersMove(p.workers, p.requests, id, r, 0, Woken);
  }

  lemma CallDonePlaces(p: Pool, q: Pool)
    requires SlowOk(p) && PlacesOk(p) && RequestsOk(p) && NextCallDone(p, q)
    ensures PlacesOk(q) && RequestsOk(q)
  {
    var id := p.draining[0];
    assert At(p.requests, id, InDrain) by { assert id in p.draining; }
    hide ListsWork, ListsWorkers, Lists;
    var r := q.requests[id];
    ListMoves(p.slowPending, p.requests, InSlowQueue, id, r);
    ListMoves(p.loopQueue, p.requests, InLoopQueue, id, r);
    ListMoves(p.draining, p.requests, InDrain, id, r);
    WorkMoves(p.wq, p.requests, id, r);
    WorkersMove(p.workers, p.requests, id, r, 0, Woken);
  }

  lemma DrainPlaces(p: Pool, q: Pool)
    requires PlacesOk(p) && RequestsOk(p) && NextDrain(p, q)
    ensures PlacesOk(q) && RequestsOk(q)
  {
    forall id ensures At(q.requests, id, InDrain) <==> id in p.loopQueue {
      assert At(p.requests, id, InDrain) <==> id in p.draining;
      assert At(p.requests, id, InLoopQueue) <==> id in p.loopQueue;
    }
    forall id, pl: Place | !pl.InDrain? && !pl.InLoopQueue? ensures At(q.requests, id, pl) <==> At(p.requests, id, pl) {
      assert At(p.requests, id, InLoopQueue) <==> id in p.loopQueue;
    }
    forall id ensures !At(q.requests, id, InLoopQueue) {
      assert At(p.requests, id, InLoopQueue) <==> id in p.loopQueue;
    }
    assert ListsWorkers(q.workers, q.requests);
  }

  /** A worker takes work: from the head of `wq` or of the slow queue. */
  lemma WorkPlaces(p: Pool, i: nat, id: nat, q: Pool)
    requires SlowOk(p) && PlacesOk(p) && RequestsOk(p) && i < |p.workers| && p.workers[i].Ready?
    requires p.wq != [] && p.wq[0] == Work(id) && id in p.requests
    requires q == p.(wq := p.wq[1..], workers := p.workers[i := Running(id, false)], requests := Start(p, id, i))
    ensures PlacesOk(q) && RequestsOk(q)
  {
    assert At(p.requests, id, InQueue) by { assert p.wq[0] in p.wq; }
    hide ListsWork, ListsWorkers, Lists;
    var r := q.requests[id];
    ListMoves(p.slowPending, p.requests, InSlowQueue, id, r);
    ListMoves(p.loopQueue, p.requests, InLoopQueue, id, r);
    ListMoves(p.draining, p.requests, InDrain, id, r);
    WorkMoves(p.wq, p.requests, id, r);
    WorkersMove(p.workers, p.requests, id, r, i, Running(id, false));
  }

  lemma SlowPlaces(p: Pool, i: nat, id: nat, wake: Option<nat>, q: Pool)
    requires SlowOk(p) && PlacesOk(p) && RequestsOk(p) && NextAdvance(p, i, wake, q)
    requires p.wq != [] && p.wq[0] == SlowMessage && p.slowRunning < Threshold(p)
    requires p.slowPending != [] && id == p.slowPending[0]
    ensures PlacesOk(q) && RequestsOk(q)
  {
    assert At(p.requests, id, InSlowQueue) by { assert id in p.slowPending; }
    hide ListsWork, ListsWorkers, Lists, WakeOk, Signal;
    var r := q.requests[id];
    ListMoves(p.slowPending, p.requests, InSlowQueue, id, r);
    ListMoves(p.loopQueue, p.requests, InLoopQueue, id, r);
    ListMoves(p.draining, p.requests, InDrain, id, r);
    WorkMoves(p.wq, p.requests, id, r);
    MessageMoves(p.wq, q.requests, SlowMessage);
    MessageMoves(p.wq[1..], q.requests, SlowMessage);
    var w := Running(id, true);
    WorkersMove(p.workers, p.requests, id, r, i, w);
    if q.workers != p.workers[i := w] { SignalPlaces(p.workers[i := w], q.requests, wake); }
  }

  lemma ExitPlaces(p: Pool, i: nat, wake: Option<nat>, q: Pool)
    requires PlacesOk(p) && RequestsOk(p) && i < |p.workers| && p.workers[i].Ready?
    requires WakeOk(p.workers, wake) && q == p.(workers := Signal(p.workers, wake)[i := Exited])
    ensures PlacesOk(q) && RequestsOk(q)
  {
    SignalPlaces(p.workers, p.requests, wake);
    hide ListsWork, ListsWorkers, Lists;
    WorkersMove(Signal(p.workers, wake), p.requests, 0, Request(Set, InQueue, 0, 0), i, Exited);
  }

  lemma AdvancePlaces(p: Pool, i: nat, wake: Option<nat>, q: Pool)
    requires SlowOk(p) && PlacesOk(p) && RequestsOk(p) && NextAdvance(p, i, wake, q)
    ensures PlacesOk(q) && RequestsOk(q)
  {
    hide ListsWork, ListsWorkers, ListsCancelling, Lists, WakeOk, Signal, RequestOk;
    if Blocked(p) {
      WorkersMove(p.workers, p.requests, 0, Request(Set, InQueue, 0, 0), i, Waiting);
    } else {
      match p.wq[0] {
        case ExitMessage => ExitPlaces(p, i, wake, q);
        case Work(id) => WorkPlaces(p, i, id, q);
        case SlowMessage =>
          if p.slowRunning < Threshold(p) && p.slowPending != [] {
            SlowPlaces(p, i, p.slowPending[0], wake, q);
          } else {
            MessageMoves(p.wq, p.requests, SlowMessage);
            MessageMoves(p.wq[1..], p.requests, SlowMessage);
          }
      }
    }
  }

  lemma CleanupPlaces(p: Pool, wake: Option<nat>, q: Pool)
    requires PlacesOk(p) && RequestsOk(p) && Next(p, Cleanup(wake), q)
    ensures PlacesOk(q) && RequestsOk(q)
  {
    MessageMoves(p.wq, p.requests, ExitMessage);
    if q.workers != p.workers { SignalPlaces(p.workers, p.requests, wake); }
  }

  lemma NextPlaces(p: Pool, a: Action, q: Pool)
    requires SlowOk(p) && PlacesOk(p) && RequestsOk(p) && Next(p, a, q)
    ensures PlacesOk(q) && RequestsOk(q)
  {
    hide ListsWork, ListsWorkers, ListsCancelling, Lists, WakeOk, Signal, RequestOk;
    match a {
      case Submit(id, slow, wake) => SubmitPlaces(p, id, slow, wake, q);
      case Advance(i, wake) => AdvancePlaces(p, i, wake, q);
      case Finish(i) => FinishPlaces(p, i, q);
      case CancelCheck(id) => CancelPlaces(p, id, q);
      case CancelPost => CancelPostPlaces(p, q);
      case Drain => DrainPlaces(p, q);
      case CallDone => CallDonePlaces(p, q);
      case Cleanup(wake) => CleanupPlaces(p, wake, q);
      case SpuriousWakeup(i) => WorkersMove(p.workers, p.requests, 0, Request(Set, InQueue, 0, 0), i, Woken);
      case Reacquire(i) => WorkersMove(p.workers, p.requests, 0, Request(Set, InQueue, 0, 0), i, Ready);
      case Rejoin(i) => WorkersMove(p.workers, p.requests, 0, Request(Set, InQueue, 0, 0), i, Ready);
    }
  }

  // ---------------------------------------------------------------- leaving

  /** A worker leaves only because of the exit message, which stays queued. */
  ghost predicate ExitOk(p: Pool) {
    (exists i :: 0 <= i < |p.workers| && p.workers[i].Exited?) ==> ExitMessage in p.wq
  }

  lemma NextExits(p: Pool, a: Action, q: Pool)
    requires ExitOk(p) && Next(p, a, q)
    ensures ExitOk(q)
  {
    hide Remove;
    ExitStays(p, a, q);
  }

  lemma ExitStays(p: Pool, a: Action, q: Pool)
    requires Next(p, a, q)
    ensures |q.workers| == |p.workers|
    ensures ExitMessage in p.wq ==> ExitMessage in q.wq
    ensures forall i :: 0 <= i < |p.workers| && q.workers[i].Exited? ==> p.workers[i].Exited? || ExitMessage in q.wq
  {
    if a.CancelCheck? {
      RemoveKeeps(p.wq, Work(a.id), ExitMessage);
    } else if p.wq != [] {
      assert p.wq == [p.wq[0]] + p.wq[1..];
    }
  }

  lemma RemoveKeeps<T>(s: seq<T>, x: T, y: T)
    ensures x != y && y in s ==> y in Remove(s, x)
  {
    if x in s && x != y && y in s {
      var i := IndexOf(s, x);
      var j :| 0 <= j < |s| && s[j] == y;
      assert Remove(s, x)[if j < i then j else j - 1] == y;
    }
  }
}
