/** The pool's shared variables, updated in place: each method is one critical section, or the stretch
    of code between two, and takes exactly the matching protocol step. */
module Threads {
  import opened Optional
  import opened ThreadPool

  lemma LinkedUnlessRunning(p: Pool, id: nat)
    requires PlacesOk(p) && p.cancelling.None? && id in p.requests && !p.requests[id].place.Finished?
    ensures Linked(p, id) <==> !p.requests[id].place.OnWorker?
  {
    assert At(p.requests, id, p.requests[id].place);
  }

  lemma HeadsKnown(p: Pool)
    requires PlacesOk(p)
    ensures p.wq != [] && p.wq[0].Work? ==> p.wq[0].id in p.requests
    ensures p.slowPending != [] ==> p.slowPending[0] in p.requests
  {
    if p.wq != [] && p.wq[0].Work? { assert p.wq[0] in p.wq && At(p.requests, p.wq[0].id, InQueue); }
    if p.slowPending != [] { assert p.slowPending[0] in p.slowPending && At(p.requests, p.slowPending[0], InSlowQueue); }
  }

  class ThreadGroup {
    var workers: seq<Worker>
    var wq: seq<Item>
    var slowPending: seq<nat>
    var idleThreads: nat
    var slowRunning: nat
    var loopQueue: seq<nat>
    var draining: seq<nat>
    var cancelling: Option<nat>
    var requests: map<nat, Request>

    ghost function State(): (p: Pool)
      reads this
    {
      Pool(workers, wq, slowPending, idleThreads, slowRunning, loopQueue, draining, cancelling, requests)
    }

    constructor (nthreads: nat)
      requires nthreads > 0
      ensures Init(State()) && |workers| == nthreads
    {
      workers := seq(nthreads, i => Ready);
      wq, slowPending, loopQueue, draining := [], [], [], [];
      idleThreads, slowRunning := 0, 0;
      cancelling := None;
      requests := map[];
    }

    /** `uv_cond_signal`. */
    method CondSignal() returns (wake: Option<nat>)
      modifies this`workers
      ensures WakeOk(old(workers), wake) && workers == Signal(old(workers), wake)
    {
      var j := 0;
      while j < |workers| && !workers[j].Waiting?
        invariant 0 <= j <= |workers| && workers == old(workers)
        invariant forall k :: 0 <= k < j ==> !workers[k].Waiting?
      {
        j := j + 1;
      }
      if j == |workers| {
        wake := None;
      } else {
        wake := Some(j);
        workers := workers[j := Woken];
      }
    }

    /** `QUEUE_INSERT_TAIL` into `wq`, and a signal if a thread is idle. */
    method Insert(x: Item) returns (wake: Option<nat>)
      modifies this`workers, this`wq
      ensures Enqueued(old(State()), x, wake, State())
    {
      wq := wq + [x];
      wake := None;
      if idleThreads > 0 {
        wake := CondSignal();
      }
    }

    /** `uv__work_submit`, `post`. */
    method Post(id: nat, slow: bool) returns (wake: Option<nat>)
      requires id !in requests
      modifies this
      ensures Next(old(State()), Submit(id, slow, wake), State())
    {
      requests := requests[id := Request(Set, if slow then InSlowQueue else InQueue, 0, 0)];
      wake := None;
      if slow {
        slowPending := slowPending + [id];
        if SlowMessage in wq {
          return;
        }
      }
      wake := Insert(if slow then SlowMessage else Work(id));
    }

    /** The worker loop with the mutex held, up to waiting, leaving, starting work or starting over. */
    method WorkerTop(i: nat) returns (wake: Option<nat>)
      requires i < |workers| && workers[i].Ready? && PlacesOk(State())
      modifies this
      ensures Next(old(State()), Advance(i, wake), State())
    {
      HeadsKnown(State());
      hide PlacesOk;
      wake := None;
      if wq == [] || (wq[0] == SlowMessage && |wq| == 1 && slowRunning >= (|workers| + 1) / 2) {
        idleThreads := idleThreads + 1;
        workers := workers[i := Waiting];
        return;
      }
      var head := wq[0];
      if head == ExitMessage {
        wake := CondSignal();
        workers := workers[i := Exited];
        return;
      }
      if head == SlowMessage {
        wake := TakeSlow(i);
        return;
      }
      wq := wq[1..];
      Execute(i, head.id, false);
    }

    /** The slow message was at the head: put it back at the threshold, drop it if the slow work was
        cancelled, and otherwise start the first slow work and schedule the rest. */
    method TakeSlow(i: nat) returns (wake: Option<nat>)
      requires i < |workers| && workers[i].Ready? && wq != [] && wq[0] == SlowMessage && !Blocked(State())
      requires slowPending != [] ==> slowPending[0] in requests
      modifies this
      ensures NextAdvance(old(State()), i, wake, State())
    {
      wake := None;
      wq := wq[1..];
      if slowRunning >= (|workers| + 1) / 2 {
        wq := wq + [SlowMessage];
      } else if slowPending != [] {
        slowRunning := slowRunning + 1;
        var id := slowPending[0];
        slowPending := slowPending[1..];
        Execute(i, id, true);
        if slowPending != [] {
          wake := Insert(SlowMessage);
        }
      }
    }

    method Execute(i: nat, id: nat, slow: bool)
      requires i < |workers| && id in requests
      modifies this`workers, this`requests
      ensures workers == old(workers)[i := Running(id, slow)] && requests == Start(old(State()), id, i)
    {
      workers := workers[i := Running(id, slow)];
      var r := requests[id];
      requests := requests[id := r.(place := OnWorker(i), runs := r.runs + 1)];
    }

    /** The critical section of the loop queue after the work has run. */
    method WorkerFinish(i: nat)
      requires i < |workers| && workers[i].Running? && PlacesOk(State())
      modifies this
      ensures Next(old(State()), Finish(i), State())
    {
      var id := workers[i].id;
      assert At(requests, id, OnWorker(i));
      requests := requests[id := requests[id].(pointer := Cleared, place := InLoopQueue)];
      loopQueue := loopQueue + [id];
      workers := workers[i := Posted(workers[i].slow)];
    }

    /** Back under the global mutex. */
    method WorkerRejoin(i: nat)
      requires i < |workers| && workers[i].Posted? && CountersOk(State())
      modifies this
      ensures Next(old(State()), Rejoin(i), State())
    {
      CountSome(workers, IsSlow);
      assert workers[i].slow ==> IsSlow(workers[i]);
      if workers[i].slow {
        slowRunning := slowRunning - 1;
      }
      workers := workers[i := Ready];
    }

    /** The first half of `uv__work_cancel`: false is UV_EBUSY, and then nothing has changed. */
    method TryCancel(id: nat) returns (cancelled: bool)
      requires cancelling.None? && id in requests && !requests[id].place.Finished? && PlacesOk(State())
      modifies this
      ensures Next(old(State()), CancelCheck(id), State())
      ensures cancelled <==> old(!requests[id].place.OnWorker? && !requests[id].pointer.Cleared?)
      ensures !cancelled ==> State() == old(State())
    {
      LinkedUnlessRunning(State(), id);
      hide PlacesOk, Remove, IndexOf;
      var linked := Work(id) in wq || id in slowPending || id in loopQueue || id in draining;
      cancelled := linked && !requests[id].pointer.Cleared?;
      if cancelled {
        Unlink(id);
        cancelling := Some(id);
        requests := requests[id := requests[id].(place := InCancel)];
      }
    }

    /** `QUEUE_REMOVE`, from whichever queue the request is linked into. */
    method Unlink(id: nat)
      modifies this`wq, this`slowPending, this`loopQueue, this`draining
      ensures wq == Remove(old(wq), Work(id)) && slowPending == Remove(old(slowPending), id)
      ensures loopQueue == Remove(old(loopQueue), id) && draining == Remove(old(draining), id)
    {
      wq := Remove(wq, Work(id));
      slowPending, loopQueue, draining := Remove(slowPending, id), Remove(loopQueue, id), Remove(draining, id);
    }

    /** The second half, under the loop's mutex. */
    method PostCancelled()
      requires cancelling.Some? && PlacesOk(State())
      modifies this
      ensures Next(old(State()), CancelPost, State())
    {
      var id := cancelling.value;
      assert At(requests, id, InCancel);
      requests := requests[id := requests[id].(pointer := Cancelled, place := InLoopQueue)];
      loopQueue := loopQueue + [id];
      cancelling := None;
    }

    /** `QUEUE_MOVE` at the head of `uv__work_done`. */
    method MoveLoopQueue()
      requires cancelling.None? && draining == []
      modifies this
      ensures Next(old(State()), Drain, State())
    {
      draining := loopQueue;
      requests := map id | id in requests :: if id in loopQueue then requests[id].(place := InDrain) else requests[id];
      loopQueue := [];
    }

    /** One turn of the loop of `uv__work_done`: the status passed to `done` is UV_ECANCELED or 0. */
    method CallNextDone() returns (id: nat, cancelled: bool)
      requires cancelling.None? && draining != [] && PlacesOk(State()) && RequestsOk(State())
      modifies this
      ensures Next(old(State()), CallDone, State())
      ensures id == old(draining[0]) && id in requests && requests[id].dones == 1
      ensures cancelled <==> requests[id].runs == 0
    {
      id := draining[0];
      assert id in draining && At(requests, id, InDrain);
      draining := draining[1..];
      var r := requests[id];
      cancelled := r.pointer.Cancelled?;
      requests := requests[id := r.(place := Finished(cancelled), dones := r.dones + 1)];
    }
  }
}
