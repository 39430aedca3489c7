/** Whole runs of the thread pool: safety in every reachable state, and progress. */
module ThreadPoolRuns {
  import opened Optional
  import opened ThreadPool
  import opened ThreadPoolProof

  ghost predicate PoolInv(p: Pool) {
    Inv(p) && ExitOk(p)
  }

  lemma InitInv(p: Pool)
    requires Init(p)
    ensures PoolInv(p)
  {
    CountSome(p.workers, IsIdle);
    CountSome(p.workers, IsSlow);
    CountSome(p.workers, IsWaiting);
  }

  lemma NextInv(p: Pool, a: Action, q: Pool)
    requires PoolInv(p) && Next(p, a, q)
    ensures PoolInv(q)
  {
    hide *;
    InvParts(p);
    NextCounts(p, a, q);
    NextPlaces(p, a, q);
    NextExits(p, a, q);
    InvIntro(q);
  }

  lemma InvParts(p: Pool)
    requires PoolInv(p)
    ensures CountersOk(p) && SlowOk(p) && WakeupsOk(p) && PlacesOk(p) && RequestsOk(p) && ExitOk(p)
  {
  }

  lemma InvIntro(p: Pool)
    requires CountersOk(p) && SlowOk(p) && WakeupsOk(p) && PlacesOk(p) && RequestsOk(p) && ExitOk(p)
    ensures PoolInv(p)
  {
  }

  /** A run visits `states`, taking `actions[k]` from `states[k]`. */
  ghost predicate IsRun(states: seq<Pool>, actions: seq<Action>) {
    |states| == |actions| + 1 && forall k :: 0 <= k < |actions| ==> Next(states[k], actions[k], states[k + 1])
  }

  lemma {:induction false} RunInv(states: seq<Pool>, actions: seq<Action>, k: nat)
    requires IsRun(states, actions) && Init(states[0]) && k < |states|
    ensures PoolInv(states[k])
  {
    hide PoolInv, Next, Init;
    if k == 0 {
      InitInv(states[0]);
    } else {
      RunInv(states, actions, k - 1);
      NextInv(states[k - 1], actions[k - 1], states[k]);
    }
  }

  // ---------------------------------------------------------------- safety

  /** `done` is called at most once; once it has been, the work ran exactly once and was not
      cancelled, or was cancelled and never ran. Work never runs twice. */
  ghost predicate Fair(r: Request) {
    && r.dones <= 1 && r.runs <= 1
    && (r.dones == 1 <==> r.place.Finished?)
    && (r.place.Finished? ==> (r.runs == 0 <==> r.place.cancelled))
  }

  /** In every state of every run. */
  lemma RunSafe(states: seq<Pool>, actions: seq<Action>, k: nat)
    requires IsRun(states, actions) && Init(states[0]) && k < |states|
    ensures forall id :: id in states[k].requests ==> Fair(states[k].requests[id])
    ensures Count(states[k].workers, IsSlow) <= (|states[k].workers| + 1) / 2
    ensures states[k].slowPending != [] ==> SlowMessage in states[k].wq
  {
    RunInv(states, actions, k);
  }

  /** A finished request is never touched again, a run or a call of `done` is never taken back, and
      each step runs or finishes a request at most one more time. */
  lemma History(p: Pool, a: Action, q: Pool, id: nat)
    requires PoolInv(p) && Next(p, a, q) && id in p.requests
    ensures id in q.requests
    ensures p.requests[id].place.Finished? ==> q.requests[id] == p.requests[id]
    ensures p.requests[id].runs <= q.requests[id].runs <= p.requests[id].runs + B(a.Advance?)
    ensures p.requests[id].dones <= q.requests[id].dones <= p.requests[id].dones + B(a.CallDone?)
  {
    hide CountersOk, SlowOk, WakeupsOk, ExitOk, Remove;
    if a.Drain? {
      assert id in p.loopQueue <==> At(p.requests, id, InLoopQueue);
    } else if a.CallDone? {
      assert p.draining[0] in p.draining;
    } else if a.Advance? {
      if p.wq != [] { assert p.wq[0] in p.wq; }
      if p.slowPending != [] { assert p.slowPending[0] in p.slowPending; }
    } else if a.Finish? {
      assert At(p.requests, p.workers[a.i].id, OnWorker(a.i));
    } else if a.CancelPost? {
      assert At(p.requests, p.cancelling.value, InCancel);
    }
  }

  // ---------------------------------------------------------------- progress

  /** The steps the pool and the loop take on their own. Not among them: new submissions, cancellation
      requests, `cleanup`, spurious wakeups and draining an empty queue. */
  ghost predicate Internal(p: Pool, a: Action) {
    a.Advance? || a.Reacquire? || a.Finish? || a.Rejoin? || a.CancelPost? || a.CallDone? || (a.Drain? && p.loopQueue != [])
  }

  function Weight(w: Worker): nat {
    match w
    case Exited => 0
    case Waiting => 3
    case Ready => 4
    case Woken => 5
    case Posted(_) => 5
    case Running(_, _) => 8
  }

  function Weights(ws: seq<Worker>): nat {
    if ws == [] then 0 else Weights(ws[..|ws| - 1]) + Weight(ws[|ws| - 1])
  }

  lemma {:induction false} WeightsUpdate(ws: seq<Worker>, i: nat, w: Worker)
    requires i < |ws|
    ensures Weights(ws[i := w]) == Weights(ws) - Weight(ws[i]) + Weight(w)
  {
    var n := |ws| - 1;
    if i == n {
      assert ws[i := w][..n] == ws[..n];
    } else {
      WeightsUpdate(ws[..n], i, w);
      assert ws[i := w][..n] == ws[..n][i := w];
    }
  }

  /** A bound on the internal steps still to come. */
  function Measure(p: Pool): nat {
    6 * |p.wq| + 8 * |p.slowPending| + Weights(p.workers) + (if p.cancelling.Some? then 3 else 0)
    + 2 * |p.loopQueue| + |p.draining| + if p.wq != [] && p.wq[0].SlowMessage? then 1 else 0
  }

  lemma SignalWeights(ws: seq<Worker>, wake: Option<nat>)
    requires WakeOk(ws, wake)
    ensures Weights(ws) <= Weights(Signal(ws, wake)) <= Weights(ws) + 2
  {
    if wake.Some? { WeightsUpdate(ws, wake.value, Woken); }
  }

  lemma AdvanceMeasure(p: Pool, i: nat, wake: Option<nat>, q: Pool)
    requires SlowOk(p) && NextAdvance(p, i, wake, q)
    ensures Measure(q) < Measure(p)
  {
    hide Weights;
    var ws := p.workers;
    if Blocked(p) {
      WeightsUpdate(ws, i, Waiting);
    } else {
      match p.wq[0] {
        case ExitMessage =>
          SignalWeights(ws, wake);
          WeightsUpdate(Signal(ws, wake), i, Exited);
        case Work(id) => WeightsUpdate(ws, i, Running(id, false));
        case SlowMessage =>
          if p.slowRunning < Threshold(p) && p.slowPending != [] {
            var w := Running(p.slowPending[0], true);
            WeightsUpdate(ws, i, w);
            if q.workers != ws[i := w] { SignalWeights(ws[i := w], wake); }
          }
      }
    }
  }

  /** Every internal step makes progress. */
  lemma InternalDecreases(p: Pool, a: Action, q: Pool)
    requires SlowOk(p) && Next(p, a, q) && Internal(p, a)
    ensures Measure(q) < Measure(p)
  {
    hide Weights, SlowOk, NextAdvance;
    match a {
      case Advance(i, wake) => AdvanceMeasure(p, i, wake, q);
      case Reacquire(i) => WeightsUpdate(p.workers, i, Ready);
      case Finish(i) => WeightsUpdate(p.workers, i, Posted(p.workers[i].slow));
      case Rejoin(i) => WeightsUpdate(p.workers, i, Ready);
      case _ =>
    }
  }

  /** Nothing left to do on its own. */
  ghost predicate Stuck(p: Pool) {
    forall a, q :: Internal(p, a) ==> !Next(p, a, q)
  }

  lemma SomeWake(ws: seq<Worker>) returns (wake: Option<nat>)
    ensures WakeOk(ws, wake)
  {
    if j: nat :| j < |ws| && ws[j].Waiting? {
      wake := Some(j);
    } else {
      wake := None;
    }
  }

  lemma SomeEnqueue(p: Pool, x: Item) returns (wake: Option<nat>, q: Pool)
    ensures Enqueued(p, x, wake, q) && q == p.(wq := q.wq, workers := q.workers)
  {
    wake := SomeWake(p.workers);
    q := p.(wq := p.wq + [x], workers := if p.idle > 0 then Signal(p.workers, wake) else p.workers);
  }

  lemma CanAdvance(p: Pool, i: nat) returns (wake: Option<nat>, q: Pool)
    requires PlacesOk(p) && i < |p.workers| && p.workers[i].Ready?
    ensures NextAdvance(p, i, wake, q)
  {
    wake := None;
    if Blocked(p) {
      q := p.(workers := p.workers[i := Waiting], idle := p.idle + 1);
    } else {
      assert p.wq[0] in p.wq;
      match p.wq[0] {
        case ExitMessage =>
          wake := SomeWake(p.workers);
          q := p.(workers := Signal(p.workers, wake)[i := Exited]);
        case Work(id) =>
          assert At(p.requests, id, InQueue);
          q := p.(wq := p.wq[1..], workers := p.workers[i := Running(id, false)], requests := Start(p, id, i));
        case SlowMessage =>
          if p.slowRunning >= Threshold(p) {
            q := p.(wq := p.wq[1..] + [SlowMessage]);
          } else if p.slowPending == [] {
            q := p.(wq := p.wq[1..]);
          } else {
            wake, q := CanStartSlow(p, i);
          }
      }
    }
  }

  lemma CanStartSlow(p: Pool, i: nat) returns (wake: Option<nat>, q: Pool)
    requires PlacesOk(p) && i < |p.workers| && p.workers[i].Ready? && !Blocked(p)
    requires p.wq != [] && p.wq[0] == SlowMessage && p.slowRunning < Threshold(p) && p.slowPending != []
    ensures NextAdvance(p, i, wake, q)
  {
    var id := p.slowPending[0];
    assert id in p.slowPending && At(p.requests, id, InSlowQueue);
    var started := p.(wq := p.wq[1..], slowRunning := p.slowRunning + 1, slowPending := p.slowPending[1..],
                      workers := p.workers[i := Running(id, true)]);
    if p.slowPending[1..] == [] {
      wake, q := None, started.(requests := Start(p, id, i));
    } else {
      wake, q := SomeEnqueue(started, SlowMessage);
      q := q.(requests := Start(p, id, i));
    }
  }

  /** A worker that is neither waiting nor gone can take a step. */
  lemma WorkerCanStep(p: Pool, i: nat)
    requires PoolInv(p) && i < |p.workers| && !p.workers[i].Waiting? && !p.workers[i].Exited?
    ensures !Stuck(p)
  {
    var w := p.workers[i];
    match w {
      case Ready =>
        var wake, q := CanAdvance(p, i);
        assert Internal(p, Advance(i, wake)) && Next(p, Advance(i, wake), q);
      case Woken =>
        CountSome(p.workers, IsIdle);
        assert IsIdle(w);
        assert Internal(p, Reacquire(i)) && Next(p, Reacquire(i), p.(workers := p.workers[i := Ready], idle := p.idle - 1));
      case Running(id, slow) =>
        assert At(p.requests, id, OnWorker(i));
        var r := p.requests[id].(pointer := Cleared, place := InLoopQueue);
        assert Internal(p, Finish(i)) && Next(p, Finish(i),
          p.(workers := p.workers[i := Posted(slow)], loopQueue := p.loopQueue + [id], requests := p.requests[id := r]));
      case Posted(slow) =>
        CountSome(p.workers, IsSlow);
        assert slow ==> IsSlow(w);
        assert Internal(p, Rejoin(i)) && Next(p, Rejoin(i),
          p.(workers := p.workers[i := Ready], slowRunning := if slow then p.slowRunning - 1 else p.slowRunning));
    }
  }

  lemma LoopCanStep(p: Pool)
    requires PoolInv(p)
    ensures p.cancelling.Some? || p.loopQueue != [] || p.draining != [] ==> !Stuck(p)
  {
    hide CountersOk, SlowOk, WakeupsOk, RequestsOk, ExitOk;
    if p.cancelling.Some? {
      var id := p.cancelling.value;
      assert At(p.requests, id, InCancel);
      var r := p.requests[id].(pointer := Cancelled, place := InLoopQueue);
      assert Internal(p, CancelPost) && Next(p, CancelPost,
        p.(cancelling := None, loopQueue := p.loopQueue + [id], requests := p.requests[id := r]));
    } else if p.draining != [] {
      var id := p.draining[0];
      assert id in p.draining && At(p.requests, id, InDrain);
      var r := p.requests[id];
      assert Internal(p, CallDone) && Next(p, CallDone, p.(draining := p.draining[1..],
        requests := p.requests[id := r.(place := Finished(r.pointer.Cancelled?), dones := r.dones + 1)]));
    } else if p.loopQueue != [] {
      assert Internal(p, Drain) && Next(p, Drain, p.(draining := p.loopQueue, loopQueue := [],
        requests := map id | id in p.requests :: if id in p.loopQueue then p.requests[id].(place := InDrain) else p.requests[id]));
    }
  }

  /** No deadlock and no lost wakeup: when nothing can happen any more, either an exit message was
      queued and every worker has left, or nothing is queued and every worker waits. */
  lemma StuckIsQuiet(p: Pool)
    requires PoolInv(p) && Stuck(p)
    ensures if ExitMessage in p.wq then forall i :: 0 <= i < |p.workers| ==> p.workers[i].Exited?
            else p.wq == [] && p.slowPending == [] && forall i :: 0 <= i < |p.workers| ==> p.workers[i].Waiting?
  {
    forall i: nat | i < |p.workers| ensures p.workers[i].Waiting? || p.workers[i].Exited? {
      if !p.workers[i].Waiting? && !p.workers[i].Exited? { WorkerCanStep(p, i); }
    }
    hide Stuck, PlacesOk, RequestsOk, Count, Jobs;
    CountSome(p.workers, IsComing);
    CountSome(p.workers, IsWaiting);
    CountSome(p.workers, IsSlow);
    if ExitMessage in p.wq {
      var k :| 0 <= k < |p.wq| && p.wq[k] == ExitMessage;
      JobsSome(p.wq, k);
      assert Runnable(p) > 0;
    } else {
      assert IsWaiting(p.workers[0]);
      BlockedIffNothingRunnable(p);
      assert p.slowRunning == 0;
    }
  }

  /** Every maximal run of internal steps, from any reachable state, is finite, and unless the pool was
      told to exit it ends with `done` called exactly once for every request submitted so far. */
  lemma {:induction false} EveryRequestFinishes(states: seq<Pool>, actions: seq<Action>)
    requires IsRun(states, actions) && PoolInv(states[0])
    requires forall k :: 0 <= k < |actions| ==> Internal(states[k], actions[k])
    ensures |actions| <= Measure(states[0])
    ensures var p := states[|actions|];
            Stuck(p) && ExitMessage !in p.wq ==>
              forall id :: id in p.requests ==> p.requests[id].place.Finished? && p.requests[id].dones == 1
  {
    hide PoolInv, Next, Internal, Stuck, Measure;
    if actions == [] {
      AllFinished(states[0]);
    } else {
      NextInv(states[0], actions[0], states[1]);
      InvParts(states[0]);
      InternalDecreases(states[0], actions[0], states[1]);
      EveryRequestFinishes(states[1..], actions[1..]);
    }
  }

  lemma AllFinished(p: Pool)
    requires PoolInv(p)
    ensures Stuck(p) && ExitMessage !in p.wq ==>
              forall id :: id in p.requests ==> p.requests[id].place.Finished? && p.requests[id].dones == 1
  {
    hide CountersOk, SlowOk, WakeupsOk, ExitOk, Stuck;
    if Stuck(p) && ExitMessage !in p.wq {
      StuckIsQuiet(p);
      LoopCanStep(p);
      forall id | id in p.requests ensures p.requests[id].place.Finished? && p.requests[id].dones == 1 {
        assert At(p.requests, id, p.requests[id].place);
      }
    }
  }

  /** In every reachable state in which some queued entry could be acted upon and some worker sleeps,
      a worker that will look at the queue is already awake. */
  lemma NoLostWakeup(states: seq<Pool>, actions: seq<Action>, k: nat)
    requires IsRun(states, actions) && Init(states[0]) && k < |states|
    ensures var p := states[k];
            !Blocked(p) && (exists i :: 0 <= i < |p.workers| && p.workers[i].Waiting?) ==>
              exists j :: 0 <= j < |p.workers| && (p.workers[j].Ready? || p.workers[j].Woken?)
  {
    var p := states[k];
    RunInv(states, actions, k);
    hide Count, Jobs, PlacesOk, RequestsOk, ExitOk, Blocked, Runnable;
    CountSome(p.workers, IsWaiting);
    CountSome(p.workers, IsComing);
    BlockedIffNothingRunnable(p);
    if exists i :: 0 <= i < |p.workers| && p.workers[i].Waiting? {
      var i :| 0 <= i < |p.workers| && p.workers[i].Waiting?;
      assert IsWaiting(p.workers[i]);
    }
  }
}
