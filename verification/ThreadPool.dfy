/** The libuv thread pool as a protocol: every step is one critical section of a worker, of a thread
    that submits work, or of the event loop thread. */
module ThreadPool {
  import opened Optional

  /** What can stand in the work queue `wq`. */
  datatype Item = Work(id: nat) | SlowMessage | ExitMessage

  /** A worker at the head of its loop, in `uv_cond_wait`, signalled but not yet holding the mutex,
      executing work without the mutex, past the loop queue but not yet back, or gone. */
  datatype Worker = Ready | Waiting | Woken | Running(id: nat, slow: bool) | Posted(slow: bool) | Exited

  /** The `work` pointer of a request: set, cleared after execution, or `uv__cancelled`. */
  datatype Pointer = Set | Cleared | Cancelled

  /** Where a request is. This is a history variable: the invariant ties it to the queues. */
  datatype Place = InQueue | InSlowQueue | OnWorker(i: nat) | InCancel | InLoopQueue | InDrain | Finished(cancelled: bool)

  /** Pointer, place and how often `work` and `done` have been called for one request. */
  datatype Request = Request(pointer: Pointer, place: Place, runs: nat, dones: nat)

  datatype Pool = Pool(
    workers: seq<Worker>,
    wq: seq<Item>,
    slowPending: seq<nat>,
    idle: nat,
    slowRunning: nat,
    loopQueue: seq<nat>,
    draining: seq<nat>,
    cancelling: Option<nat>,
    requests: map<nat, Request>)

  function Threshold(p: Pool): nat {
    (|p.workers| + 1) / 2
  }

  // ---------------------------------------------------------------- counting

  function Count(ws: seq<Worker>, f: Worker -> bool): nat {
    if ws == [] then 0 else Count(ws[..|ws| - 1], f) + if f(ws[|ws| - 1]) then 1 else 0
  }

  lemma {:induction false} CountUpdate(ws: seq<Worker>, f: Worker -> bool, i: nat, w: Worker)
    requires i < |ws|
    ensures Count(ws[i := w], f) + (if f(ws[i]) then 1 else 0) == Count(ws, f) + if f(w) then 1 else 0
  {
    var n := |ws| - 1;
    if i == n {
      assert ws[i := w][..n] == ws[..n];
    } else {
      CountUpdate(ws[..n], f, i, w);
      assert ws[i := w][..n] == ws[..n][i := w];
    }
  }

  lemma {:induction false} CountSome(ws: seq<Worker>, f: Worker -> bool)
    ensures Count(ws, f) > 0 <==> exists i :: 0 <= i < |ws| && f(ws[i])
  {
    if ws != [] {
      var n := |ws| - 1;
      CountSome(ws[..n], f);
      if exists i :: 0 <= i < |ws| && f(ws[i]) {
        var i :| 0 <= i < |ws| && f(ws[i]);
        assert i < n ==> f(ws[..n][i]);
      }
      if Count(ws[..n], f) > 0 {
        var i :| 0 <= i < n && f(ws[..n][i]);
        assert f(ws[i]);
      } else if f(ws[n]) {
        assert f(ws[n]);
      }
    }
  }

  function IsWaiting(w: Worker): bool { w.Waiting? }
  function IsIdle(w: Worker): bool { w.Waiting? || w.Woken? }
  /** On its way to the queue: it will look at `wq` before it can wait. */
  function IsComing(w: Worker): bool { w.Woken? || w.Ready? }
  function IsSlow(w: Worker): bool { (w.Running? || w.Posted?) && w.slow }

  /** Queue entries other than the slow message. */
  function Jobs(wq: seq<Item>): nat {
    if wq == [] then 0 else Jobs(wq[..|wq| - 1]) + if wq[|wq| - 1].SlowMessage? then 0 else 1
  }

  lemma JobsAppend(wq: seq<Item>, x: Item)
    ensures Jobs(wq + [x]) == Jobs(wq) + if x.SlowMessage? then 0 else 1
  {
    assert (wq + [x])[..|wq|] == wq;
  }

  lemma {:induction false} JobsRemove(wq: seq<Item>, i: nat)
    requires i < |wq|
    ensures Jobs(wq[..i] + wq[i + 1..]) + (if wq[i].SlowMessage? then 0 else 1) == Jobs(wq)
  {
    var n := |wq| - 1;
    if i == n {
      assert wq[..i] + wq[i + 1..] == wq[..n];
    } else {
      JobsRemove(wq[..n], i);
      var r := wq[..i] + wq[i + 1..];
      assert r[..n - 1] == wq[..n][..i] + wq[..n][i + 1..];
    }
  }

  lemma {:induction false} JobsSome(wq: seq<Item>, i: nat)
    requires i < |wq| && !wq[i].SlowMessage?
    ensures Jobs(wq) > 0
  {
    JobsRemove(wq, i);
  }

  /** How many queue entries a worker could act upon. */
  function Runnable(p: Pool): nat {
    Jobs(p.wq) + if SlowMessage in p.wq && p.slowRunning < Threshold(p) then 1 else 0
  }

  // ---------------------------------------------------------------- steps

  datatype Action =
    | Submit(id: nat, slow: bool, wake: Option<nat>)
    | Advance(i: nat, wake: Option<nat>)
    | SpuriousWakeup(i: nat)
    | Reacquire(i: nat)
    | Finish(i: nat)
    | Rejoin(i: nat)
    | CancelCheck(id: nat)
    | CancelPost
    | Drain
    | CallDone
    | Cleanup(wake: Option<nat>)

  /** `uv_cond_signal` wakes some waiting worker if there is one. */
  ghost predicate WakeOk(ws: seq<Worker>, wake: Option<nat>) {
    match wake
    case Some(j) => j < |ws| && ws[j].Waiting?
    case None => forall j :: 0 <= j < |ws| ==> !ws[j].Waiting?
  }

  function Signal(ws: seq<Worker>, wake: Option<nat>): seq<Worker> {
    if wake.Some? && wake.value < |ws| then ws[wake.value := Woken] else ws
  }

  /** Appending to `wq` and signalling if a thread is idle. */
  ghost predicate Enqueued(p: Pool, x: Item, wake: Option<nat>, q: Pool) {
    && q.wq == p.wq + [x]
    && if p.idle > 0 then WakeOk(p.workers, wake) && q.workers == Signal(p.workers, wake) else q.workers == p.workers
  }

  ghost predicate NextSubmit(p: Pool, id: nat, slow: bool, wake: Option<nat>, q: Pool) {
    && id !in p.requests
    && (if !slow then Enqueued(p, Work(id), wake, q)
        else if SlowMessage in p.wq then q.wq == p.wq && q.workers == p.workers
        else Enqueued(p, SlowMessage, wake, q))
    && q == p.(wq := q.wq, workers := q.workers,
               slowPending := if slow then p.slowPending + [id] else p.slowPending,
               requests := p.requests[id := Request(Set, if slow then InSlowQueue else InQueue, 0, 0)])
  }

  predicate Blocked(p: Pool) {
    p.wq == [] || (p.wq == [SlowMessage] && p.slowRunning >= Threshold(p))
  }

  /** The request starts to execute on worker `i`. */
  function Start(p: Pool, id: nat, i: nat): map<nat, Request>
    requires id in p.requests
  {
    var r := p.requests[id];
    p.requests[id := r.(place := OnWorker(i), runs := r.runs + 1)]
  }

  /** A worker that holds the mutex at the head of its loop. */
  ghost predicate NextAdvance(p: Pool, i: nat, wake: Option<nat>, q: Pool) {
    && i < |p.workers| && p.workers[i].Ready?
    && if Blocked(p) then
         q == p.(workers := p.workers[i := Waiting], idle := p.idle + 1)
       else if p.wq == [] then false
       else
         var rest := p.wq[1..];
         match p.wq[0]
         case ExitMessage =>
           WakeOk(p.workers, wake) && q == p.(workers := Signal(p.workers, wake)[i := Exited])
         case Work(id) =>
           && id in p.requests
           && q == p.(wq := rest, workers := p.workers[i := Running(id, false)], requests := Start(p, id, i))
         case SlowMessage =>
           if p.slowRunning >= Threshold(p) then q == p.(wq := rest + [SlowMessage])
           else if p.slowPending == [] then q == p.(wq := rest)
           else
             var id := p.slowPending[0];
             var left := p.slowPending[1..];
             var started := p.(wq := rest, slowRunning := p.slowRunning + 1, slowPending := left,
                               workers := p.workers[i := Running(id, true)]);
             && id in p.requests
             && (if left == [] then q.wq == rest && q.workers == started.workers
                 else Enqueued(started, SlowMessage, wake, q))
             && q == started.(wq := q.wq, workers := q.workers, requests := Start(p, id, i))
  }

  ghost predicate NextFinish(p: Pool, i: nat, q: Pool) {
    && i < |p.workers| && p.workers[i].Running? && p.workers[i].id in p.requests
    && var id := p.workers[i].id;
       q == p.(workers := p.workers[i := Posted(p.workers[i].slow)], loopQueue := p.loopQueue + [id],
               requests := p.requests[id := p.requests[id].(pointer := Cleared, place := InLoopQueue)])
  }

  ghost predicate NextRejoin(p: Pool, i: nat, q: Pool) {
    && i < |p.workers| && p.workers[i].Posted?
    && (p.workers[i].slow ==> p.slowRunning > 0)
    && q == p.(workers := p.workers[i := Ready],
               slowRunning := if p.workers[i].slow then p.slowRunning - 1 else p.slowRunning)
  }

  function IndexOf<T(==)>(s: seq<T>, x: T): (i: nat)
    requires x in s
    ensures i < |s| && s[i] == x
  {
    if s[0] == x then 0 else 1 + IndexOf(s[1..], x)
  }

  /** `QUEUE_REMOVE`: unlinks the element if it is there. */
  function Remove<T(==)>(s: seq<T>, x: T): seq<T> {
    if x in s then s[..IndexOf(s, x)] + s[IndexOf(s, x) + 1..] else s
  }

  /** Linked into some queue: `!QUEUE_EMPTY(&w->wq)`. */
  predicate Linked(p: Pool, id: nat) {
    Work(id) in p.wq || id in p.slowPending || id in p.loopQueue || id in p.draining
  }

  /** The first critical section of `uv__work_cancel`, on a request whose `done` has not been called. */
  ghost predicate NextCancelCheck(p: Pool, id: nat, q: Pool) {
    && p.cancelling.None? && id in p.requests && !p.requests[id].place.Finished?
    && if Linked(p, id) && !p.requests[id].pointer.Cleared? then
         q == p.(wq := Remove(p.wq, Work(id)), slowPending := Remove(p.slowPending, id),
                 loopQueue := Remove(p.loopQueue, id), draining := Remove(p.draining, id),
                 cancelling := Some(id), requests := p.requests[id := p.requests[id].(place := InCancel)])
       else q == p
  }

  ghost predicate NextCancelPost(p: Pool, q: Pool) {
    && p.cancelling.Some? && p.cancelling.value in p.requests
    && var id := p.cancelling.value;
       q == p.(cancelling := None, loopQueue := p.loopQueue + [id],
               requests := p.requests[id := p.requests[id].(pointer := Cancelled, place := InLoopQueue)])
  }

  ghost predicate NextDrain(p: Pool, q: Pool) {
    && p.cancelling.None? && p.draining == []
    && q == p.(draining := p.loopQueue, loopQueue := [],
               requests := map id | id in p.requests :: if id in p.loopQueue then p.requests[id].(place := InDrain) else p.requests[id])
  }

  ghost predicate NextCallDone(p: Pool, q: Pool) {
    && p.cancelling.None? && p.draining != [] && p.draining[0] in p.requests
    && var id := p.draining[0];
       var r := p.requests[id];
       q == p.(draining := p.draining[1..],
               requests := p.requests[id := r.(place := Finished(r.pointer.Cancelled?), dones := r.dones + 1)])
  }

  ghost predicate Next(p: Pool, a: Action, q: Pool) {
    match a
    case Submit(id, slow, wake) => NextSubmit(p, id, slow, wake, q)
    case Advance(i, wake) => NextAdvance(p, i, wake, q)
    case SpuriousWakeup(i) => i < |p.workers| && p.workers[i].Waiting? && q == p.(workers := p.workers[i := Woken])
    case Reacquire(i) =>
      i < |p.workers| && p.workers[i].Woken? && p.idle > 0 && q == p.(workers := p.workers[i := Ready], idle := p.idle - 1)
    case Finish(i) => NextFinish(p, i, q)
    case Rejoin(i) => NextRejoin(p, i, q)
    case CancelCheck(id) => NextCancelCheck(p, id, q)
    case CancelPost => NextCancelPost(p, q)
    case Drain => NextDrain(p, q)
    case CallDone => NextCallDone(p, q)
    case Cleanup(wake) => Enqueued(p, ExitMessage, wake, q) && q == p.(wq := q.wq, workers := q.workers)
  }

  ghost predicate Init(p: Pool) {
    && |p.workers| > 0 && (forall i :: 0 <= i < |p.workers| ==> p.workers[i].Ready?)
    && p == Pool(p.workers, [], [], 0, 0, [], [], None, map[])
  }

  // ---------------------------------------------------------------- the invariant

  ghost predicate NoDups<T>(s: seq<T>) {
    forall i, j :: 0 <= i < j < |s| ==> s[i] != s[j]
  }

  /** Counters agree with the threads they count, and the slow lane is not exceeded. */
  ghost predicate CountersOk(p: Pool) {
    && |p.workers| > 0
    && p.idle == Count(p.workers, IsIdle)
    && p.slowRunning == Count(p.workers, IsSlow) && p.slowRunning <= Threshold(p)
  }

  /** At most one slow message is queued, and one is whenever slow work is pending. */
  ghost predicate SlowOk(p: Pool) {
    && (forall i, j :: 0 <= i < j < |p.wq| && p.wq[i].SlowMessage? ==> !p.wq[j].SlowMessage?)
    && (p.slowPending != [] ==> SlowMessage in p.wq)
  }

  /** No wakeup is lost: while some worker sleeps, at least as many workers are on their way to the
      queue as there are entries to act upon. */
  ghost predicate WakeupsOk(p: Pool) {
    Count(p.workers, IsWaiting) > 0 ==> Count(p.workers, IsComing) >= Runnable(p)
  }

  predicate At(rs: map<nat, Request>, id: nat, place: Place) {
    id in rs && rs[id].place == place
  }

  /** The queue holds exactly the requests of that place, each once. */
  ghost predicate Lists(s: seq<nat>, rs: map<nat, Request>, place: Place) {
    NoDups(s) && forall id :: id in s <==> At(rs, id, place)
  }

  /** The same for the work entries of `wq`. */
  ghost predicate ListsWork(wq: seq<Item>, rs: map<nat, Request>) {
    && (forall i, j :: 0 <= i < j < |wq| && wq[i].Work? ==> wq[i] != wq[j])
    && forall id :: Work(id) in wq <==> At(rs, id, InQueue)
  }

  /** The running workers execute exactly the requests placed on them. */
  ghost predicate ListsWorkers(ws: seq<Worker>, rs: map<nat, Request>) {
    && (forall i: nat :: i < |ws| && ws[i].Running? ==> At(rs, ws[i].id, OnWorker(i)))
    && (forall id :: id in rs && rs[id].place.OnWorker? ==>
          var i := rs[id].place.i; i < |ws| && ws[i].Running? && ws[i].id == id)
  }

  ghost predicate ListsCancelling(c: Option<nat>, rs: map<nat, Request>) {
    forall id: nat :: c == Some(id) <==> At(rs, id, InCancel)
  }

  /** Every request is in exactly one place, once, and the queues hold nothing else. */
  ghost predicate PlacesOk(p: Pool) {
    && ListsWork(p.wq, p.requests) && ListsWorkers(p.workers, p.requests) && ListsCancelling(p.cancelling, p.requests)
    && Lists(p.slowPending, p.requests, InSlowQueue)
    && Lists(p.loopQueue, p.requests, InLoopQueue)
    && Lists(p.draining, p.requests, InDrain)
  }

  /** What has happened to a request, by where it is. */
  ghost predicate RequestOk(r: Request) {
    match r.place
    case InQueue => r.pointer.Set? && r.runs == 0 && r.dones == 0
    case InSlowQueue => r.pointer.Set? && r.runs == 0 && r.dones == 0
    case OnWorker(_) => r.pointer.Set? && r.runs == 1 && r.dones == 0
    case InCancel => !r.pointer.Cleared? && r.runs == 0 && r.dones == 0
    case InLoopQueue => Settled(r) && r.dones == 0
    case InDrain => Settled(r) && r.dones == 0
    case Finished(cancelled) => Settled(r) && r.dones == 1 && cancelled == r.pointer.Cancelled?
  }

  /** Executed once and not cancelled, or cancelled and never executed. */
  predicate Settled(r: Request) {
    (r.pointer.Cleared? && r.runs == 1) || (r.pointer.Cancelled? && r.runs == 0)
  }

  ghost predicate RequestsOk(p: Pool) {
    forall id :: id in p.requests ==> RequestOk(p.requests[id])
  }

  ghost predicate Inv(p: Pool) {
    CountersOk(p) && SlowOk(p) && WakeupsOk(p) && PlacesOk(p) && RequestsOk(p)
  }
}
