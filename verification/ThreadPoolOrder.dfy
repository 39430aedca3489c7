/** First in, first out: the order in which requests start and in which `done` is called, over whole
    runs of the thread pool. */
module ThreadPoolOrder {
  import opened Optional
  import opened ThreadPool
  import opened ThreadPoolProof
  import opened ThreadPoolRuns

  // ---------------------------------------------------------------- order in a queue

  /** Every `x` stands before every `y`. */
  ghost predicate Precedes<T>(s: seq<T>, x: T, y: T) {
    forall a, b :: 0 <= a < |s| && 0 <= b < |s| && s[a] == x && s[b] == y ==> a < b
  }

  lemma PrecedesAppend<T>(s: seq<T>, x: T, y: T, z: T)
    requires Precedes(s, x, y) && z != x
    ensures Precedes(s + [z], x, y)
  {
  }

  lemma PrecedesTail<T>(s: seq<T>, x: T, y: T)
    requires s != [] && Precedes(s, x, y)
    ensures Precedes(s[1..], x, y)
  {
    var t := s[1..];
    forall a, b | 0 <= a < |t| && 0 <= b < |t| && t[a] == x && t[b] == y ensures a < b {
      assert s[a + 1] == x && s[b + 1] == y;
    }
  }

  lemma PrecedesCut<T>(s: seq<T>, i: nat, x: T, y: T)
    requires i < |s| && Precedes(s, x, y)
    ensures Precedes(s[..i] + s[i + 1..], x, y)
  {
    var t := s[..i] + s[i + 1..];
    forall a, b | 0 <= a < |t| && 0 <= b < |t| && t[a] == x && t[b] == y ensures a < b {
      var a2, b2 := if a < i then a else a + 1, if b < i then b else b + 1;
      assert s[a2] == x && s[b2] == y;
    }
  }

  lemma PrecedesRemove<T>(s: seq<T>, z: T, x: T, y: T)
    requires Precedes(s, x, y)
    ensures Precedes(Remove(s, z), x, y)
  {
    if z in s { PrecedesCut(s, IndexOf(s, z), x, y); }
  }

  /** The head of a queue is not preceded by anything. */
  lemma HeadFirst<T>(s: seq<T>, x: T, y: T)
    requires s != [] && s[0] == y && Precedes(s, x, y)
    ensures x !in s
  {
  }

  // ---------------------------------------------------------------- the two lanes

  /** A worker begins to execute request `id` in this step. */
  ghost predicate Starts(p: Pool, q: Pool, id: nat) {
    exists w :: 0 <= w < |p.workers| && w < |q.workers| && q.workers[w].Running? && q.workers[w].id == id && q.workers[w] != p.workers[w]
  }

  ghost predicate Queued(p: Pool, id: nat, slow: bool) {
    if slow then id in p.slowPending else Work(id) in p.wq
  }

  /** `x` stands before `y` in their lane. */
  ghost predicate Before(p: Pool, x: nat, y: nat, slow: bool) {
    if slow then Precedes(p.slowPending, x, y) else Precedes(p.wq, Work(x), Work(y))
  }

  lemma QueueOrder(p: Pool, a: Action, q: Pool, x: nat, y: Item)
    requires Next(p, a, q) && x in p.requests && Precedes(p.wq, Work(x), y)
    ensures Precedes(q.wq, Work(x), y)
  {
    hide Precedes, Remove;
    match a {
      case Submit(id, slow, wake) =>
        if q.wq != p.wq { PrecedesAppend(p.wq, Work(x), y, if slow then SlowMessage else Work(id)); }
      case Advance(i, wake) =>
        if q.wq != p.wq {
          PrecedesTail(p.wq, Work(x), y);
          PrecedesAppend(p.wq[1..], Work(x), y, SlowMessage);
        }
      case CancelCheck(id) => PrecedesRemove(p.wq, Work(id), Work(x), y);
      case Cleanup(wake) => PrecedesAppend(p.wq, Work(x), y, ExitMessage);
      case _ =>
    }
  }

  lemma SlowOrder(p: Pool, a: Action, q: Pool, x: nat, y: nat)
    requires Next(p, a, q) && x in p.requests && Precedes(p.slowPending, x, y)
    ensures Precedes(q.slowPending, x, y)
  {
    hide Precedes, Remove;
    match a {
      case Submit(id, slow, wake) => PrecedesAppend(p.slowPending, x, y, id);
      case Advance(i, wake) => if q.slowPending != p.slowPending { PrecedesTail(p.slowPending, x, y); }
      case CancelCheck(id) => PrecedesRemove(p.slowPending, id, x, y);
      case _ =>
    }
  }

  lemma LaneOrder(p: Pool, a: Action, q: Pool, x: nat, y: nat, slow: bool)
    requires Next(p, a, q) && x in p.requests && Before(p, x, y, slow)
    ensures Before(q, x, y, slow) && x in q.requests
  {
    hide Next, Precedes;
    if slow {
      SlowOrder(p, a, q, x, y);
    } else {
      QueueOrder(p, a, q, x, Work(y));
    }
    RequestsStay(p, a, q, x);
  }

  lemma RequestsStay(p: Pool, a: Action, q: Pool, id: nat)
    requires Next(p, a, q) && id in p.requests
    ensures id in q.requests
  {
  }

  /** A request leaves its lane by starting or by being cancelled. */
  lemma Leaves(p: Pool, a: Action, q: Pool, id: nat, slow: bool)
    requires Next(p, a, q) && Queued(p, id, slow) && !Queued(q, id, slow)
    ensures Starts(p, q, id) || a == CancelCheck(id)
  {
    hide Remove;
    match a {
      case Advance(i, wake) =>
        assert q.workers[i].Running? && q.workers[i].id == id && p.workers[i].Ready?;
      case CancelCheck(other) =>
        if other != id {
          RemoveKeeps(p.slowPending, other, id);
          RemoveKeeps(p.wq, Work(other), Work(id));
        }
      case _ =>
    }
  }

  /** Only the head of a lane starts. */
  lemma HeadStarts(p: Pool, a: Action, q: Pool, id: nat)
    requires Next(p, a, q) && Starts(p, q, id)
    ensures a.Advance? && p.wq != []
    ensures p.wq[0] == Work(id) || (p.wq[0] == SlowMessage && p.slowPending != [] && p.slowPending[0] == id)
  {
  }

  // ---------------------------------------------------------------- lanes are kept apart

  ghost predicate InLane(p: Pool, id: nat, slow: bool) {
    && id in p.requests && (Work(id) in p.wq ==> !slow) && (id in p.slowPending ==> slow)
  }

  lemma LaneKept(p: Pool, a: Action, q: Pool, id: nat, slow: bool)
    requires Next(p, a, q) && InLane(p, id, slow)
    ensures InLane(q, id, slow)
  {
    hide Remove;
    if a.CancelCheck? {
      RemoveOnly(p.wq, Work(a.id), Work(id));
      RemoveOnly(p.slowPending, a.id, id);
    }
  }

  lemma RemoveOnly<T>(s: seq<T>, x: T, y: T)
    ensures y in Remove(s, x) ==> y in s
  {
  }

  // ---------------------------------------------------------------- over runs

  lemma RunStep(states: seq<Pool>, actions: seq<Action>, k: nat)
    requires IsRun(states, actions) && k < |actions|
    ensures |states| == |actions| + 1 && Next(states[k], actions[k], states[k + 1])
  {
    hide Next;
  }

  /** Submitted in step `i`. */
  ghost predicate SubmittedAt(actions: seq<Action>, i: nat, id: nat, slow: bool) {
    i < |actions| && actions[i].Submit? && actions[i].id == id && actions[i].slow == slow
  }

  lemma SubmitQueues(p: Pool, a: Action, q: Pool)
    requires Next(p, a, q) && a.Submit? && PoolInv(p)
    ensures a.id !in p.requests && a.id !in p.slowPending && Work(a.id) !in p.wq
    ensures Queued(q, a.id, a.slow) && InLane(q, a.id, a.slow)
  {
    hide CountersOk, SlowOk, WakeupsOk, RequestsOk, ExitOk;
  }

  /** Some step in between took `id` out of its lane. */
  ghost predicate LeftBetween(states: seq<Pool>, actions: seq<Action>, id: nat, lo: nat, hi: nat) {
    exists m :: lo <= m < hi <= |actions| < |states| && (Starts(states[m], states[m + 1], id) || actions[m] == CancelCheck(id))
  }

  lemma {:induction false} RunLeaves(states: seq<Pool>, actions: seq<Action>, id: nat, slow: bool, lo: nat, hi: nat)
    requires IsRun(states, actions) && lo <= hi < |states|
    requires Queued(states[lo], id, slow) && !Queued(states[hi], id, slow)
    ensures LeftBetween(states, actions, id, lo, hi)
    decreases hi - lo
  {
    hide Next, Queued, Starts, IsRun;
    if lo < hi {
      RunLength(states, actions);
      RunStep(states, actions, hi - 1);
      if Queued(states[hi - 1], id, slow) {
        Leaves(states[hi - 1], actions[hi - 1], states[hi], id, slow);
      } else {
        RunLeaves(states, actions, id, slow, lo, hi - 1);
      }
    }
  }

  lemma RunLength(states: seq<Pool>, actions: seq<Action>)
    requires IsRun(states, actions)
    ensures |states| == |actions| + 1
  {
    hide Next;
  }

  lemma {:induction false} RunOrder(states: seq<Pool>, actions: seq<Action>, x: nat, y: nat, slow: bool, lo: nat, hi: nat)
    requires IsRun(states, actions) && lo <= hi < |states|
    requires x in states[lo].requests && Before(states[lo], x, y, slow)
    ensures x in states[hi].requests && Before(states[hi], x, y, slow)
    decreases hi - lo
  {
    hide *;
    if lo < hi {
      RunLength(states, actions);
      RunStep(states, actions, hi - 1);
      RunOrder(states, actions, x, y, slow, lo, hi - 1);
      LaneOrder(states[hi - 1], actions[hi - 1], states[hi], x, y, slow);
    }
  }

  lemma {:induction false} RunLane(states: seq<Pool>, actions: seq<Action>, id: nat, slow: bool, lo: nat, hi: nat)
    requires IsRun(states, actions) && lo <= hi < |states| && InLane(states[lo], id, slow)
    ensures InLane(states[hi], id, slow)
    decreases hi - lo
  {
    hide *;
    if lo < hi {
      RunLength(states, actions);
      RunStep(states, actions, hi - 1);
      RunLane(states, actions, id, slow, lo, hi - 1);
      LaneKept(states[hi - 1], actions[hi - 1], states[hi], id, slow);
    }
  }

  lemma {:induction false} RunKnown(states: seq<Pool>, actions: seq<Action>, id: nat, lo: nat, hi: nat)
    requires IsRun(states, actions) && lo <= hi < |states| && id in states[lo].requests
    ensures id in states[hi].requests
    decreases hi - lo
  {
    hide *;
    if lo < hi {
      RunLength(states, actions);
      RunStep(states, actions, hi - 1);
      RunKnown(states, actions, id, lo, hi - 1);
      RequestsStay(states[hi - 1], actions[hi - 1], states[hi], id);
    }
  }

  /** First in, first out: of two requests submitted to one lane, the later one does not start before
      the earlier one has started or has been asked to be cancelled. */
  lemma StartsInOrder(states: seq<Pool>, actions: seq<Action>, i: nat, j: nat, m: nat, x: nat, y: nat, slow: bool)
    requires IsRun(states, actions) && Init(states[0]) && i < j < m < |actions|
    requires SubmittedAt(actions, i, x, slow) && SubmittedAt(actions, j, y, slow)
    requires |states| == |actions| + 1 && Starts(states[m], states[m + 1], y)
    ensures exists n :: i < n < m && (Starts(states[n], states[n + 1], x) || actions[n] == CancelCheck(x))
  {
    hide *;
    SubmitsAre(actions, i, x, slow);
    SubmitsAre(actions, j, y, slow);
    RunStep(states, actions, i);
    RunInv(states, actions, i);
    SubmitQueues(states[i], actions[i], states[i + 1]);
    InLaneKnown(states[i + 1], x, slow);
    RunStep(states, actions, j);
    RunInv(states, actions, j);
    SubmitQueues(states[j], actions[j], states[j + 1]);
    RunKnown(states, actions, x, i + 1, j);
    NotYetBefore(states[j], x, y, slow);
    RunOrder(states, actions, x, y, slow, j, m);
    RunLane(states, actions, y, slow, j + 1, m);
    RunStep(states, actions, m);
    HeadStarts(states[m], actions[m], states[m + 1], y);
    HeadOfLane(states[m], x, y, slow);
    RunLeaves(states, actions, x, slow, i + 1, m);
    LeftAt(states, actions, x, i + 1, m);
  }

  lemma SubmitsAre(actions: seq<Action>, i: nat, id: nat, slow: bool)
    requires SubmittedAt(actions, i, id, slow)
    ensures i < |actions| && actions[i].Submit? && actions[i].id == id && actions[i].slow == slow
  {
  }

  lemma InLaneKnown(p: Pool, id: nat, slow: bool)
    requires InLane(p, id, slow)
    ensures id in p.requests
  {
  }

  lemma NotYetBefore(p: Pool, x: nat, y: nat, slow: bool)
    requires y !in p.slowPending && Work(y) !in p.wq
    ensures Before(p, x, y, slow)
  {
  }

  lemma HeadOfLane(p: Pool, x: nat, y: nat, slow: bool)
    requires InLane(p, y, slow) && Before(p, x, y, slow) && p.wq != []
    requires p.wq[0] == Work(y) || (p.wq[0] == SlowMessage && p.slowPending != [] && p.slowPending[0] == y)
    ensures !Queued(p, x, slow)
  {
    hide Precedes;
    assert p.wq[0] in p.wq;
    if slow {
      HeadFirst(p.slowPending, x, y);
    } else {
      assert p.slowPending != [] ==> p.slowPending[0] in p.slowPending;
      HeadFirst(p.wq, Work(x), Work(y));
    }
  }

  lemma LeftAt(states: seq<Pool>, actions: seq<Action>, id: nat, lo: nat, hi: nat)
    requires LeftBetween(states, actions, id, lo, hi)
    ensures exists n :: lo <= n < hi <= |actions| < |states| && (Starts(states[n], states[n + 1], id) || actions[n] == CancelCheck(id))
  {
    hide Starts;
  }

  /** Slow work waits its turn behind the work that was queued before its message was (re)queued. */
  lemma SlowWaitsItsTurn(states: seq<Pool>, actions: seq<Action>, n: nat, m: nat, x: nat, y: nat)
    requires IsRun(states, actions) && Init(states[0]) && n <= m < |actions| && |states| == |actions| + 1
    requires Work(x) in states[n].wq && Precedes(states[n].wq, Work(x), SlowMessage)
    requires Starts(states[m], states[m + 1], y) && states[m + 1].slowRunning > states[m].slowRunning
    ensures exists k :: n <= k < m && (Starts(states[k], states[k + 1], x) || actions[k] == CancelCheck(x))
  {
    hide *;
    RunInv(states, actions, n);
    WorkKnown(states[n], x);
    RunMessage(states, actions, x, n, m);
    RunStep(states, actions, m);
    HeadStarts(states[m], actions[m], states[m + 1], y);
    SlowHead(states[m], actions[m], states[m + 1]);
    HeadFirst(states[m].wq, Work(x), SlowMessage);
    QueuedIs(states[n], x);
    QueuedIs(states[m], x);
    RunLeaves(states, actions, x, false, n, m);
    LeftAt(states, actions, x, n, m);
  }

  lemma QueuedIs(p: Pool, id: nat)
    ensures Queued(p, id, false) <==> Work(id) in p.wq
  {
  }

  lemma WorkKnown(p: Pool, id: nat)
    requires PoolInv(p) && Work(id) in p.wq
    ensures id in p.requests
  {
    hide CountersOk, SlowOk, WakeupsOk, RequestsOk, ExitOk;
    assert At(p.requests, id, InQueue);
  }

  lemma SlowHead(p: Pool, a: Action, q: Pool)
    requires Next(p, a, q) && q.slowRunning > p.slowRunning
    ensures p.wq != [] && p.wq[0] == SlowMessage
  {
  }

  lemma {:induction false} RunMessage(states: seq<Pool>, actions: seq<Action>, x: nat, lo: nat, hi: nat)
    requires IsRun(states, actions) && lo <= hi < |states|
    requires x in states[lo].requests && Precedes(states[lo].wq, Work(x), SlowMessage)
    ensures x in states[hi].requests && Precedes(states[hi].wq, Work(x), SlowMessage)
    decreases hi - lo
  {
    hide *;
    if lo < hi {
      RunLength(states, actions);
      RunStep(states, actions, hi - 1);
      RunMessage(states, actions, x, lo, hi - 1);
      QueueOrder(states[hi - 1], actions[hi - 1], states[hi], x, SlowMessage);
      RequestsStay(states[hi - 1], actions[hi - 1], states[hi], x);
    }
  }

  /** A slow job is not held back while fewer than half the threads, rounded up, do slow work. */
  lemma SlowLaneOpen(states: seq<Pool>, actions: seq<Action>, k: nat)
    requires IsRun(states, actions) && Init(states[0]) && k < |actions| && |states| == |actions| + 1 && actions[k].Advance?
    requires var p := states[k]; p.wq != [] && p.wq[0] == SlowMessage && p.slowPending != []
    requires var p := states[k]; Count(p.workers, IsSlow) < (|p.workers| + 1) / 2
    ensures Starts(states[k], states[k + 1], states[k].slowPending[0])
  {
    RunInv(states, actions, k);
    RunStep(states, actions, k);
    hide PlacesOk, RequestsOk, WakeupsOk, SlowOk, ExitOk, IsRun, Init;
    var q, i := states[k + 1], actions[k].i;
    assert q.workers[i].Running? && q.workers[i].id == states[k].slowPending[0] && q.workers[i] != states[k].workers[i];
  }

  // ---------------------------------------------------------------- the loop queue

  /** `id` is handed to the loop in this step. */
  ghost predicate Enters(p: Pool, a: Action, id: nat) {
    || (a.Finish? && a.i < |p.workers| && p.workers[a.i].Running? && p.workers[a.i].id == id)
    || (a.CancelPost? && p.cancelling == Some(id))
  }

  /** `done` is called for `id` in this step. */
  ghost predicate Calls(p: Pool, q: Pool, id: nat) {
    id in p.requests && id in q.requests && p.requests[id].dones < q.requests[id].dones
  }

  /** What the loop has been handed and has not called back yet. */
  ghost function Handed(p: Pool): seq<nat> {
    p.draining + p.loopQueue
  }

  lemma HandedStep(p: Pool, a: Action, q: Pool)
    requires Next(p, a, q)
    ensures (exists z :: Handed(q) == Handed(p) + [z] && Enters(p, a, z))
            || (a.CallDone? && p.draining != [] && Handed(q) == Handed(p)[1..] && Calls(p, q, p.draining[0]))
            || (a.CancelCheck? && Handed(q) == Remove(p.draining, a.id) + Remove(p.loopQueue, a.id))
            || Handed(q) == Handed(p)
  {
    hide Remove;
    match a {
      case Finish(i) =>
        var id := p.workers[i].id;
        assert Handed(q) == Handed(p) + [id] && Enters(p, a, id);
      case CancelPost =>
        var id := p.cancelling.value;
        assert Handed(q) == Handed(p) + [id] && Enters(p, a, id);
      case CallDone =>
        assert Handed(q) == Handed(p)[1..];
      case Drain =>
        assert Handed(q) == Handed(p);
      case Advance(i, wake) =>
        assert q.draining == p.draining && q.loopQueue == p.loopQueue;
      case _ =>
    }
  }

  lemma CallsHead(p: Pool, a: Action, q: Pool, id: nat)
    requires Next(p, a, q) && Calls(p, q, id)
    ensures p.draining != [] && p.draining[0] == id
  {
  }

  lemma PrecedesSplit<T>(s: seq<T>, t: seq<T>, x: T, y: T)
    requires Precedes(s + t, x, y)
    ensures Precedes(s, x, y) && Precedes(t, x, y) && (y in s ==> x !in t)
  {
    var u := s + t;
    forall a, b | 0 <= a < |s| && 0 <= b < |s| && s[a] == x && s[b] == y ensures a < b {
      assert u[a] == x && u[b] == y;
    }
    forall a, b | 0 <= a < |t| && 0 <= b < |t| && t[a] == x && t[b] == y ensures a < b {
      assert u[|s| + a] == x && u[|s| + b] == y;
    }
    forall a, b | 0 <= a < |t| && 0 <= b < |s| && s[b] == y ensures t[a] != x {
      assert u[|s| + a] == t[a] && u[b] == y;
    }
  }

  lemma PrecedesJoin<T>(s: seq<T>, t: seq<T>, x: T, y: T)
    requires Precedes(s, x, y) && Precedes(t, x, y) && (y in s ==> x !in t)
    ensures Precedes(s + t, x, y)
  {
    var u := s + t;
    forall a, b | 0 <= a < |u| && 0 <= b < |u| && u[a] == x && u[b] == y ensures a < b {
      assert a < |s| ==> s[a] == x;
      assert a >= |s| ==> t[a - |s|] == x;
      assert b < |s| ==> s[b] == y;
      assert b >= |s| ==> t[b - |s|] == y;
    }
  }

  /** `x` waits for its call, ahead of `y`. */
  ghost predicate WaitsFirst(p: Pool, x: nat, y: nat) {
    x in Handed(p) && Precedes(Handed(p), x, y)
  }

  lemma HandedOrder(p: Pool, a: Action, q: Pool, x: nat, y: nat)
    requires Next(p, a, q) && WaitsFirst(p, x, y) && !Enters(p, a, x)
    ensures WaitsFirst(q, x, y) || Calls(p, q, x) || a == CancelCheck(x)
  {
    hide Next, Enters, Calls, Precedes, Remove, Handed;
    HandedStep(p, a, q);
    HandedIs(p);
    var s := Handed(p);
    if z :| Handed(q) == s + [z] && Enters(p, a, z) {
      PrecedesAppend(s, x, y, z);
    } else if a.CallDone? && Handed(q) == s[1..] && Calls(p, q, p.draining[0]) {
      PrecedesTail(s, x, y);
      assert s == [s[0]] + s[1..] && s[0] == p.draining[0];
    } else if a.CancelCheck? && Handed(q) != s && a != CancelCheck(x) {
      PrecedesSplit(p.draining, p.loopQueue, x, y);
      PrecedesRemove(p.draining, a.id, x, y);
      PrecedesRemove(p.loopQueue, a.id, x, y);
      RemoveOnly(p.draining, a.id, y);
      RemoveOnly(p.loopQueue, a.id, x);
      RemoveKeeps(p.draining, a.id, x);
      RemoveKeeps(p.loopQueue, a.id, x);
      PrecedesJoin(Remove(p.draining, a.id), Remove(p.loopQueue, a.id), x, y);
    }
  }

  lemma HandedIs(p: Pool)
    ensures Handed(p) == p.draining + p.loopQueue
  {
  }

  /** Nothing that already waits for its call is handed over again. */
  lemma EntersOnce(p: Pool, a: Action, id: nat)
    requires PoolInv(p) && Enters(p, a, id)
    ensures id !in Handed(p)
  {
    hide CountersOk, SlowOk, WakeupsOk, RequestsOk, ExitOk;
    if a.Finish? {
      assert At(p.requests, id, OnWorker(a.i));
    } else {
      assert At(p.requests, id, InCancel);
    }
    assert id in Handed(p) ==> id in p.draining || id in p.loopQueue;
  }

  /** Some step in between called `done` for `id`, or asked to cancel it. */
  ghost predicate CalledBetween(states: seq<Pool>, actions: seq<Action>, id: nat, lo: nat, hi: nat) {
    exists m :: lo <= m < hi <= |actions| < |states| && (Calls(states[m], states[m + 1], id) || actions[m] == CancelCheck(id))
  }

  lemma CalledLater(states: seq<Pool>, actions: seq<Action>, id: nat, lo: nat, hi: nat)
    requires 0 < hi <= |actions| < |states| && lo < hi
    requires CalledBetween(states, actions, id, lo, hi - 1) || Calls(states[hi - 1], states[hi], id) || actions[hi - 1] == CancelCheck(id)
    ensures CalledBetween(states, actions, id, lo, hi)
  {
    hide Calls;
  }

  lemma {:induction false} RunHanded(states: seq<Pool>, actions: seq<Action>, x: nat, y: nat, lo: nat, hi: nat)
    requires IsRun(states, actions) && Init(states[0]) && lo <= hi < |states| && WaitsFirst(states[lo], x, y)
    ensures CalledBetween(states, actions, x, lo, hi) || WaitsFirst(states[hi], x, y)
    decreases hi - lo
  {
    hide *;
    if lo < hi {
      RunLength(states, actions);
      RunHanded(states, actions, x, y, lo, hi - 1);
      if WaitsFirst(states[hi - 1], x, y) {
        RunStep(states, actions, hi - 1);
        RunInv(states, actions, hi - 1);
        HandedStays(states[hi - 1], actions[hi - 1], states[hi], x, y);
      }
      if CalledBetween(states, actions, x, lo, hi - 1) || Calls(states[hi - 1], states[hi], x) || actions[hi - 1] == CancelCheck(x) {
        CalledLater(states, actions, x, lo, hi);
      }
    }
  }

  lemma HandedStays(p: Pool, a: Action, q: Pool, x: nat, y: nat)
    requires PoolInv(p) && Next(p, a, q) && WaitsFirst(p, x, y)
    ensures WaitsFirst(q, x, y) || Calls(p, q, x) || a == CancelCheck(x)
  {
    hide *;
    WaitsIs(p, x, y);
    if Enters(p, a, x) { EntersOnce(p, a, x); }
    HandedOrder(p, a, q, x, y);
  }

  lemma WaitsIs(p: Pool, x: nat, y: nat)
    requires WaitsFirst(p, x, y)
    ensures x in Handed(p) && Precedes(Handed(p), x, y)
  {
  }

  lemma EntersIsHanded(p: Pool, a: Action, q: Pool, x: nat)
    requires Next(p, a, q) && Enters(p, a, x)
    ensures x in Handed(q)
  {
  }

  /** `done` is called in the order in which requests were handed to the loop: not for `y` before it has
      been called for `x`, handed over earlier, or `x` has been asked to be cancelled (once more, if it
      was handed over as cancelled). */
  lemma CalledInOrder(states: seq<Pool>, actions: seq<Action>, i: nat, j: nat, m: nat, x: nat, y: nat)
    requires IsRun(states, actions) && Init(states[0]) && i < j < m < |actions| && |states| == |actions| + 1
    requires Enters(states[i], actions[i], x) && Enters(states[j], actions[j], y)
    requires Calls(states[m], states[m + 1], y)
    ensures exists n :: i < n < m && (Calls(states[n], states[n + 1], x) || actions[n] == CancelCheck(x))
  {
    hide *;
    RunStep(states, actions, i);
    EntersIsHanded(states[i], actions[i], states[i + 1], x);
    RunStep(states, actions, j);
    RunInv(states, actions, j);
    EntersOnce(states[j], actions[j], y);
    StillHanded(states, actions, x, i + 1, j);
    if x in Handed(states[j]) {
      WaitsBefore(states[j], x, y);
      RunHanded(states, actions, x, y, j, m);
      RunStep(states, actions, m);
      CallsHead(states[m], actions[m], states[m + 1], y);
      NotHead(states[m], x, y);
      CalledAt(states, actions, x, j, m);
    } else {
      CalledAt(states, actions, x, i + 1, j);
    }
  }

  lemma {:induction false} StillHanded(states: seq<Pool>, actions: seq<Action>, x: nat, lo: nat, hi: nat)
    requires IsRun(states, actions) && lo <= hi < |states| && x in Handed(states[lo])
    ensures CalledBetween(states, actions, x, lo, hi) || x in Handed(states[hi])
    decreases hi - lo
  {
    hide *;
    if lo < hi {
      RunLength(states, actions);
      RunStep(states, actions, hi - 1);
      StillHanded(states, actions, x, lo, hi - 1);
      if x in Handed(states[hi - 1]) {
        HandedOrCalled(states[hi - 1], actions[hi - 1], states[hi], x);
      }
      if CalledBetween(states, actions, x, lo, hi - 1) || Calls(states[hi - 1], states[hi], x) || actions[hi - 1] == CancelCheck(x) {
        CalledLater(states, actions, x, lo, hi);
      }
    }
  }

  lemma HandedOrCalled(p: Pool, a: Action, q: Pool, x: nat)
    requires Next(p, a, q) && x in Handed(p)
    ensures x in Handed(q) || Calls(p, q, x) || a == CancelCheck(x)
  {
    hide Next, Enters, Calls, Remove;
    HandedStep(p, a, q);
    if a.CancelCheck? {
      RemoveKeeps(p.draining, a.id, x);
      RemoveKeeps(p.loopQueue, a.id, x);
    }
  }

  lemma WaitsBefore(p: Pool, x: nat, y: nat)
    requires x in Handed(p) && y !in Handed(p)
    ensures WaitsFirst(p, x, y)
  {
  }

  lemma NotHead(p: Pool, x: nat, y: nat)
    requires p.draining != [] && p.draining[0] == y
    ensures !WaitsFirst(p, x, y)
  {
    hide Precedes;
    if WaitsFirst(p, x, y) { HeadFirst(Handed(p), x, y); }
  }

  lemma CalledAt(states: seq<Pool>, actions: seq<Action>, id: nat, lo: nat, hi: nat)
    requires CalledBetween(states, actions, id, lo, hi)
    ensures exists n :: lo <= n < hi <= |actions| < |states| && (Calls(states[n], states[n + 1], id) || actions[n] == CancelCheck(id))
  {
    hide Calls;
  }
}
