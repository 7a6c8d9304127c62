/** What the pool of IDLE connections guarantees over whole runs; see IdlePool for the machine. */
module PoolGuarantees {
  import opened Common
  import opened Backoff
  import opened IdlePool

  /** Over every interleaving, each stop channel is closed at most once: no close of a closed channel. */
  lemma StopChannelsCloseOnce(es: seq<Event>)
    requires CanRun(INIT, es)
    ensures forall id :: 0 <= id < |Run(INIT, es).entries| ==> Run(INIT, es).entries[id].stopCloses <= 1
  {
    InvRun(INIT, es);
    var s := Run(INIT, es);
    forall id | 0 <= id < |s.entries|
      ensures s.entries[id].stopCloses <= 1
    {
      assert Owned(s, id);
      if r :| 0 <= r < |s.removers| && s.removers[r].entry == id {
        assert RemoverOk(s, s.removers[r]);
      } else if !InMap(s, id) {
        var list := ListOf(s.closer);
        var i :| 0 <= i < |list| && list[i] == id;
      }
    }
  }

  // ---------------------------------------------------------------------------
  // Shutdown
  // ---------------------------------------------------------------------------

  predicate AllGone(s: State) {
    forall r :: 0 <= r < |s.removers| ==> s.removers[r].pc == Gone
  }

  /** No RemoveAccount is between its locked section and its return when Close takes the lock. */
  ghost predicate NoRemovalOverlapsClose(es: seq<Event>)
    requires CanRun(INIT, es)
  {
    es == [] || (var n := |es| - 1; NoRemovalOverlapsClose(es[..n]) && (es[n].Close? ==> AllGone(Run(INIT, es[..n]))))
  }

  lemma GoneStep(s: State, e: Event)
    requires Enabled(s, e) && (s.closed ==> AllGone(s)) && (e.Close? ==> AllGone(s))
    ensures Step(s, e).closed ==> AllGone(Step(s, e))
  {
  }

  lemma {:induction false} RemoversAreGone(es: seq<Event>)
    requires CanRun(INIT, es) && NoRemovalOverlapsClose(es)
    ensures Run(INIT, es).closed ==> AllGone(Run(INIT, es))
  {
    if es != [] {
      var n := |es| - 1;
      RemoversAreGone(es[..n]);
      GoneStep(Run(INIT, es[..n]), es[n]);
    }
  }

  /**
   If no RemoveAccount overlaps Close, the events channel is closed only after every worker
   has exited, and no send ever meets a closed channel.
   */
  lemma CloseIsSafe(es: seq<Event>)
    requires CanRun(INIT, es) && NoRemovalOverlapsClose(es)
    ensures var s := Run(INIT, es);
            && (s.closer.EventsClosed? ==> forall id :: 0 <= id < |s.entries| ==> s.entries[id].pc == Exited)
            && !s.panicked
  {
    AllExited(es);
    NeverPanicked(es);
  }

  lemma AllExited(es: seq<Event>)
    requires CanRun(INIT, es) && NoRemovalOverlapsClose(es)
    ensures var s := Run(INIT, es);
            s.closer.EventsClosed? ==> forall id :: 0 <= id < |s.entries| ==> s.entries[id].pc == Exited
  {
    InvRun(INIT, es);
    RemoversAreGone(es);
    var s := Run(INIT, es);
    if s.closer.EventsClosed? {
      forall id | 0 <= id < |s.entries|
        ensures s.entries[id].pc == Exited
      {
        assert Owned(s, id);
        if r :| 0 <= r < |s.removers| && s.removers[r].entry == id {
          assert RemoverOk(s, s.removers[r]);
        } else {
          var i :| 0 <= i < |s.closer.list| && s.closer.list[i] == id;
        }
      }
    }
  }

  lemma NoPanicStep(s: State, e: Event)
    requires Enabled(s, e) && !s.panicked
    requires s.closer.EventsClosed? ==> forall id :: 0 <= id < |s.entries| ==> s.entries[id].pc == Exited
    ensures !Step(s, e).panicked
  {
  }

  lemma {:induction false} NeverPanicked(es: seq<Event>)
    requires CanRun(INIT, es) && NoRemovalOverlapsClose(es)
    ensures !Run(INIT, es).panicked
  {
    if es != [] {
      var n := |es| - 1;
      NeverPanicked(es[..n]);
      AllExited(es[..n]);
      NoPanicStep(Run(INIT, es[..n]), es[n]);
    }
  }

  // ---------------------------------------------------------------------------
  // Which workers can send too late
  // ---------------------------------------------------------------------------

  /** A worker that Close will not wait for is past its closed-check. */
  predicate LateSender(s: State, id: nat) {
    id < |s.entries| && s.entries[id].pc == Sending && id !in ListOf(s.closer)
  }

  ghost predicate NoLateSender(s: State) {
    s.closed && !s.panicked && forall id: nat :: !LateSender(s, id)
  }

  lemma NoLateSenderStep(s: State, e: Event)
    requires Inv(s) && NoLateSender(s) && Enabled(s, e)
    ensures NoLateSender(Step(s, e))
  {
    var s' := Step(s, e);
    forall id: nat
      ensures !LateSender(s', id)
    {
      assert !LateSender(s, id);
    }
    SendersAreLate(s);
  }

  /** Once the events channel is closed, a worker still to send is not one that Close waited for. */
  lemma SendersAreLate(s: State)
    requires Inv(s)
    ensures s.closer.EventsClosed? ==>
              forall id: nat :: id < |s.entries| && s.entries[id].pc == Sending ==> LateSender(s, id)
  {
    if s.closer.EventsClosed? {
      var list := s.closer.list;
      forall id: nat, i | id < |s.entries| && s.entries[id].pc == Sending && 0 <= i < |list|
        ensures list[i] != id
      {
        assert s.entries[list[i]].pc == Exited;
      }
    }
  }

  lemma {:induction false} NoLateSenderRun(s: State, es: seq<Event>)
    requires Inv(s) && NoLateSender(s) && CanRun(s, es)
    ensures NoLateSender(Run(s, es))
  {
    if es != [] {
      var n := |es| - 1;
      NoLateSenderRun(s, es[..n]);
      InvRun(s, es[..n]);
      NoLateSenderStep(Run(s, es[..n]), es[n]);
    }
  }

  /** At this moment, a worker whose account has left the map is between its closed-check and its send. */
  ghost predicate HasLateSender(s: State) {
    exists id :: 0 <= id < |s.entries| && s.entries[id].pc == Sending && !InMap(s, id)
  }

  /**
   From any reachable state, Close can be followed by a send on the closed channel, in some
   continuation, exactly when at that moment a worker of an account that has left the map
   is between its closed-check and its send.
   */
  lemma PanicExactly(before: seq<Event>, list: seq<nat>)
    requires CanRun(INIT, before) && Enabled(Run(INIT, before), Close(list))
    ensures var s := Step(Run(INIT, before), Close(list));
            (exists after :: CanRun(s, after) && Run(s, after).panicked) <==> HasLateSender(Run(INIT, before))
  {
    var s0 := Run(INIT, before);
    var s := Step(s0, Close(list));
    InvRun(INIT, before);
    InvStep(s0, Close(list));
    if HasLateSender(s0) {
      var id: nat :| id < |s0.entries| && s0.entries[id].pc == Sending && !InMap(s0, id);
      assert id !in list;
      var after := DriveToPanic(s, list, id);
    } else {
      NotPanickedBeforeClose(before);
      forall id: nat
        ensures !LateSender(s, id)
      {
      }
      forall after | CanRun(s, after)
        ensures !Run(s, after).panicked
      {
        NoLateSenderRun(s, after);
      }
    }
  }

  lemma {:induction false} NotPanickedBeforeClose(es: seq<Event>)
    requires CanRun(INIT, es)
    ensures !Run(INIT, es).closed ==> !Run(INIT, es).panicked
  {
    if es != [] {
      var n := |es| - 1;
      NotPanickedBeforeClose(es[..n]);
      InvRun(INIT, es[..n]);
      NotPanickedStep(Run(INIT, es[..n]), es[n]);
    }
  }

  lemma NotPanickedStep(s: State, e: Event)
    requires Inv(s) && Enabled(s, e) && (!s.closed ==> !s.panicked)
    ensures !Step(s, e).closed ==> !Step(s, e).panicked
  {
    assert CloserOk(s);
  }

  lemma Extend(s0: State, es: seq<Event>, s: State, e: Event) returns (es': seq<Event>, s': State)
    requires CanRun(s0, es) && Run(s0, es) == s && Enabled(s, e)
    ensures CanRun(s0, es') && Run(s0, es') == s' && s' == Step(s, e)
  {
    assert (es + [e])[..|es|] == es;
    es', s' := es + [e], Step(s, e);
  }

  /** `es` leads from `s0` to `s`, where Close works on `list`. */
  ghost predicate Driving(s0: State, es: seq<Event>, s: State, list: seq<nat>) {
    CanRun(s0, es) && Run(s0, es) == s && s.closed && ListOf(s.closer) == list
  }

  /** The workers that Close does not wait for are where they were. */
  predicate OthersStay(s: State, s': State, list: seq<nat>) {
    && |s'.entries| == |s.entries|
    && forall k: nat :: k < |s.entries| && k !in list ==> s'.entries[k].pc == s.entries[k].pc
  }

  /** Drives a closing pool to the end while worker `id` stays before its send, and then lets it send. */
  lemma DriveToPanic(s0: State, list: seq<nat>, id: nat) returns (es: seq<Event>)
    requires Inv(s0) && s0.closer == Stopping(list, 0) && s0.closed
    requires id < |s0.entries| && s0.entries[id].pc == Sending && id !in list
    ensures CanRun(s0, es) && Run(s0, es).panicked
  {
    var s;
    es, s := FinishClose(s0, list);
    es, s := Extend(s0, es, s, Work(id, SendEvent));
  }

  lemma FinishClose(s0: State, list: seq<nat>) returns (es: seq<Event>, s: State)
    requires Inv(s0) && s0.closed && ListOf(s0.closer) == list && !s0.closer.EventsClosed?
    ensures Driving(s0, es, s, list) && s.closer.EventsClosed? && OthersStay(s0, s, list)
  {
    es, s := [], s0;
    CloserIsInRange(s0, es, s, list);
    if s.closer.Stopping? {
      es, s := StopAll(s0, es, s, list);
      es, s := Extend(s0, es, s, CloserEnds);
    }
    CloserIsInRange(s0, es, s, list);
    es, s := AwaitAll(s0, es, s, list);
    es, s := Extend(s0, es, s, CloserEnds);
  }

  /**
   Close can always return: from every reachable state of a closed pool some continuation closes
   the events channel.
   */
  lemma CloseCanReturn(es: seq<Event>) returns (more: seq<Event>)
    requires CanRun(INIT, es) && Run(INIT, es).closed
    ensures CanRun(Run(INIT, es), more) && Run(Run(INIT, es), more).closer.EventsClosed?
  {
    InvRun(INIT, es);
    var s0 := Run(INIT, es);
    if s0.closer.EventsClosed? {
      more := [];
    } else {
      var s;
      more, s := FinishClose(s0, ListOf(s0.closer));
    }
  }

  lemma CloserIsInRange(s0: State, es: seq<Event>, s: State, list: seq<nat>)
    requires Inv(s0) && Driving(s0, es, s, list)
    ensures !s.closer.NotClosing? && forall i :: 0 <= i < |list| ==> list[i] < |s.entries|
    ensures s.closer.Stopping? || s.closer.Waiting? ==> s.closer.next <= |list|
  {
    InvRun(s0, es);
    assert CloserOk(s);
  }

  lemma {:induction false} StopAll(s0: State, es: seq<Event>, s: State, list: seq<nat>)
    returns (es': seq<Event>, s': State)
    requires Inv(s0) && Driving(s0, es, s, list) && s.closer.Stopping? && s.closer.next <= |list|
    ensures Driving(s0, es', s', list) && s'.closer == Stopping(list, |list|) && OthersStay(s, s', list)
    decreases |list| - s.closer.next
  {
    es', s' := es, s;
    if s.closer.next < |list| {
      CloserIsInRange(s0, es, s, list);
      es', s' := Extend(s0, es, s, CloserStops);
      es', s' := StopAll(s0, es', s', list);
    }
  }

  lemma {:induction false} AwaitAll(s0: State, es: seq<Event>, s: State, list: seq<nat>)
    returns (es': seq<Event>, s': State)
    requires Inv(s0) && Driving(s0, es, s, list) && s.closer.Waiting? && s.closer.next <= |list|
    ensures Driving(s0, es', s', list) && s'.closer == Waiting(list, |list|) && OthersStay(s, s', list)
    decreases |list| - s.closer.next
  {
    es', s' := es, s;
    if s.closer.next < |list| {
      CloserIsInRange(s0, es, s, list);
      var w := list[s.closer.next];
      es', s' := DriveToExit(s0, es, s, list, w);
      es', s' := Extend(s0, es', s', CloserWaits);
      es', s' := AwaitAll(s0, es', s', list);
    }
  }

  /** In a closed pool, the next step of a worker on its way out, and how far it has to go. */
  function WayOut(pc: WorkerPc): WorkerStep
    requires pc != Exited
  {
    match pc
    case LoopTop => TopExit
    case Connecting => ConnectUnsupported
    case BackingOff => BackoffExit
    case Connected => Publish
    case Forwarding => ForwardStop
    case GotEvent => CheckClosed
    case Sending => SendEvent
    case Leaving => Clear
  }

  function Distance(pc: WorkerPc): nat {
    match pc
    case Exited => 0
    case LoopTop => 1
    case Connecting => 1
    case BackingOff => 1
    case Leaving => 2
    case Forwarding => 3
    case GotEvent => 3
    case Sending => 4
    case Connected => 4
  }

  /** Every worker of a closed pool can run to its exit, whatever the others do meanwhile. */
  lemma {:induction false} DriveToExit(s0: State, es: seq<Event>, s: State, list: seq<nat>, w: nat)
    returns (es': seq<Event>, s': State)
    requires Driving(s0, es, s, list) && w < |s.entries|
    ensures Driving(s0, es', s', list) && s'.closer == s.closer
    ensures |s'.entries| == |s.entries| && s'.entries[w].pc == Exited
    ensures forall k :: 0 <= k < |s.entries| && k != w ==> s'.entries[k] == s.entries[k]
    decreases Distance(s.entries[w].pc)
  {
    es', s' := es, s;
    if s.entries[w].pc != Exited {
      es', s' := Extend(s0, es, s, Work(w, WayOut(s.entries[w].pc)));
      es', s' := DriveToExit(s0, es', s', list, w);
    }
  }

  /** A pool of one account, its worker at `pc`. */
  ghost predicate Alone(es: seq<Event>, s: State, account: string, pc: WorkerPc) {
    && CanRun(INIT, es) && Run(INIT, es) == s
    && s.accounts == map[account := 0] && |s.entries| == 1 && s.entries[0].pc == pc && s.entries[0].stopCloses == 0
    && EntryOk(s.entries[0], false)
    && !s.closed && s.removers == [] && s.closer == NotClosing && !s.panicked
  }

  lemma AloneWorks(es: seq<Event>, s: State, account: string, pc: WorkerPc, step: WorkerStep)
    returns (es': seq<Event>, s': State)
    requires Alone(es, s, account, pc) && CanWork(s.entries[0], false, step)
    ensures Alone(es', s', account, WorkStep(s.entries[0], false, step).pc)
  {
    WorkKeeps(s.entries[0], false, step);
    EntryStep(s.entries[0], false, step);
    es', s' := Extend(INIT, es, s, Work(0, step));
  }

  /** A worker with an event in hand, alone in the pool. */
  lemma ReachEvent(account: string) returns (es: seq<Event>, s: State)
    ensures Alone(es, s, account, GotEvent)
  {
    es, s := Extend(INIT, [], INIT, Add(account));
    es, s := AloneWorks(es, s, account, LoopTop, TopConnect);
    es, s := AloneWorks(es, s, account, Connecting, ConnectOk);
    es, s := AloneWorks(es, s, account, Connected, Publish);
    es, s := AloneWorks(es, s, account, Forwarding, ForwardEvent);
  }

  /** A worker past its closed-check, alone in the pool. */
  lemma ReachSending(account: string) returns (es: seq<Event>, s: State)
    ensures Alone(es, s, account, Sending)
  {
    es, s := ReachEvent(account);
    es, s := AloneWorks(es, s, account, GotEvent, CheckClosed);
  }

  /** The gap is real: RemoveAccount, then Close, and the removed worker sends on the closed channel. */
  lemma OverlapCanPanic(account: string) returns (es: seq<Event>)
    ensures CanRun(INIT, es)
    ensures Run(INIT, es).panicked
  {
    var s;
    es, s := ReachSending(account);
    es, s := Extend(INIT, es, s, Remove(account));
    assert s.accounts == map[] && !s.closed;
    es, s := Extend(INIT, es, s, Close([]));
    es, s := Extend(INIT, es, s, CloserEnds);
    es, s := Extend(INIT, es, s, CloserEnds);
    assert s.closer == EventsClosed([]) && s.entries[0].pc == Sending;
    es, s := Extend(INIT, es, s, Work(0, SendEvent));
  }

  // ---------------------------------------------------------------------------
  // Connections
  // ---------------------------------------------------------------------------

  /**
   In every reachable state an entry's connection is set only while its own worker is in
   forwardEvents or about to clear it; at the loop head it is nil, so closeConnection has
   nothing to close there.
   */
  lemma SlotFollowsWorker(es: seq<Event>, id: nat)
    requires CanRun(INIT, es) && id < |Run(INIT, es).entries|
    ensures var n := Run(INIT, es).entries[id];
            && (n.slot <==> InForwarding(n.pc) || n.pc == Leaving)
            && (n.pc == LoopTop && (n.Stopped() || Run(INIT, es).closed)
                ==> WorkStep(n, Run(INIT, es).closed, TopExit).closedConns == n.closedConns)
  {
    EntryOkAt(es, id);
  }

  /**
   Every opened connection is closed by its worker, with one exception per worker: the
   return from forwardEvents when the pool is found closed, which abandons the connection.
   */
  lemma ConnectionsAreClosed(es: seq<Event>, id: nat)
    requires CanRun(INIT, es) && id < |Run(INIT, es).entries|
    ensures var s := Run(INIT, es); var n := s.entries[id];
            && n.opens == n.closedConns + n.leaked + Bit(n.holds)
            && n.leaked <= 1 && (n.leaked == 1 ==> s.closed)
            && (n.pc == Exited && n.leaked == 0 ==> n.opens == n.closedConns)
  {
    EntryOkAt(es, id);
  }

  lemma LeakStep(n: Entry, closed: bool, step: WorkerStep)
    requires EntryOk(n, closed) && CanWork(n, closed, step)
    ensures WorkStep(n, closed, step).leaked > n.leaked <==> step == CheckClosed && closed
  {
  }

  /** Exactly one step abandons a connection: the closed-check of a worker that finds the pool closed. */
  lemma OnlyTheClosedCheckLeaks(es: seq<Event>, id: nat, step: WorkerStep)
    requires CanRun(INIT, es) && Enabled(Run(INIT, es), Work(id, step))
    ensures var s := Run(INIT, es);
            Step(s, Work(id, step)).entries[id].leaked > s.entries[id].leaked <==> step == CheckClosed && s.closed
  {
    EntryOkAt(es, id);
    var s := Run(INIT, es);
    LeakStep(s.entries[id], s.closed, step);
  }

  /** The worker is on its way to a connection, or has one. */
  predicate MayStillLeak(pc: WorkerPc) {
    pc == Connecting || pc == Connected || pc == Forwarding || pc == GotEvent || pc == Sending
  }

  /** In a closed pool, a worker elsewhere never gets a connection again. */
  ghost predicate IsPastLeaking(s: State, id: nat) {
    s.closed && id < |s.entries| && !MayStillLeak(s.entries[id].pc) && s.entries[id].leaked == 0
  }

  lemma {:induction false} PastLeakingRun(s: State, es: seq<Event>, id: nat)
    requires IsPastLeaking(s, id) && CanRun(s, es)
    ensures IsPastLeaking(Run(s, es), id)
  {
    if es != [] {
      var n := |es| - 1;
      PastLeakingRun(s, es[..n], id);
      PastLeakingStep(Run(s, es[..n]), es[n], id);
    }
  }

  lemma PastLeakingStep(s: State, e: Event, id: nat)
    requires IsPastLeaking(s, id) && Enabled(s, e)
    ensures IsPastLeaking(Step(s, e), id)
  {
    if e.Work? && e.id == id {
      PastLeakingWork(s.entries[id], e.step);
    }
  }

  lemma PastLeakingWork(n: Entry, step: WorkerStep)
    requires !MayStillLeak(n.pc) && n.leaked == 0 && CanWork(n, true, step)
    ensures !MayStillLeak(WorkStep(n, true, step).pc) && WorkStep(n, true, step).leaked == 0
  {
  }

  /** In a closed pool, the next step of a worker on its way to abandon its connection. */
  function WayToLeak(pc: WorkerPc): WorkerStep
    requires MayStillLeak(pc)
  {
    match pc
    case Connecting => ConnectOk
    case Connected => Publish
    case Forwarding => ForwardEvent
    case GotEvent => CheckClosed
    case Sending => SendEvent
  }

  function DistanceToLeak(pc: WorkerPc): nat {
    match pc
    case GotEvent => 1
    case Forwarding => 2
    case Sending => 3
    case Connected => 3
    case Connecting => 4
    case _ => 0
  }

  /** The worker has the connection that its position promises. */
  predicate HasItsConnection(n: Entry) {
    n.pc == Connecting || (MayStillLeak(n.pc) && n.holds)
  }

  lemma StepToLeak(n: Entry)
    requires HasItsConnection(n)
    ensures var step := WayToLeak(n.pc); var n' := WorkStep(n, true, step);
            && CanWork(n, true, step)
            && if n.pc == GotEvent then n'.leaked > 0
               else HasItsConnection(n') && DistanceToLeak(n'.pc) < DistanceToLeak(n.pc)
  {
  }

  lemma {:induction false} DriveToLeak(s0: State, es: seq<Event>, s: State, id: nat) returns (es': seq<Event>)
    requires CanRun(s0, es) && Run(s0, es) == s && s.closed
    requires id < |s.entries| && HasItsConnection(s.entries[id])
    ensures CanRun(s0, es') && id < |Run(s0, es').entries| && Run(s0, es').entries[id].leaked > 0
    decreases DistanceToLeak(s.entries[id].pc)
  {
    var n := s.entries[id];
    StepToLeak(n);
    var s';
    es', s' := Extend(s0, es, s, Work(id, WayToLeak(n.pc)));
    if n.pc != GotEvent {
      es' := DriveToLeak(s0, es', s', id);
    }
  }

  /** From `s`, some continuation abandons the worker's connection. */
  ghost predicate CanLeak(s: State, id: nat) {
    exists after :: CanRun(s, after) && id < |Run(s, after).entries| && Run(s, after).entries[id].leaked > 0
  }

  /**
   From any reachable state, Close can be followed by a worker's abandoning its connection,
   in some continuation, exactly when at that moment the worker is connecting, connected or
   forwarding; in all other positions it never abandons one.
   */
  lemma LeakExactly(before: seq<Event>, list: seq<nat>, id: nat)
    requires CanRun(INIT, before) && Enabled(Run(INIT, before), Close(list)) && id < |Run(INIT, before).entries|
    ensures CanLeak(Step(Run(INIT, before), Close(list)), id) <==> MayStillLeak(Run(INIT, before).entries[id].pc)
  {
    var s0 := Run(INIT, before);
    var s := Step(s0, Close(list));
    EntryOkAt(before, id);
    assert EntryOk(s.entries[id], true);
    if MayStillLeak(s0.entries[id].pc) {
      var after := DriveToLeak(s, [], s, id);
    } else {
      forall after | CanRun(s, after)
        ensures IsPastLeaking(Run(s, after), id)
      {
        PastLeakingRun(s, after, id);
      }
    }
  }

  /** The leak is real: Close between a receive and its closed-check, and the worker exits with its connection open. */
  lemma CloseCanLeak(account: string) returns (es: seq<Event>)
    ensures CanRun(INIT, es)
    ensures var s := Run(INIT, es);
            |s.entries| == 1 && s.entries[0].pc == Exited && s.entries[0].leaked == 1
            && s.entries[0].opens == s.entries[0].closedConns + 1
  {
    var s;
    es, s := ReachEvent(account);
    OnlyEntryInMap(s, account);
    es, s := Extend(INIT, es, s, Close([0]));
    es, s := Extend(INIT, es, s, Work(0, CheckClosed));
    assert s.entries[0].pc == Leaving && s.entries[0].leaked == 1 && !s.entries[0].holds;
    es, s := Extend(INIT, es, s, Work(0, Clear));
    es, s := Extend(INIT, es, s, Work(0, TopExit));
  }

  lemma OnlyEntryInMap(s: State, account: string)
    requires s.accounts == map[account := 0] && !s.closed
    ensures Enabled(s, Close([0]))
  {
    assert account in s.accounts && s.accounts[account] == 0;
    forall id: nat
      ensures id in [0] <==> InMap(s, id)
    {
    }
  }

  /**
   The branch for a connection that is closed unexpectedly is never taken: a connection's
   channel is closed only by Close, which only its own worker calls, on its way out.
   */
  lemma LostConnectionIsNeverSeen(es: seq<Event>, id: nat)
    requires CanRun(INIT, es)
    ensures !Enabled(Run(INIT, es), Work(id, ForwardLost))
  {
    if id < |Run(INIT, es).entries| {
      EntryOkAt(es, id);
    }
  }

  // ---------------------------------------------------------------------------
  // Backoff
  // ---------------------------------------------------------------------------

  /** In every reachable state the backoff is min(2^retryCount, 300) seconds. */
  lemma BackoffIsClosedForm(es: seq<Event>, id: nat)
    requires CanRun(INIT, es) && id < |Run(INIT, es).entries|
    ensures var n := Run(INIT, es).entries[id]; n.backoff == Min(Pow2(n.retryCount), MAX_BACKOFF)
  {
    EntryOkAt(es, id);
  }

  /**
   A worker about to try again after n straight failures has waited 2^(n+1) - 2 seconds, or
   510 + 300(n - 8) beyond eight.
   */
  lemma WaitIsClosedForm(es: seq<Event>, id: nat)
    requires CanRun(INIT, es) && id < |Run(INIT, es).entries|
    requires Run(INIT, es).entries[id].pc == LoopTop || Run(INIT, es).entries[id].pc == Connecting
    ensures var n := Run(INIT, es).entries[id];
            n.waited == if n.retryCount <= 8 then Pow2(n.retryCount + 1) - 2 else 510 + 300 * (n.retryCount - 8)
  {
    EntryOkAt(es, id);
    TotalWaitClosedForm(Run(INIT, es).entries[id].retryCount);
  }
}
