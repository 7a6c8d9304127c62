/**
 The pool of IDLE connections (internal/sync/pool.go) as a state machine: one worker per
 account, and AddAccount, RemoveAccount and Close called from anywhere.  A step is what
 happens under one lock, or one channel operation, so everything interleaves.

 Cancelling the pool's context happens in the same locked section that sets `closed`.
 */
module IdlePool {
  import opened Backoff

  // ---------------------------------------------------------------------------
  // States
  // ---------------------------------------------------------------------------

  datatype WorkerPc =
    | LoopTop
    | Connecting  // in NewIdleConnection
    | BackingOff  // waiting for stop, shutdown or the timer
    | Connected   // connection opened, not yet in the entry
    | Forwarding  // in the select of forwardEvents
    | GotEvent    // an event was received
    | Sending     // `closed` was read as false, the event is not sent yet
    | Leaving     // forwardEvents has returned
    | Exited      // doneCh is closed

  /** An account's entry together with its worker. */
  datatype Entry = Entry(
    account: string,
    pc: WorkerPc,
    slot: bool,         // entry.conn != nil
    holds: bool,        // the worker's own connection is open
    backoff: int, retryCount: nat,
    stopCloses: nat,    // how often stopCh was closed
    opens: nat, closedConns: nat, leaked: nat,
    waited: int)        // time spent backing off since the last success
  {
    predicate Stopped() {
      stopCloses > 0
    }
  }

  datatype RemoverPc = ToStop | Awaiting | Gone

  /** A RemoveAccount call past its locked section. */
  datatype Remover = Remover(entry: nat, pc: RemoverPc)

  /** The Close call past its locked section. */
  datatype Closer =
    | NotClosing
    | Stopping(list: seq<nat>, next: nat)
    | Waiting(list: seq<nat>, next: nat)
    | EventsClosed(list: seq<nat>)

  datatype State = State(
    accounts: map<string, nat>, entries: seq<Entry>, closed: bool,
    removers: seq<Remover>, closer: Closer, panicked: bool)

  const INIT := State(map[], [], false, [], NotClosing, false)

  function NewEntry(account: string): Entry {
    Entry(account, LoopTop, false, false, INITIAL_BACKOFF, 0, 0, 0, 0, 0, 0)
  }

  datatype WorkerStep =
    | TopExit | TopConnect
    | ConnectOk | ConnectUnsupported | ConnectFails
    | BackoffExit | BackoffElapsed
    | Publish
    | ForwardStop | ForwardLost | ForwardEvent | CheckClosed | SendEvent
    | Clear

  datatype Event =
    | Add(account: string)
    | Remove(account: string)
    | RemoverStops(r: nat)
    | RemoverReturns(r: nat)
    | Close(list: seq<nat>)
    | CloserStops
    | CloserWaits
    | CloserEnds
    | Work(id: nat, step: WorkerStep)

  predicate IsDistinct(list: seq<nat>) {
    forall i, j :: 0 <= i < j < |list| ==> list[i] != list[j]
  }

  predicate InMap(s: State, id: nat) {
    exists a :: a in s.accounts && s.accounts[a] == id
  }

  ghost predicate Enabled(s: State, e: Event) {
    match e
    case Add(account) => !s.closed && account !in s.accounts
    case Remove(account) => !s.closed && account in s.accounts
    case RemoverStops(r) => r < |s.removers| && s.removers[r].pc == ToStop && s.removers[r].entry < |s.entries|
    case RemoverReturns(r) =>
      r < |s.removers| && s.removers[r].pc == Awaiting
      && s.removers[r].entry < |s.entries| && s.entries[s.removers[r].entry].pc == Exited
    case Close(list) => !s.closed && IsDistinct(list) && forall id: nat :: id in list <==> InMap(s, id)
    case CloserStops =>
      s.closer.Stopping? && s.closer.next < |s.closer.list| && s.closer.list[s.closer.next] < |s.entries|
    case CloserWaits =>
      s.closer.Waiting? && s.closer.next < |s.closer.list|
      && s.closer.list[s.closer.next] < |s.entries| && s.entries[s.closer.list[s.closer.next]].pc == Exited
    case CloserEnds => (s.closer.Stopping? || s.closer.Waiting?) && s.closer.next == |s.closer.list|
    case Work(id, step) => id < |s.entries| && CanWork(s.entries[id], s.closed, step)
  }

  predicate CanWork(n: Entry, closed: bool, step: WorkerStep) {
    match step
    case TopExit => n.pc == LoopTop && (n.Stopped() || closed)
    case TopConnect => n.pc == LoopTop && !n.Stopped() && !closed
    case ConnectOk => n.pc == Connecting
    case ConnectUnsupported => n.pc == Connecting
    case ConnectFails => n.pc == Connecting
    case BackoffExit => n.pc == BackingOff && (n.Stopped() || closed)
    case BackoffElapsed => n.pc == BackingOff
    case Publish => n.pc == Connected
    case ForwardStop => n.pc == Forwarding && (n.Stopped() || closed)
    // a connection's channel is closed by its Close and by nothing else
    case ForwardLost => n.pc == Forwarding && !n.holds
    case ForwardEvent => n.pc == Forwarding && n.holds
    case CheckClosed => n.pc == GotEvent
    case SendEvent => n.pc == Sending
    case Clear => n.pc == Leaving
  }

  /** conn.Close(): a second call only reports an error. */
  function CloseConn(n: Entry): Entry {
    if n.holds then n.(holds := false, closedConns := n.closedConns + 1) else n
  }

  function WorkStep(n: Entry, closed: bool, step: WorkerStep): Entry {
    match step
    case TopExit => (if n.slot then CloseConn(n) else n).(slot := false, pc := Exited)
    case TopConnect => n.(pc := Connecting)
    case ConnectOk => n.(pc := Connected, holds := true, opens := n.opens + 1)
    case ConnectUnsupported => n.(pc := Exited)
    case ConnectFails => n.(pc := BackingOff, retryCount := n.retryCount + 1, backoff := NextBackoff(n.backoff))
    case BackoffExit => n.(pc := Exited)
    case BackoffElapsed => n.(pc := LoopTop, waited := n.waited + n.backoff)
    case Publish => n.(pc := Forwarding, slot := true, backoff := INITIAL_BACKOFF, retryCount := 0, waited := 0)
    case ForwardStop => CloseConn(n).(pc := Leaving)
    case ForwardLost => CloseConn(n).(pc := Leaving)
    case ForwardEvent => n.(pc := GotEvent)
    case CheckClosed =>
      if closed then n.(pc := Leaving, holds := false, leaked := n.leaked + Bit(n.holds)) else n.(pc := Sending)
    case SendEvent => n.(pc := Forwarding)
    case Clear => n.(pc := LoopTop, slot := false)
  }

  function Bit(b: bool): nat {
    if b then 1 else 0
  }

  function CloseStop(entries: seq<Entry>, id: nat): seq<Entry>
    requires id < |entries|
  {
    entries[id := entries[id].(stopCloses := entries[id].stopCloses + 1)]
  }

  ghost function Step(s: State, e: Event): State
    requires Enabled(s, e)
  {
    match e
    case Add(account) =>
      s.(entries := s.entries + [NewEntry(account)], accounts := s.accounts[account := |s.entries|])
    case Remove(account) =>
      s.(accounts := s.accounts - {account}, removers := s.removers + [Remover(s.accounts[account], ToStop)])
    case RemoverStops(r) =>
      s.(entries := CloseStop(s.entries, s.removers[r].entry),
         removers := s.removers[r := s.removers[r].(pc := Awaiting)])
    case RemoverReturns(r) => s.(removers := s.removers[r := s.removers[r].(pc := Gone)])
    case Close(list) => s.(closed := true, accounts := map[], closer := Stopping(list, 0))
    case CloserStops =>
      s.(entries := CloseStop(s.entries, s.closer.list[s.closer.next]),
         closer := Stopping(s.closer.list, s.closer.next + 1))
    case CloserWaits => s.(closer := Waiting(s.closer.list, s.closer.next + 1))
    case CloserEnds => s.(closer := if s.closer.Stopping? then Waiting(s.closer.list, 0)
                                    else EventsClosed(s.closer.list))
    case Work(id, step) =>
      s.(entries := s.entries[id := WorkStep(s.entries[id], s.closed, step)],
         panicked := s.panicked || (step == SendEvent && s.closer.EventsClosed?))
  }

  ghost predicate CanRun(s: State, es: seq<Event>)
    decreases |es|, 0
  {
    es == [] || (var n := |es| - 1; CanRun(s, es[..n]) && Enabled(Run(s, es[..n]), es[n]))
  }

  ghost function Run(s: State, es: seq<Event>): State
    requires CanRun(s, es)
    decreases |es|, 1
  {
    if es == [] then s else var n := |es| - 1; Step(Run(s, es[..n]), es[n])
  }

  // ---------------------------------------------------------------------------
  // One worker's invariant
  // ---------------------------------------------------------------------------

  predicate InForwarding(pc: WorkerPc) {
    pc == Forwarding || pc == GotEvent || pc == Sending
  }

  predicate EntryOk(n: Entry, closed: bool) {
    && (n.slot <==> InForwarding(n.pc) || n.pc == Leaving)
    && (n.holds <==> InForwarding(n.pc) || n.pc == Connected)
    && n.opens == n.closedConns + n.leaked + Bit(n.holds)
    && n.leaked <= 1
    && (n.leaked == 1 ==> closed && (n.pc == Leaving || n.pc == LoopTop || n.pc == Exited))
    && n.backoff == BackoffAfter(n.retryCount)
    && (n.pc == BackingOff ==> n.retryCount > 0 && n.waited == TotalWait(n.retryCount - 1))
    && (n.pc != BackingOff && n.pc != Exited ==> n.waited == TotalWait(n.retryCount))
  }

  lemma EntryStep(n: Entry, closed: bool, step: WorkerStep)
    requires EntryOk(n, closed) && CanWork(n, closed, step)
    ensures EntryOk(WorkStep(n, closed, step), closed)
  {
    NextIsClosedForm(n.retryCount);
  }

  // ---------------------------------------------------------------------------
  // Who may close a stop channel
  // ---------------------------------------------------------------------------

  predicate RemoverOk(s: State, m: Remover) {
    && m.entry < |s.entries|
    && s.entries[m.entry].stopCloses == (if m.pc == ToStop then 0 else 1)
    && (m.pc == Gone ==> s.entries[m.entry].pc == Exited)
    && (forall a :: a in s.accounts ==> s.accounts[a] != m.entry)
  }

  function ListOf(closer: Closer): seq<nat> {
    if closer.NotClosing? then [] else closer.list
  }

  predicate CloserOk(s: State) {
    var list := ListOf(s.closer);
    && (s.closed <==> !s.closer.NotClosing?)
    && (s.closed ==> s.accounts == map[])
    && IsDistinct(list)
    && (forall i :: 0 <= i < |list| ==>
          && list[i] < |s.entries|
          && s.entries[list[i]].stopCloses == (if s.closer.Stopping? && i >= s.closer.next then 0 else 1)
          && forall r :: 0 <= r < |s.removers| ==> s.removers[r].entry != list[i])
    && (s.closer.Stopping? || s.closer.Waiting? ==> s.closer.next <= |list|)
    && (s.closer.Waiting? ==> forall i :: 0 <= i < s.closer.next ==> s.entries[list[i]].pc == Exited)
    && (s.closer.EventsClosed? ==> forall i :: 0 <= i < |list| ==> s.entries[list[i]].pc == Exited)
  }

  /** The entry is in the map, or in the hands of one RemoveAccount or of Close. */
  ghost predicate Owned(s: State, id: nat) {
    || InMap(s, id)
    || (exists r :: 0 <= r < |s.removers| && s.removers[r].entry == id)
    || id in ListOf(s.closer)
  }

  ghost predicate Inv(s: State) {
    && (forall a :: a in s.accounts ==>
          s.accounts[a] < |s.entries| && s.entries[s.accounts[a]].account == a
              && s.entries[s.accounts[a]].stopCloses == 0)
    && (forall r :: 0 <= r < |s.removers| ==> RemoverOk(s, s.removers[r]))
    && (forall r, q :: 0 <= r < q < |s.removers| ==> s.removers[r].entry != s.removers[q].entry)
    && CloserOk(s)
    && (forall id :: 0 <= id < |s.entries| ==> EntryOk(s.entries[id], s.closed) && Owned(s, id))
  }

  /** Ownership only depends on the map, the removers and the list. */
  lemma OwnedFrame(s: State, s': State)
    requires s'.accounts == s.accounts && ListOf(s'.closer) == ListOf(s.closer) && |s'.removers| == |s.removers|
    requires forall r :: 0 <= r < |s.removers| ==> s'.removers[r].entry == s.removers[r].entry
    ensures forall id: nat :: Owned(s, id) ==> Owned(s', id)
  {
    forall id: nat | Owned(s, id)
      ensures Owned(s', id)
    {
      if r :| 0 <= r < |s.removers| && s.removers[r].entry == id {
        assert s'.removers[r].entry == id;
      } else if InMap(s, id) {
        var a :| a in s.accounts && s.accounts[a] == id;
        assert a in s'.accounts && s'.accounts[a] == id;
      }
    }
  }

  lemma InvAdd(s: State, account: string)
    requires Inv(s) && Enabled(s, Add(account))
    ensures Inv(Step(s, Add(account)))
  {
    var s' := Step(s, Add(account));
    forall id | 0 <= id < |s'.entries|
      ensures Owned(s', id)
    {
      if id == |s.entries| {
        assert account in s'.accounts && s'.accounts[account] == id;
      } else {
        assert Owned(s, id);
        if InMap(s, id) {
          var a :| a in s.accounts && s.accounts[a] == id;
          assert a in s'.accounts && s'.accounts[a] == id;
        }
      }
    }
  }

  lemma InvRemove(s: State, account: string)
    requires Inv(s) && Enabled(s, Remove(account))
    ensures Inv(Step(s, Remove(account)))
  {
    var s' := Step(s, Remove(account));
    var n := |s.removers|;
    forall id | 0 <= id < |s'.entries|
      ensures Owned(s', id)
    {
      assert Owned(s, id);
      if InMap(s, id) {
        var a :| a in s.accounts && s.accounts[a] == id;
        if a == account {
          assert s'.removers[n].entry == id;
        } else {
          assert a in s'.accounts && s'.accounts[a] == id;
        }
      } else if r :| 0 <= r < n && s.removers[r].entry == id {
        assert s'.removers[r].entry == id;
      }
    }
    forall r | 0 <= r < |s'.removers|
      ensures RemoverOk(s', s'.removers[r])
    {
      if r < n {
        assert RemoverOk(s, s.removers[r]);
      }
    }
    forall r | 0 <= r < n
      ensures s'.removers[r].entry != s'.removers[n].entry
    {
      assert RemoverOk(s, s.removers[r]);
    }
  }

  /** What a step may do to an entry without disturbing who owns it. */
  predicate Keeps(n: Entry, n': Entry) {
    n'.account == n.account && n'.stopCloses == n.stopCloses && (n.pc == Exited ==> n'.pc == Exited)
  }

  lemma MapFrame(s: State, s': State)
    requires Inv(s) && s'.accounts == s.accounts && |s'.entries| == |s.entries|
    requires forall id :: 0 <= id < |s.entries| ==> s'.entries[id].account == s.entries[id].account
    requires forall a :: a in s.accounts ==> s'.entries[s.accounts[a]].stopCloses == 0
    ensures forall a :: a in s'.accounts ==>
              s'.accounts[a] < |s'.entries| && s'.entries[s'.accounts[a]].account == a
                  && s'.entries[s'.accounts[a]].stopCloses == 0
  {
  }

  lemma CloserFrame(s: State, s': State)
    requires CloserOk(s) && s'.accounts == s.accounts && s'.closed == s.closed && s'.closer == s.closer
    requires |s'.entries| == |s.entries| && |s'.removers| == |s.removers|
    requires forall id :: id in ListOf(s.closer) ==> Keeps(s.entries[id], s'.entries[id])
    requires forall r :: 0 <= r < |s.removers| ==> s'.removers[r].entry == s.removers[r].entry
    ensures CloserOk(s')
  {
    var list := ListOf(s.closer);
    forall i | 0 <= i < |list|
      ensures Keeps(s.entries[list[i]], s'.entries[list[i]])
    {
      assert list[i] in list;
    }
  }

  /** A RemoveAccount past its locked section shares its entry with nobody. */
  lemma RemoverIsAlone(s: State, r: nat)
    requires Inv(s) && r < |s.removers|
    ensures forall q :: 0 <= q < |s.removers| && q != r ==> s.removers[q].entry != s.removers[r].entry
    ensures s.removers[r].entry !in ListOf(s.closer) && !InMap(s, s.removers[r].entry)
  {
    assert RemoverOk(s, s.removers[r]);
  }

  lemma InvRemoverStops(s: State, r: nat)
    requires Inv(s) && Enabled(s, RemoverStops(r))
    ensures Inv(Step(s, RemoverStops(r)))
  {
    var s' := Step(s, RemoverStops(r));
    RemoverIsAlone(s, r);
    OwnedFrame(s, s');
    assert forall a :: a in s.accounts ==> InMap(s, s.accounts[a]);
    MapFrame(s, s');
    CloserFrame(s, s');
    RemoversFrame(s, s', r);
  }

  lemma RemoversFrame(s: State, s': State, r: nat)
    requires Inv(s) && Enabled(s, RemoverStops(r)) && s' == Step(s, RemoverStops(r))
    ensures forall q :: 0 <= q < |s'.removers| ==> RemoverOk(s', s'.removers[q])
  {
    RemoverIsAlone(s, r);
    forall q | 0 <= q < |s'.removers|
      ensures RemoverOk(s', s'.removers[q])
    {
      assert RemoverOk(s, s.removers[q]);
    }
  }

  lemma InvRemoverReturns(s: State, r: nat)
    requires Inv(s) && Enabled(s, RemoverReturns(r))
    ensures Inv(Step(s, RemoverReturns(r)))
  {
    var s' := Step(s, RemoverReturns(r));
    OwnedFrame(s, s');
    CloserFrame(s, s');
    forall q | 0 <= q < |s'.removers|
      ensures RemoverOk(s', s'.removers[q])
    {
      assert RemoverOk(s, s.removers[q]);
    }
  }

  lemma InvClose(s: State, list: seq<nat>)
    requires Inv(s) && Enabled(s, Close(list))
    ensures Inv(Step(s, Close(list)))
  {
    var s' := Step(s, Close(list));
    forall i | 0 <= i < |list|
      ensures list[i] < |s.entries| && s.entries[list[i]].stopCloses == 0
      ensures forall r :: 0 <= r < |s.removers| ==> s.removers[r].entry != list[i]
    {
      assert list[i] in list;
      var a :| a in s.accounts && s.accounts[a] == list[i];
      forall r | 0 <= r < |s.removers|
        ensures s.removers[r].entry != list[i]
      {
        assert RemoverOk(s, s.removers[r]);
      }
    }
    forall id | 0 <= id < |s'.entries|
      ensures Owned(s', id)
    {
      assert Owned(s, id);
      if r :| 0 <= r < |s.removers| && s.removers[r].entry == id {
        assert s'.removers[r].entry == id;
      }
    }
    forall r | 0 <= r < |s'.removers|
      ensures RemoverOk(s', s'.removers[r])
    {
      assert RemoverOk(s, s.removers[r]);
    }
  }

  lemma InvCloserStops(s: State)
    requires Inv(s) && Enabled(s, CloserStops)
    ensures Inv(Step(s, CloserStops))
  {
    var s' := Step(s, CloserStops);
    OwnedFrame(s, s');
    CloserStopsOne(s);
    forall r | 0 <= r < |s.removers|
      ensures RemoverOk(s', s.removers[r])
    {
      assert RemoverOk(s, s.removers[r]);
      assert s.removers[r].entry != s.closer.list[s.closer.next];
    }
  }

  lemma CloserStopsOne(s: State)
    requires Inv(s) && Enabled(s, CloserStops)
    ensures CloserOk(Step(s, CloserStops))
  {
    var s', list, k := Step(s, CloserStops), s.closer.list, s.closer.next;
    forall i | 0 <= i < |list|
      ensures list[i] < |s'.entries| && s'.entries[list[i]].stopCloses == (if i >= k + 1 then 0 else 1)
      ensures forall r :: 0 <= r < |s.removers| ==> s.removers[r].entry != list[i]
    {
      assert i != k ==> list[i] != list[k];
    }
  }

  lemma InvCloserWaits(s: State)
    requires Inv(s) && Enabled(s, CloserWaits)
    ensures Inv(Step(s, CloserWaits))
  {
    var s' := Step(s, CloserWaits);
    OwnedFrame(s, s');
    RemoversStay(s, s');
  }

  lemma InvCloserEnds(s: State)
    requires Inv(s) && Enabled(s, CloserEnds)
    ensures Inv(Step(s, CloserEnds))
  {
    var s' := Step(s, CloserEnds);
    OwnedFrame(s, s');
    RemoversStay(s, s');
  }

  lemma RemoversStay(s: State, s': State)
    requires Inv(s) && s'.removers == s.removers && s'.entries == s.entries && s'.accounts == s.accounts
    ensures forall r :: 0 <= r < |s'.removers| ==> RemoverOk(s', s'.removers[r])
  {
    forall r | 0 <= r < |s.removers|
      ensures RemoverOk(s', s.removers[r])
    {
      assert RemoverOk(s, s.removers[r]);
    }
  }

  /** One entry changes, but not who owns it. */
  lemma InvEntry(s: State, s': State, id: nat, n': Entry)
    requires Inv(s) && id < |s.entries|
    requires s' == s.(entries := s.entries[id := n'], panicked := s'.panicked)
    requires Keeps(s.entries[id], n') && EntryOk(n', s.closed)
    ensures Inv(s')
  {
    OwnedFrame(s, s');
    MapFrame(s, s');
    CloserFrame(s, s');
    forall r | 0 <= r < |s'.removers|
      ensures RemoverOk(s', s'.removers[r])
    {
      assert RemoverOk(s, s.removers[r]);
    }
  }

  lemma InvWork(s: State, id: nat, step: WorkerStep)
    requires Inv(s) && Enabled(s, Work(id, step))
    ensures Inv(Step(s, Work(id, step)))
  {
    var n := s.entries[id];
    EntryStep(n, s.closed, step);
    WorkKeeps(n, s.closed, step);
    InvEntry(s, Step(s, Work(id, step)), id, WorkStep(n, s.closed, step));
  }

  lemma WorkKeeps(n: Entry, closed: bool, step: WorkerStep)
    requires CanWork(n, closed, step)
    ensures Keeps(n, WorkStep(n, closed, step))
  {
  }

  lemma InvStep(s: State, e: Event)
    requires Inv(s) && Enabled(s, e)
    ensures Inv(Step(s, e))
  {
    if e.Add? {
      InvAdd(s, e.account);
    } else if e.Remove? {
      InvRemove(s, e.account);
    } else if e.Close? {
      InvClose(s, e.list);
    } else if e.Work? {
      InvWork(s, e.id, e.step);
    } else if e.RemoverStops? {
      InvRemoverStops(s, e.r);
    } else if e.RemoverReturns? {
      InvRemoverReturns(s, e.r);
    } else if e.CloserStops? {
      InvCloserStops(s);
    } else if e.CloserWaits? {
      InvCloserWaits(s);
    } else {
      InvCloserEnds(s);
    }
  }

  lemma {:induction false} InvRun(s: State, es: seq<Event>)
    requires Inv(s) && CanRun(s, es)
    ensures Inv(Run(s, es))
  {
    if es != [] {
      var n := |es| - 1;
      InvRun(s, es[..n]);
      InvStep(Run(s, es[..n]), es[n]);
    }
  }

  /** In every reachable state, each worker's own invariant holds. */
  lemma EntryOkAt(es: seq<Event>, id: nat)
    requires CanRun(INIT, es) && id < |Run(INIT, es).entries|
    ensures EntryOk(Run(INIT, es).entries[id], Run(INIT, es).closed)
  {
    InvRun(INIT, es);
    EntryOkIn(Run(INIT, es), id);
  }

  lemma EntryOkIn(s: State, id: nat)
    requires Inv(s) && id < |s.entries|
    ensures EntryOk(s.entries[id], s.closed)
  {
  }
}
