/**
 The objects of the IDLE pool (internal/sync/pool.go) and its connections
 (internal/sync/idle.go).  Each locked section and each channel operation of the pool is a
 method proved to perform its steps of the machine of IdlePool, so what holds over all
 interleavings there holds of the fields here.
 */
module PoolObjects {
  import opened Common
  import opened Backoff
  import Machine = IdlePool

  datatype PoolError =
    | PoolClosed | AccountExists | AccountNotFound | InvalidConfig | AlreadyClosed
    | Joined(errors: seq<string>)

  datatype EventType = NewMessage | Expunge

  const CHANNEL_CAPACITY := 100

  // ---------------------------------------------------------------------------
  // A connection
  // ---------------------------------------------------------------------------

  /** IdleConnection: a bounded channel guarded by one mutex. */
  class IdleConnection {
    var closed: bool
    var events: seq<EventType>  // the channel's buffer

    ghost var accepted: seq<EventType>  // everything ever put into the channel
    ghost var received: seq<EventType>  // everything taken out of it

    ghost predicate Valid()
      reads this
    {
      accepted == received + events && |events| <= CHANNEL_CAPACITY
    }

    constructor ()
      ensures Valid() && !closed && accepted == []
    {
      closed, events, accepted, received := false, [], [], [];
    }

    /** handleMailboxUpdate and handleExpunge: never after Close, never beyond the capacity, never blocking. */
    method Offer(event: EventType)
      requires Valid()
      modifies this
      ensures Valid() && closed == old(closed) && received == old(received)
      ensures accepted == if old(closed) || |old(events)| == 100 then old(accepted)
                          else old(accepted) + [event]
    {
      if closed {
        return;
      }
      if |events| < CHANNEL_CAPACITY {
        events := events + [event];
        accepted := accepted + [event];
      }
    }

    /** handleMailboxUpdate: an update without a message count is no event. */
    method HandleMailboxUpdate(numMessages: Option<nat>)
      requires Valid()
      modifies this
      ensures Valid() && closed == old(closed) && received == old(received)
      ensures accepted == if numMessages.None? || old(closed) || |old(events)| == 100
                          then old(accepted) else old(accepted) + [NewMessage]
    {
      if numMessages.None? {
        return;
      }
      Offer(NewMessage);
    }

    /** Receiving from the channel: in order, also what was buffered before a Close; then nothing. */
    method Receive() returns (event: Option<EventType>)
      requires Valid()
      modifies this
      ensures Valid() && closed == old(closed) && accepted == old(accepted)
      ensures event == if old(received) == old(accepted) then None else Some(accepted[|old(received)|])
      ensures received == if event.None? then old(received) else old(received) + [event.value]
    {
      if events == [] {
        return None;
      }
      event := Some(events[0]);
      received := received + [events[0]];
      events := events[1..];
    }

    /** Close, given the errors of ending IDLE, of the logout and of closing the client: all three are tried, once. */
    method Close(idleErr: Option<string>, logoutErr: Option<string>, clientErr: Option<string>)
      returns (err: Option<PoolError>)
      requires Valid()
      modifies this`closed
      ensures Valid() && closed
      ensures err == Some(AlreadyClosed) <==> old(closed)
      ensures err.None? <==> !old(closed) && idleErr.None? && logoutErr.None? && clientErr.None?
      ensures !old(closed) && err.Some? ==>
                err.value.Joined? && forall e :: e in err.value.errors <==> Some(e) in [idleErr, logoutErr, clientErr]
    {
      if closed {
        return Some(AlreadyClosed);
      }
      closed := true;
      var errs: seq<string> := [];
      if idleErr.Some? {
        errs := errs + [idleErr.value];
      }
      if logoutErr.Some? {
        errs := errs + [logoutErr.value];
      }
      if clientErr.Some? {
        errs := errs + [clientErr.value];
      }
      return if |errs| > 0 then Some(Joined(errs)) else None;
    }
  }

  // ---------------------------------------------------------------------------
  // An account's entry
  // ---------------------------------------------------------------------------

  class AccountEntry {
    const account: string
    ghost const id: nat  // its number in the machine
    var conn: IdleConnection?
    var backoff: int
    var retryCount: nat
    var stopped: bool    // stopCh is closed
    var done: bool       // doneCh is closed

    ghost predicate Mirrors(n: Machine.Entry)
      reads this
    {
      && account == n.account && backoff == n.backoff && retryCount == n.retryCount
      && (conn != null <==> n.slot)
      && (stopped <==> n.Stopped())
      && (done <==> n.pc.Exited?)
    }

    constructor (account: string, ghost id: nat)
      ensures this.account == account && this.id == id
      ensures Mirrors(Machine.NewEntry(account))
    {
      this.account := account;
      this.id := id;
      conn, backoff, retryCount, stopped, done := null, INITIAL_BACKOFF, 0, false, false;
    }

    /** close(stopCh), which would panic the second time. */
    method Stop()
      requires !stopped
      modifies this`stopped
      ensures stopped
    {
      stopped := true;
    }
  }

  // ---------------------------------------------------------------------------
  // Runs behind a state
  // ---------------------------------------------------------------------------

  /** `trace` is a run of the machine that ends in `s`. */
  ghost predicate Reached(trace: seq<Machine.Event>, s: Machine.State) {
    Machine.CanRun(Machine.INIT, trace) && Machine.Run(Machine.INIT, trace) == s
  }

  lemma ReachedInv(trace: seq<Machine.Event>, s: Machine.State)
    requires Reached(trace, s)
    ensures Machine.Inv(s)
  {
    Machine.InvRun(Machine.INIT, trace);
  }

  lemma ReachedSnoc(trace: seq<Machine.Event>, s: Machine.State, e: Machine.Event)
    requires Reached(trace, s) && Machine.Enabled(s, e)
    ensures Reached(trace + [e], Machine.Step(s, e))
  {
    assert (trace + [e])[..|trace|] == trace;
  }

  /** In every reachable state the map holds running entries, each under its own account. */
  lemma ReachedMap(trace: seq<Machine.Event>, s: Machine.State)
    requires Reached(trace, s)
    ensures forall a :: a in s.accounts ==>
              s.accounts[a] < |s.entries| && s.entries[s.accounts[a]].account == a
                  && !s.entries[s.accounts[a]].Stopped()
    ensures s.closed ==> s.accounts == map[]
  {
    ReachedInv(trace, s);
  }

  lemma ReachedEntry(trace: seq<Machine.Event>, s: Machine.State, id: nat)
    requires Reached(trace, s) && id < |s.entries|
    ensures Machine.EntryOk(s.entries[id], s.closed)
  {
    ReachedInv(trace, s);
    Machine.EntryOkIn(s, id);
  }

  /** In every reachable state, a removed entry is not in the map. */
  lemma ReachedRemover(trace: seq<Machine.Event>, s: Machine.State, r: nat)
    requires Reached(trace, s) && r < |s.removers|
    ensures s.removers[r].entry < |s.entries| && forall a :: a in s.accounts ==> s.accounts[a] != s.removers[r].entry
  {
    ReachedInv(trace, s);
    assert Machine.RemoverOk(s, s.removers[r]);
  }

  lemma ReachedBackoff(trace: seq<Machine.Event>, s: Machine.State, id: nat)
    requires Reached(trace, s) && id < |s.entries|
    ensures var n := s.entries[id]; NextBackoff(n.backoff) == Min(Pow2(n.retryCount + 1), MAX_BACKOFF)
  {
    ReachedEntry(trace, s, id);
    NextIsClosedForm(s.entries[id].retryCount);
  }

  /** In every reachable state, the stop channels that Close has yet to close are open. */
  lemma ReachedCloser(trace: seq<Machine.Event>, s: Machine.State)
    requires Reached(trace, s)
    ensures s.closed <==> !s.closer.NotClosing?
    ensures s.closer.Stopping? ==>
              forall i :: s.closer.next <= i < |s.closer.list| ==>
                s.closer.list[i] < |s.entries| && !s.entries[s.closer.list[i]].Stopped()
    ensures s.closer.Stopping? || s.closer.Waiting? ==>
              && s.closer.next <= |s.closer.list|
              && forall i :: 0 <= i < |s.closer.list| ==> s.closer.list[i] < |s.entries|
  {
    ReachedInv(trace, s);
    CloserMeaning(s);
  }

  lemma CloserMeaning(s: Machine.State)
    requires Machine.CloserOk(s)
    ensures s.closed <==> !s.closer.NotClosing?
    ensures s.closer.Stopping? ==>
              forall i :: s.closer.next <= i < |s.closer.list| ==>
                s.closer.list[i] < |s.entries| && !s.entries[s.closer.list[i]].Stopped()
    ensures s.closer.Stopping? || s.closer.Waiting? ==>
              && s.closer.next <= |s.closer.list|
              && forall i :: 0 <= i < |s.closer.list| ==> s.closer.list[i] < |s.entries|
  {
  }

  // ---------------------------------------------------------------------------
  // The pool
  // ---------------------------------------------------------------------------

  class IdlePool {
    var accounts: map<string, AccountEntry>
    var closed: bool
    var events: seq<EventType>  // the buffer of the merged channel
    var eventsClosed: bool

    ghost var all: seq<AccountEntry>  // every entry there ever was, by its number
    ghost var state: Machine.State
    ghost var trace: seq<Machine.Event>

    ghost predicate Valid()
      reads this, all
    {
      && Reached(trace, state)
      && closed == state.closed && (eventsClosed <==> state.closer.EventsClosed?)
      && |all| == |state.entries|
      && (forall id :: 0 <= id < |all| ==> all[id].id == id && all[id].Mirrors(state.entries[id]))
      && accounts.Keys == state.accounts.Keys
      && (forall a :: a in accounts ==> state.accounts[a] < |all| && accounts[a] == all[state.accounts[a]])
    }

    constructor ()
      ensures Valid() && accounts == map[] && !closed && state == Machine.INIT && all == []
    {
      accounts, closed, events, eventsClosed := map[], false, [], false;
      all, state, trace := [], Machine.INIT, [];
    }

    /** Records a step of the machine; the fields must follow. */
    ghost method Note(e: Machine.Event)
      requires Reached(trace, state) && Machine.Enabled(state, e)
      modifies this`state, this`trace
      ensures Reached(trace, state)
      ensures trace == old(trace) + [e] && state == Machine.Step(old(state), e)
    {
      ReachedSnoc(trace, state, e);
      state := Machine.Step(state, e);
      trace := trace + [e];
    }

    /** Records the end of one of Close's loops. */
    ghost method NoteCloserEnds(list: seq<nat>)
      requires Reached(trace, state)
      requires state.closer == Machine.Stopping(list, |list|) || state.closer == Machine.Waiting(list, |list|)
      modifies this`state, this`trace
      ensures Reached(trace, state) && trace == old(trace) + [Machine.CloserEnds]
      ensures state == old(state).(
                         closer := if old(state).closer.Stopping? then Machine.Waiting(list, 0)
                                   else Machine.EventsClosed(list))
    {
      Note(Machine.CloserEnds);
    }

    /** Records a worker's step: only its own entry of the machine changes. */
    ghost method NoteWork(id: nat, step: Machine.WorkerStep)
      requires Reached(trace, state) && id < |state.entries| && Machine.CanWork(state.entries[id], state.closed, step)
      modifies this`state, this`trace
      ensures Reached(trace, state) && trace == old(trace) + [Machine.Work(id, step)]
      ensures var s := old(state);
              state == s.(entries := s.entries[id := Machine.WorkStep(s.entries[id], s.closed, step)],
                          panicked := s.panicked || (step.SendEvent? && s.closer.EventsClosed?))
    {
      Note(Machine.Work(id, step));
    }

    method AddAccount(account: string, configOk: bool) returns (err: Option<PoolError>)
      requires Valid()
      modifies this
      ensures Valid() && closed == old(closed) && events == old(events)
      ensures err == (if !configOk then Some(InvalidConfig) else if closed then Some(PoolClosed)
                      else if account in old(accounts) then Some(AccountExists) else None)
      ensures err.Some? ==> accounts == old(accounts) && all == old(all) && trace == old(trace)
      ensures err.None? ==>
                && trace == old(trace) + [Machine.Add(account)]
                && account in accounts && fresh(accounts[account]) && all == old(all) + [accounts[account]]
                && accounts == old(accounts)[account := accounts[account]]
    {
      if !configOk {
        return Some(InvalidConfig);
      }
      if closed {
        return Some(PoolClosed);
      }
      if account in accounts {
        return Some(AccountExists);
      }
      var entry := new AccountEntry(account, |all|);
      accounts := accounts[account := entry];
      all := all + [entry];
      Note(Machine.Add(account));
      return None;
    }

    /** RemoveAccount's locked section: takes the entry, whose stop channel is open, out of the map. */
    method TakeAccount(account: string) returns (entry: AccountEntry?, err: Option<PoolError>)
      requires Valid()
      modifies this
      ensures Valid() && all == old(all) && closed == old(closed) && events == old(events)
      ensures err == (if closed then Some(PoolClosed)
                      else if account !in old(accounts) then Some(AccountNotFound)
                      else None)
      ensures err.Some? ==> entry == null && accounts == old(accounts) && trace == old(trace)
      ensures err.None? ==>
                && entry == old(accounts)[account] && accounts == old(accounts) - {account}
                && trace == old(trace) + [Machine.Remove(account)]
                && entry in all && !entry.stopped
                && state.removers == old(state).removers + [Machine.Remover(entry.id, Machine.ToStop)]
    {
      if closed {
        return null, Some(PoolClosed);
      }
      if account !in accounts {
        return null, Some(AccountNotFound);
      }
      ReachedMap(trace, state);
      entry := accounts[account];
      accounts := accounts - {account};
      Note(Machine.Remove(account));
      return entry, None;
    }

    /** RemoveAccount up to its wait: the stop channel that it closes is open. */
    method RemoveAccount(account: string) returns (entry: AccountEntry?, err: Option<PoolError>)
      requires Valid()
      modifies this, all
      ensures Valid() && all == old(all) && closed == old(closed) && events == old(events)
      ensures err == (if closed then Some(PoolClosed)
                      else if account !in old(accounts) then Some(AccountNotFound)
                      else None)
      ensures err.Some? ==> entry == null && accounts == old(accounts) && trace == old(trace)
      ensures err.None? ==>
                && entry == old(accounts)[account] && accounts == old(accounts) - {account} && entry.stopped
                && trace == old(trace) + [Machine.Remove(account)] + [Machine.RemoverStops(|old(state).removers|)]
    {
      entry, err := TakeAccount(account);
      if err.None? {
        StopTaken(entry, |state.removers| - 1);
      }
    }

    /** close(entry.stopCh) by the RemoveAccount call number `r`. */
    method StopTaken(entry: AccountEntry, ghost r: nat)
      requires Valid() && entry in all && !entry.stopped
      requires r < |state.removers| && state.removers[r] == Machine.Remover(entry.id, Machine.ToStop)
      modifies this`state, this`trace, entry`stopped
      ensures Valid() && entry.stopped && trace == old(trace) + [Machine.RemoverStops(r)]
    {
      entry.Stop();
      Note(Machine.RemoverStops(r));
    }

    /** RemoveAccount's wait and return, once the removed worker is done. */
    method AwaitTaken(entry: AccountEntry, ghost r: nat)
      requires Valid() && entry in all && entry.done
      requires r < |state.removers| && state.removers[r] == Machine.Remover(entry.id, Machine.Awaiting)
      modifies this`state, this`trace
      ensures Valid() && trace == old(trace) + [Machine.RemoverReturns(r)]
      ensures entry.conn == null && accounts == old(accounts) && forall a :: a in accounts ==> accounts[a] != entry
    {
      ReachedEntry(trace, state, entry.id);
      ReachedRemover(trace, state, r);
      Note(Machine.RemoverReturns(r));
    }

    /** Close's locked section: collects every entry, each once, and empties the map. */
    method TakeAll() returns (entries: seq<AccountEntry>, err: Option<PoolError>)
      requires Valid()
      modifies this
      ensures Valid() && closed && all == old(all) && events == old(events) && eventsClosed == old(eventsClosed)
      ensures err == (if old(closed) then Some(AlreadyClosed) else None)
      ensures err.Some? ==> entries == [] && trace == old(trace) && state == old(state)
      ensures err.None? ==>
                && accounts == map[] && state.closer == Machine.Stopping(Numbers(entries), 0)
                && trace == old(trace) + [Machine.Close(Numbers(entries))]
                && (forall i :: 0 <= i < |entries| ==> entries[i] in all)
                && (forall i, j :: 0 <= i < j < |entries| ==> entries[i] != entries[j])
    {
      if closed {
        return [], Some(AlreadyClosed);
      }
      closed := true;
      entries := [];
      ReachedMap(trace, state);
      ReachedCloser(trace, state);
      var todo := accounts.Keys;
      while todo != {}
        invariant todo <= accounts.Keys && accounts == old(accounts) && all == old(all) && events == old(events)
        invariant state == old(state) && trace == old(trace) && closed && eventsClosed == old(eventsClosed)
        invariant forall i :: 0 <= i < |entries| ==> entries[i] in all
        invariant Collected(state.accounts, todo, Numbers(entries))
        decreases todo
      {
        var a :| a in todo;
        CollectOneMore(state.accounts, todo, Numbers(entries), a);
        assert accounts[a].id == state.accounts[a];
        NumbersSnoc(entries, accounts[a]);
        todo := todo - {a};
        entries := entries + [accounts[a]];
      }
      CollectedAll(state, Numbers(entries));
      DistinctNumbers(entries);
      accounts := map[];
      Note(Machine.Close(Numbers(entries)));
      return entries, None;
    }

    /** Close's first loop: every stop channel it closes is open. */
    method StopAll(entries: seq<AccountEntry>)
      requires Valid() && state.closer == Machine.Stopping(Numbers(entries), 0)
      requires forall i :: 0 <= i < |entries| ==> entries[i] in all
      requires forall i, j :: 0 <= i < j < |entries| ==> entries[i] != entries[j]
      modifies this`state, this`trace, entries`stopped
      ensures Valid() && state.closer == Machine.Waiting(Numbers(entries), 0)
      ensures trace == Then(old(trace), Machine.CloserStops, |entries|) + [Machine.CloserEnds]
      ensures forall i :: 0 <= i < |entries| ==> entries[i].stopped && !old(entries[i].stopped)
    {
      CollectedAreOpen(entries);
      StopEach(entries);
      NoteStops(Numbers(entries));
    }

    method StopEach(entries: seq<AccountEntry>)
      requires forall i :: 0 <= i < |entries| ==> !entries[i].stopped
      requires forall i, j :: 0 <= i < j < |entries| ==> entries[i] != entries[j]
      modifies entries`stopped
      ensures forall i :: 0 <= i < |entries| ==> entries[i].stopped
    {
      for i := 0 to |entries|
        invariant forall k :: 0 <= k < |entries| ==> (entries[k].stopped <==> k < i)
      {
        entries[i].Stop();
      }
    }

    lemma CollectedAreOpen(entries: seq<AccountEntry>)
      requires Valid() && state.closer == Machine.Stopping(Numbers(entries), 0)
      requires forall i :: 0 <= i < |entries| ==> entries[i] in all
      ensures forall i :: 0 <= i < |entries| ==> !entries[i].stopped
      ensures forall k :: 0 <= k < |all| ==> (k in Numbers(entries) <==> all[k] in entries)
    {
      ReachedCloser(trace, state);
      forall i | 0 <= i < |entries|
        ensures !entries[i].stopped && entries[i].id in Numbers(entries)
      {
        assert Numbers(entries)[i] == entries[i].id;
      }
      forall k | 0 <= k < |all|
        ensures k in Numbers(entries) <==> all[k] in entries
      {
        if k in Numbers(entries) {
          var i :| 0 <= i < |entries| && Numbers(entries)[i] == k;
          assert entries[i] == all[k];
        }
      }
    }

    /** Records Close's first loop. */
    ghost method NoteStops(list: seq<nat>)
      requires Reached(trace, state) && state.closer == Machine.Stopping(list, 0)
      modifies this`state, this`trace
      ensures Reached(trace, state)
      ensures trace == Then(old(trace), Machine.CloserStops, |list|) + [Machine.CloserEnds]
      ensures state == old(state).(entries := state.entries, closer := Machine.Waiting(list, 0))
      ensures StoppedToo(old(state).entries, state.entries, list)
    {
      for i := 0 to |list|
        invariant Reached(trace, state) && trace == Then(old(trace), Machine.CloserStops, i)
        invariant state == old(state).(entries := state.entries, closer := Machine.Stopping(list, i))
        invariant StoppedToo(old(state).entries, state.entries, list[..i])
      {
        ReachedCloser(trace, state);
        StopOneMore(old(state).entries, state.entries, list, i);
        Note(Machine.CloserStops);
      }
      assert list[..|list|] == list;
      NoteCloserEnds(list);
    }

    /** Close's second loop, once every collected worker is done, and the close of the events channel. */
    method AwaitAll(entries: seq<AccountEntry>)
      requires Valid() && state.closer == Machine.Waiting(Numbers(entries), 0)
      requires forall i :: 0 <= i < |entries| ==> entries[i] in all && entries[i].done
      modifies this`state, this`trace, this`eventsClosed
      ensures Valid() && eventsClosed && !old(eventsClosed)
      ensures trace == Then(old(trace), Machine.CloserWaits, |entries|) + [Machine.CloserEnds]
    {
      for i := 0 to |entries|
        invariant Valid() && state.closer == Machine.Waiting(Numbers(entries), i)
        invariant trace == Then(old(trace), Machine.CloserWaits, i)
      {
        AwaitOne(entries, i);
      }
      CloseEvents(Numbers(entries));
    }

    /** close(p.events). */
    method CloseEvents(ghost list: seq<nat>)
      requires Valid() && state.closer == Machine.Waiting(list, |list|)
      modifies this`state, this`trace, this`eventsClosed
      ensures Valid() && eventsClosed && !old(eventsClosed)
      ensures trace == old(trace) + [Machine.CloserEnds]
    {
      eventsClosed := true;
      NoteCloserEnds(list);
    }

    ghost method AwaitOne(entries: seq<AccountEntry>, i: nat)
      requires Valid() && i < |entries| && state.closer == Machine.Waiting(Numbers(entries), i)
      requires entries[i] in all && entries[i].done
      modifies this`state, this`trace
      ensures Valid() && state.closer == Machine.Waiting(Numbers(entries), i + 1)
      ensures trace == old(trace) + [Machine.CloserWaits]
    {
      assert Numbers(entries)[i] == entries[i].id;
      Note(Machine.CloserWaits);
    }

    // ---- sections of a worker ------------------------------------------------

    ghost predicate At(entry: AccountEntry, pc: Machine.WorkerPc)
      reads this
    {
      entry.id < |all| && all[entry.id] == entry && |all| == |state.entries| && state.entries[entry.id].pc == pc
    }

    /** handleConnectionError, after a failed connection. */
    method HandleConnectionError(entry: AccountEntry)
      requires Valid() && At(entry, Machine.Connecting)
      modifies this`state, this`trace, entry
      ensures Valid() && trace == old(trace) + [Machine.Work(entry.id, Machine.ConnectFails)]
      ensures entry.retryCount == old(entry.retryCount) + 1
      ensures entry.backoff == Min(Pow2(entry.retryCount), MAX_BACKOFF)
    {
      ReachedBackoff(trace, state, entry.id);
      entry.retryCount := entry.retryCount + 1;
      var doubled := entry.backoff * 2;
      entry.backoff := if doubled > MAX_BACKOFF then MAX_BACKOFF else doubled;
      NoteWork(entry.id, Machine.ConnectFails);
    }

    /** The locked section after a connection is established: the slot was empty. */
    method Established(entry: AccountEntry, c: IdleConnection)
      requires Valid() && At(entry, Machine.Connected)
      modifies this`state, this`trace, entry
      ensures Valid() && trace == old(trace) + [Machine.Work(entry.id, Machine.Publish)]
      ensures entry.conn == c && old(entry.conn) == null && entry.retryCount == 0 && entry.backoff == INITIAL_BACKOFF
    {
      ReachedEntry(trace, state, entry.id);
      entry.conn := c;
      entry.backoff := INITIAL_BACKOFF;
      entry.retryCount := 0;
      NoteWork(entry.id, Machine.Publish);
    }

    /** forwardEvents' closed-check after a receive. */
    method CheckClosed(entry: AccountEntry) returns (goOn: bool)
      requires Valid() && At(entry, Machine.GotEvent)
      modifies this`state, this`trace
      ensures Valid() && trace == old(trace) + [Machine.Work(entry.id, Machine.CheckClosed)]
      ensures goOn == !closed && At(entry, if goOn then Machine.Sending else Machine.Leaving)
      ensures state.closer == old(state.closer) && state.panicked == old(state.panicked)
    {
      ReachedEntry(trace, state, entry.id);
      NoteWork(entry.id, Machine.CheckClosed);
      goOn := !closed;
    }

    /** The send after it, at any later time: a full channel drops, and a closed one panics. */
    method Send(entry: AccountEntry, event: EventType) returns (panics: bool)
      requires Valid() && At(entry, Machine.Sending)
      modifies this`state, this`trace, this`events
      ensures Valid() && At(entry, Machine.Forwarding)
      ensures trace == old(trace) + [Machine.Work(entry.id, Machine.SendEvent)]
      ensures panics == eventsClosed && state.panicked == (old(state.panicked) || panics)
      ensures events == if eventsClosed || |old(events)| >= 100 then old(events) else old(events) + [event]
    {
      ReachedEntry(trace, state, entry.id);
      panics := eventsClosed;
      if !panics && |events| < CHANNEL_CAPACITY {
        events := events + [event];
      }
      NoteWork(entry.id, Machine.SendEvent);
    }

    /** Both in a row: a closed pool gets nothing, and the send finds the channel open. */
    method Forward(entry: AccountEntry, event: EventType) returns (goOn: bool)
      requires Valid() && At(entry, Machine.GotEvent)
      modifies this`state, this`trace, this`events
      ensures Valid() && goOn == !closed && At(entry, if goOn then Machine.Forwarding else Machine.Leaving)
      ensures state.panicked == old(state.panicked)
      ensures events == if closed || |old(events)| >= 100 then old(events) else old(events) + [event]
    {
      ReachedCloser(trace, state);
      goOn := CheckClosed(entry);
      if goOn {
        var panics := Send(entry, event);
        assert !panics;
      }
    }

    /** The locked section after forwardEvents. */
    method Clear(entry: AccountEntry)
      requires Valid() && At(entry, Machine.Leaving)
      modifies this`state, this`trace, entry`conn
      ensures Valid() && trace == old(trace) + [Machine.Work(entry.id, Machine.Clear)]
      ensures entry.conn == null && old(entry.conn) != null
    {
      ReachedEntry(trace, state, entry.id);
      entry.conn := null;
      NoteWork(entry.id, Machine.Clear);
    }

    /** closeConnection at the loop head, and the exit after it: there is never a connection to close. */
    method CloseConnectionAndExit(entry: AccountEntry)
      requires Valid() && At(entry, Machine.LoopTop) && (entry.stopped || closed)
      modifies this`state, this`trace, entry
      ensures Valid() && trace == old(trace) + [Machine.Work(entry.id, Machine.TopExit)]
      ensures old(entry.conn) == null && entry.conn == null && entry.done
    {
      ReachedEntry(trace, state, entry.id);
      entry.conn := null;
      entry.done := true;
      NoteWork(entry.id, Machine.TopExit);
    }

    /** The steps of a worker that touch no shared field: dialling, waiting, receiving, closing its own connection. */
    ghost method Local(entry: AccountEntry, step: Machine.WorkerStep)
      requires Valid() && entry.id < |all| && all[entry.id] == entry
      requires Machine.Enabled(state, Machine.Work(entry.id, step))
      requires step.TopConnect? || step.ConnectOk? || step.BackoffElapsed? || step.ForwardEvent? || step.ForwardStop?
      modifies this`state, this`trace
      ensures Valid() && trace == old(trace) + [Machine.Work(entry.id, step)]
    {
      NoteWork(entry.id, step);
    }

    /** A return of runAccount that leaves the slot alone: IDLE is unsupported, or stopped while backing off. */
    method Exit(entry: AccountEntry, ghost step: Machine.WorkerStep)
      requires Valid() && entry.id < |all| && all[entry.id] == entry
      requires Machine.Enabled(state, Machine.Work(entry.id, step)) && (step.ConnectUnsupported? || step.BackoffExit?)
      modifies this`state, this`trace, entry`done
      ensures Valid() && trace == old(trace) + [Machine.Work(entry.id, step)]
      ensures entry.done && entry.conn == null
    {
      ReachedEntry(trace, state, entry.id);
      entry.done := true;
      NoteWork(entry.id, step);
    }

    // ---- readers -------------------------------------------------------------

    /** The accounts whose workers are forwarding events, or about to stop doing so. */
    ghost function Forwarding(): set<string>
      requires Valid()
      reads this, all
    {
      set a | a in accounts && IsForwarding(state.entries[state.accounts[a]].pc)
    }

    ghost function Connected(): set<string>
      reads this, accounts.Values
    {
      set a | a in accounts && accounts[a].conn != null
    }

    lemma ConnectedAreForwarding()
      requires Valid()
      ensures Connected() == Forwarding()
    {
      forall a | a in accounts
        ensures a in Connected() <==> a in Forwarding()
      {
        ReachedEntry(trace, state, state.accounts[a]);
      }
    }

    method ConnectedAccounts() returns (count: nat)
      requires Valid()
      ensures count == |Forwarding()| && count <= |accounts|
    {
      count := CountConnected();
      ConnectedAreForwarding();
    }

    /** The loop of ConnectedAccounts. */
    method CountConnected() returns (count: nat)
      ensures count == |Connected()| && count <= |accounts|
    {
      count := 0;
      var todo := accounts.Keys;
      ghost var seen: set<string> := {};
      while todo != {}
        invariant todo <= accounts.Keys
        invariant seen == set a | a in accounts && a !in todo && accounts[a].conn != null
        invariant count == |seen|
        decreases todo
      {
        var a :| a in todo;
        todo := todo - {a};
        if accounts[a].conn != null {
          assert a !in seen;
          seen := seen + {a};
          count := count + 1;
        }
      }
      assert seen == Connected();
      SubsetSize(seen, accounts.Keys);
    }
  }

  /** Besides the workers that were stopped before, those in `list` are; nothing else differs. */
  predicate StoppedToo(before: seq<Machine.Entry>, after: seq<Machine.Entry>, list: seq<nat>) {
    && |after| == |before|
    && forall k :: 0 <= k < |before| ==>
         && after[k] == before[k].(stopCloses := after[k].stopCloses)
         && (after[k].Stopped() <==> before[k].Stopped() || k in list)
  }

  lemma StopOneMore(before: seq<Machine.Entry>, after: seq<Machine.Entry>, list: seq<nat>, i: nat)
    requires i < |list| && list[i] < |after| && StoppedToo(before, after, list[..i])
    ensures StoppedToo(before, Machine.CloseStop(after, list[i]), list[..i + 1])
  {
    assert list[..i + 1] == list[..i] + [list[i]];
  }

  /** The trace, and then the same step `n` times. */
  function Then(trace: seq<Machine.Event>, e: Machine.Event, n: nat): seq<Machine.Event> {
    if n == 0 then trace else Then(trace, e, n - 1) + [e]
  }

  predicate IsForwarding(pc: Machine.WorkerPc) {
    Machine.InForwarding(pc) || pc == Machine.Leaving
  }

  // ---------------------------------------------------------------------------
  // The entries that Close collects
  // ---------------------------------------------------------------------------

  ghost function Numbers(entries: seq<AccountEntry>): seq<nat> {
    seq(|entries|, i requires 0 <= i < |entries| => entries[i].id)
  }

  lemma NumbersSnoc(entries: seq<AccountEntry>, entry: AccountEntry)
    ensures Numbers(entries + [entry]) == Numbers(entries) + [entry.id]
  {
  }

  /** `list` holds the numbers of the accounts that are not in `todo`, each once. */
  ghost predicate Collected(accounts: map<string, nat>, todo: set<string>, list: seq<nat>) {
    && Machine.IsDistinct(list)
    && forall id: nat :: id in list <==> exists a :: a in accounts && a !in todo && accounts[a] == id
  }

  lemma CollectOneMore(accounts: map<string, nat>, todo: set<string>, list: seq<nat>, a: string)
    requires Collected(accounts, todo, list) && a in todo && a in accounts
    requires forall b :: b in accounts && b != a ==> accounts[b] != accounts[a]
    ensures Collected(accounts, todo - {a}, list + [accounts[a]])
  {
    var more, rest := list + [accounts[a]], todo - {a};
    assert accounts[a] !in list;
    forall id: nat
      ensures id in more <==> exists b :: b in accounts && b !in rest && accounts[b] == id
    {
      if id in list {
        var b :| b in accounts && b !in todo && accounts[b] == id;
        assert b !in rest;
      } else if id == accounts[a] {
        assert a !in rest;
      }
    }
  }

  lemma CollectedAll(s: Machine.State, list: seq<nat>)
    requires Collected(s.accounts, {}, list)
    ensures Machine.IsDistinct(list) && forall id: nat :: id in list <==> Machine.InMap(s, id)
  {
    forall id: nat
      ensures id in list <==> Machine.InMap(s, id)
    {
      if Machine.InMap(s, id) {
        var a :| a in s.accounts && s.accounts[a] == id;
        assert a !in {};
      }
    }
  }

  lemma DistinctNumbers(entries: seq<AccountEntry>)
    requires Machine.IsDistinct(Numbers(entries))
    ensures forall i, j :: 0 <= i < j < |entries| ==> entries[i] != entries[j]
  {
    forall i, j | 0 <= i < j < |entries|
      ensures entries[i] != entries[j]
    {
      assert Numbers(entries)[i] != Numbers(entries)[j];
    }
  }

  lemma {:induction false} SubsetSize(a: set<string>, b: set<string>)
    requires a <= b
    ensures |a| <= |b|
    decreases b
  {
    if x :| x in a {
      SubsetSize(a - {x}, b - {x});
    }
  }
}
