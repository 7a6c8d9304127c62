/**
 Polling of accounts without IDLE (internal/sync/poller.go, poll and emitEvent), against a
 specification over the whole history of poll results.
 */
module Poller {
  import opened Common

  /** A STATUS answer. */
  datatype Status = Status(uidNext: nat, numMessages: nat)

  /** The results of an account's polls so far; a failed poll is None. */
  type History = seq<Option<Status>>

  const CHANNEL_CAPACITY := 100

  // ---------------------------------------------------------------------------
  // The specification
  // ---------------------------------------------------------------------------

  function LastSuccess(h: History): Option<Status> {
    if h == [] then None else if h[|h| - 1].Some? then h[|h| - 1] else LastSuccess(h[..|h| - 1])
  }

  /** Failed polls before the first success. */
  function EarlyFailures(h: History): nat {
    if h == [] then 0
    else EarlyFailures(h[..|h| - 1]) + if LastSuccess(h).None? then 1 else 0
  }

  /** After `h`, a poll with this result tries to signal new messages. */
  predicate Signals(h: History, result: Option<Status>) {
    && result.Some?
    && match LastSuccess(h)
       case None => EarlyFailures(h) > 0 && result.value.numMessages > 0
       case Some(seen) => result.value.uidNext > seen.uidNext || result.value.numMessages > seen.numMessages
  }

  /** All signals of a history, by the message counts they carry. */
  function AllSignals(h: History): seq<nat> {
    if h == [] then []
    else
      var n := |h| - 1;
      AllSignals(h[..n]) + if Signals(h[..n], h[n]) then [h[n].value.numMessages] else []
  }

  // ---------------------------------------------------------------------------
  // The code
  // ---------------------------------------------------------------------------

  class PollerEntry {
    var uidNext: nat
    var numMessages: nat
    var initialized: bool
    var failedPolls: nat

    ghost var history: History
    ghost var signals: seq<nat>  // attempts to emit, by the counts they carry

    ghost predicate Valid()
      reads this
    {
      var last := LastSuccess(history);
      && (initialized <==> last.Some?)
      && (initialized ==> Status(uidNext, numMessages) == last.value)
      && failedPolls == EarlyFailures(history)
      && signals == AllSignals(history)
    }

    constructor ()
      ensures Valid() && history == []
    {
      uidNext, numMessages, initialized, failedPolls := 0, 0, false, 0;
      history, signals := [], [];
    }
  }

  class Poller {
    var events: seq<nat>  // the shared channel, by the counts its events carry
    var closed: bool

    constructor ()
      ensures events == [] && !closed
    {
      events, closed := [], false;
    }

    /** emitEvent: dropped when the poller is closed or the channel is full. */
    method EmitEvent(entry: PollerEntry, numMessages: nat)
      modifies this`events, entry`signals
      ensures entry.signals == old(entry.signals) + [numMessages]
      ensures events == if closed || |old(events)| >= 100 then old(events) else old(events) + [numMessages]
    {
      entry.signals := entry.signals + [numMessages];
      if closed {
        return;
      }
      if |events| < CHANNEL_CAPACITY {
        events := events + [numMessages];
      }
    }

    /** poll, given what fetchStatus returns. */
    method Poll(entry: PollerEntry, result: Option<Status>)
      requires entry.Valid()
      modifies this`events, entry
      ensures entry.Valid()
      ensures entry.history == old(entry.history) + [result]
      // when it tries to emit, by the fields
      ensures old(entry.initialized) ==>
                entry.signals == old(entry.signals)
                                 + if result.Some? && (|| result.value.uidNext > old(entry.uidNext)
                                                       || result.value.numMessages > old(entry.numMessages))
                                   then [result.value.numMessages] else []
      ensures !old(entry.initialized) ==>
                entry.signals == old(entry.signals)
                                 + if result.Some? && old(entry.failedPolls) > 0 && result.value.numMessages > 0
                                   then [result.value.numMessages] else []
      // what it remembers
      ensures entry.initialized == (old(entry.initialized) || result.Some?)
      ensures result.Some? ==>
                && entry.uidNext == result.value.uidNext && entry.numMessages == result.value.numMessages
                && entry.failedPolls == old(entry.failedPolls)
      ensures result.None? ==>
                && entry.uidNext == old(entry.uidNext) && entry.numMessages == old(entry.numMessages)
                && entry.failedPolls == old(entry.failedPolls) + if old(entry.initialized) then 0 else 1
      // what reaches the channel
      ensures entry.signals == old(entry.signals) ==> events == old(events)
      ensures entry.signals != old(entry.signals) ==>
                events == if closed || |old(events)| >= 100 then old(events)
                          else old(events) + [result.value.numMessages]
    {
      entry.history := entry.history + [result];
      assert entry.history[..|entry.history| - 1] == old(entry.history);
      if result.None? {
        if !entry.initialized {
          entry.failedPolls := entry.failedPolls + 1;
        }
        return;
      }
      var status := result.value;
      if !entry.initialized {
        entry.uidNext := status.uidNext;
        entry.numMessages := status.numMessages;
        entry.initialized := true;
        if entry.failedPolls > 0 && status.numMessages > 0 {
          EmitEvent(entry, status.numMessages);
        }
        return;
      }
      if status.uidNext > entry.uidNext || status.numMessages > entry.numMessages {
        EmitEvent(entry, status.numMessages);
      }
      entry.uidNext := status.uidNext;
      entry.numMessages := status.numMessages;
    }
  }

  // ---------------------------------------------------------------------------
  // What the specification means
  // ---------------------------------------------------------------------------

  function Successes(h: History): History {
    if h == [] then [] else Successes(h[..|h| - 1]) + if h[|h| - 1].Some? then [h[|h| - 1]] else []
  }

  /** The history with all failures after the first success forgotten, and those before it counted once. */
  function Condensed(h: History): History {
    (if EarlyFailures(h) > 0 then [None] else []) + Successes(h)
  }

  lemma {:induction false} SuccessesOnly(h: History, prefix: History)
    requires prefix == [] || prefix == [None]
    ensures LastSuccess(prefix + Successes(h)) == LastSuccess(h)
    ensures EarlyFailures(prefix + Successes(h)) == |prefix|
    decreases |h|
  {
    if h == [] {
      assert prefix + Successes(h) == prefix;
      if prefix != [] {
        assert prefix[..0] == [];
      }
    } else {
      SuccessesOnly(h[..|h| - 1], prefix);
      var all := prefix + Successes(h);
      if h[|h| - 1].Some? {
        assert all[..|all| - 1] == prefix + Successes(h[..|h| - 1]);
      } else {
        assert all == prefix + Successes(h[..|h| - 1]);
      }
    }
  }

  lemma CondensedKeeps(h: History)
    ensures LastSuccess(Condensed(h)) == LastSuccess(h)
    ensures EarlyFailures(Condensed(h)) > 0 <==> EarlyFailures(h) > 0
  {
    SuccessesOnly(h, if EarlyFailures(h) > 0 then [None] else []);
  }

  /**
   Failures after the first success are invisible, and those before it count only as
   "some": the signals are those of the condensed history.
   */
  lemma {:induction false} FailuresAreInvisible(h: History)
    ensures AllSignals(h) == AllSignals(Condensed(h))
  {
    if h != [] {
      var n := |h| - 1;
      var before, all := Condensed(h[..n]), Condensed(h);
      FailuresAreInvisible(h[..n]);
      CondensedKeeps(h[..n]);
      if h[n].Some? {
        assert all == before + [h[n]];
        assert all[..|all| - 1] == before;
      } else if LastSuccess(h).Some? {
        assert all == before;
      } else {
        NoSuccesses(h);
        NoSuccesses(h[..n]);
      }
    }
  }

  lemma {:induction false} NoSuccesses(h: History)
    requires LastSuccess(h).None?
    ensures Successes(h) == [] && AllSignals(h) == []
    ensures Condensed(h) == if h == [] then [] else [None]
    ensures AllSignals(Condensed(h)) == []
  {
    if h != [] {
      NoSuccesses(h[..|h| - 1]);
      var one: History := [None];
      assert one[..0] == [] && AllSignals(one) == [];
    }
  }

  /** UIDNEXT never falls from one success to a later one. */
  predicate Rising(h: History) {
    forall i, j :: 0 <= i < j < |h| && h[i].Some? && h[j].Some? ==> h[i].value.uidNext <= h[j].value.uidNext
  }

  /** Poll number `i` is the first to see UIDNEXT above `uid`, after a success that did not. */
  predicate Reveals(h: History, i: int, uid: nat) {
    && 0 <= i < |h| && h[i].Some? && LastSuccess(h[..i]).Some?
    && LastSuccess(h[..i]).value.uidNext <= uid < h[i].value.uidNext
  }

  lemma {:induction false} LastSuccessIsAnElement(h: History) returns (i: nat)
    requires LastSuccess(h).Some?
    ensures i < |h| && h[i] == LastSuccess(h) && forall j :: i < j < |h| ==> h[j].None?
  {
    if h[|h| - 1].Some? {
      i := |h| - 1;
    } else {
      i := LastSuccessIsAnElement(h[..|h| - 1]);
    }
  }

  lemma {:induction false} LastSuccessIs(h: History, k: nat)
    requires k < |h| && h[k].Some? && forall j :: k < j < |h| ==> h[j].None?
    ensures LastSuccess(h) == h[k]
    decreases |h|
  {
    if k < |h| - 1 {
      LastSuccessIs(h[..|h| - 1], k);
    }
  }

  /**
   After the first success, a poll signals exactly when it succeeds and exceeds the last
   success before it, in UIDNEXT or count, however many failures lie between the two.
   */
  lemma SignalsExactly(h: History, k: nat, i: nat)
    requires k < i < |h| && h[k].Some? && forall j :: k < j < i ==> h[j].None?
    ensures Signals(h[..i], h[i])
            <==> h[i].Some? && (|| h[i].value.uidNext > h[k].value.uidNext
                                || h[i].value.numMessages > h[k].value.numMessages)
  {
    LastSuccessIs(h[..i], k);
  }

  /** Before it, the first success signals exactly when some poll failed and the mailbox is not empty. */
  lemma FirstSignalExactly(h: History, i: nat)
    requires i < |h| && forall j :: 0 <= j < i ==> h[j].None?
    ensures Signals(h[..i], h[i]) <==> h[i].Some? && i > 0 && h[i].value.numMessages > 0
  {
    AllFailed(h[..i]);
  }

  lemma {:induction false} AllFailed(h: History)
    requires forall j :: 0 <= j < |h| ==> h[j].None?
    ensures LastSuccess(h).None? && EarlyFailures(h) == |h|
  {
    if h != [] {
      AllFailed(h[..|h| - 1]);
    }
  }

  /** A quiet mailbox, polled any number of times, is never signalled. */
  lemma {:induction false} QuietMailboxIsSilent(h: History, status: Status)
    requires forall j :: 0 <= j < |h| ==> h[j] == Some(status)
    ensures AllSignals(h) == []
  {
    if h != [] {
      var n := |h| - 1;
      QuietMailboxIsSilent(h[..n], status);
      if n > 0 {
        SignalsExactly(h, n - 1, n);
      } else {
        FirstSignalExactly(h, n);
      }
    }
  }

  /**
   With UIDNEXT rising, every UID assigned after the first successful poll and before the
   last one is revealed by exactly one poll, and that poll signals.
   */
  lemma EachArrivalIsSignalledOnce(h: History, first: nat, uid: nat) returns (i: nat)
    requires Rising(h)
    requires first < |h| && h[first].Some? && h[first].value.uidNext <= uid
    requires LastSuccess(h).Some? && uid < LastSuccess(h).value.uidNext
    ensures i < |h| && Reveals(h, i, uid) && Signals(h[..i], h[i])
    ensures forall j :: Reveals(h, j, uid) ==> j == i
  {
    i := FindReveal(h, first, uid);
    forall j | Reveals(h, j, uid)
      ensures j == i
    {
      RevealIsUnique(h, i, j, uid);
      RevealIsUnique(h, j, i, uid);
    }
  }

  lemma {:induction false} FindReveal(h: History, first: nat, uid: nat) returns (i: nat)
    requires Rising(h)
    requires first < |h| && h[first].Some? && h[first].value.uidNext <= uid
    requires LastSuccess(h).Some? && uid < LastSuccess(h).value.uidNext
    ensures i < |h| && Reveals(h, i, uid)
  {
    var n := |h| - 1;
    if h[n].Some? && first < n {
      SuccessWithin(h[..n], first);
      if LastSuccess(h[..n]).value.uidNext <= uid {
        i := n;
        return;
      }
    }
    i := FindReveal(h[..n], first, uid);
    assert h[..n][..i] == h[..i];
  }

  lemma {:induction false} SuccessWithin(h: History, k: nat)
    requires k < |h| && h[k].Some?
    ensures LastSuccess(h).Some?
  {
    if k < |h| - 1 {
      SuccessWithin(h[..|h| - 1], k);
    }
  }

  /** A later poll compares with at least what an earlier success saw. */
  lemma LaterStartsHigher(h: History, i: nat, j: nat)
    requires Rising(h) && i < j <= |h| && h[i].Some?
    ensures LastSuccess(h[..j]).Some? && h[i].value.uidNext <= LastSuccess(h[..j]).value.uidNext
  {
    SuccessWithin(h[..j], i);
    var k := LastSuccessIsAnElement(h[..j]);
    assert k >= i by {
      assert h[..j][i] == h[i];
    }
    assert h[..j][k] == h[k];
  }

  lemma RevealIsUnique(h: History, i: int, j: int, uid: nat)
    requires Rising(h) && Reveals(h, i, uid) && Reveals(h, j, uid)
    ensures i >= j
  {
    if i < j {
      LaterStartsHigher(h, i, j);
    }
  }
}
