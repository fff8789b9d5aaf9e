/** The send-or-poll protocol of delegator.go: a phase tracks one transaction id,
    polls it, and forgets it when it expires or reverts. */
module Transactions {
  import opened Common
  import opened Lifecycle

  // 0 is the zero id: nothing is tracked.
  datatype Tx = Tx(id: nat, receipt: Option<Receipt>, pollAttempts: nat)

  const FRESH := Tx(0, None, 0)
  const EXPIRATION: nat := 6   // Stack.DefaultExpiration

  type TxId = n: nat | n > 0 witness 1

  datatype Poll = NotFound | PollError | Mined(receipt: Receipt, revertAllowed: bool)

  // What the network answers: to a send, and to a poll.
  datatype Net = Net(send: Option<TxId>, poll: Poll)

  datatype Event = Sent(id: nat) | FailedPoll(id: nat) | Forgotten(id: nat) | Received(id: nat)

  datatype Polled = Polled(tx: Tx, receipt: Option<Receipt>, events: seq<Event>)

  function HandleReceiptError(tx: Tx): Polled {
    if tx.pollAttempts > EXPIRATION then Polled(FRESH, None, [FailedPoll(tx.id), Forgotten(tx.id)])
    else Polled(tx.(pollAttempts := tx.pollAttempts + 1), None, [FailedPoll(tx.id)])
  }

  /** `allows` is false when the caller lists no revert that it puts up with. */
  function SendOrPoll(tx: Tx, net: Net, allows: bool): Polled {
    if tx.id == 0 then
      match net.send
      case None => Polled(tx, None, [])
      case Some(id) => Polled(tx.(id := id), None, [Sent(id)])
    else
      match net.poll
      case NotFound => HandleReceiptError(tx)
      case PollError => HandleReceiptError(tx)
      case Mined(r, allowed) =>
        if !r.reverted || (allows && allowed) then Polled(tx, Some(r), [Received(tx.id)])
        else Polled(FRESH, None, [Forgotten(tx.id)])
  }

  // ---------- one call, over its inputs ----------

  /** What one call makes of the record and the receipt it hands back. */
  ghost predicate Moves(tx: Tx, net: Net, allows: bool, tx': Tx, receipt: Option<Receipt>) {
    if tx.id == 0 then
      && receipt.None?
      && tx' == if net.send.Some? then Tx(net.send.value, tx.receipt, tx.pollAttempts) else tx
    else if !net.poll.Mined? then
      && receipt.None?
      && tx' == if tx.pollAttempts <= 6 then Tx(tx.id, tx.receipt, tx.pollAttempts + 1) else Tx(0, None, 0)
    else if net.poll.receipt.reverted && !(allows && net.poll.revertAllowed) then
      receipt.None? && tx' == Tx(0, None, 0)
    else
      receipt == Some(net.poll.receipt) && tx' == tx
  }

  lemma SendOrPollMoves(tx: Tx, net: Net, allows: bool)
    ensures Moves(tx, net, allows, SendOrPoll(tx, net, allows).tx, SendOrPoll(tx, net, allows).receipt)
  {
  }

  /** The record after n polls that find nothing. */
  function AfterFailures(tx: Tx, n: nat): Tx {
    if n == 0 then tx else SendOrPoll(AfterFailures(tx, n - 1), Net(None, NotFound), true).tx
  }

  /** A transaction survives seven failed polls and is forgotten on the eighth. */
  lemma {:induction false} ForgottenOnTheEighth(id: TxId, n: nat)
    ensures n <= 7 ==> AfterFailures(Tx(id, None, 0), n) == Tx(id, None, n)
    ensures n >= 8 ==> AfterFailures(Tx(id, None, 0), n) == Tx(0, None, 0)
  {
    if n > 0 { ForgottenOnTheEighth(id, n - 1); }
  }

  // ---------- what the log of a phase looks like ----------

  /** The id tracked after these events: the last one sent, unless forgotten since. */
  function Tracked(log: seq<Event>): nat {
    if log == [] then 0 else
      match log[|log| - 1]
      case Sent(id) => id
      case Forgotten(_) => 0
      case _ => Tracked(log[..|log| - 1])
  }

  /** Failed polls since the last send. */
  function Failures(log: seq<Event>): nat {
    if log == [] || log[|log| - 1].Sent? then 0
    else Failures(log[..|log| - 1]) + if log[|log| - 1].FailedPoll? then 1 else 0
  }

  /** Nothing is sent while an id is tracked; only the tracked id is polled,
      received or forgotten; after EXPIRATION + 2 failed polls it is forgotten. */
  predicate MayFollow(log: seq<Event>, e: Event) {
    && e.id != 0
    && (if e.Sent? then Tracked(log) == 0 else e.id == Tracked(log))
    && (Tracked(log) != 0 && Failures(log) >= EXPIRATION + 2 ==> e.Forgotten?)
  }

  predicate WellBehaved(log: seq<Event>) {
    log == [] || (WellBehaved(log[..|log| - 1]) && MayFollow(log[..|log| - 1], log[|log| - 1]))
  }

  ghost predicate Protocol(tx: Tx, log: seq<Event>) {
    && WellBehaved(log)
    && tx.id == Tracked(log)
    && (tx.id == 0 ==> tx.pollAttempts == 0 && tx.receipt == None)
    && (tx.id != 0 ==> tx.pollAttempts == Failures(log) <= EXPIRATION + 1)
  }

  lemma Append(log: seq<Event>, e: Event)
    ensures WellBehaved(log + [e]) == (WellBehaved(log) && MayFollow(log, e))
    ensures Tracked(log + [e]) == (if e.Sent? then e.id else if e.Forgotten? then 0 else Tracked(log))
    ensures Failures(log + [e]) == (if e.Sent? then 0 else Failures(log) + if e.FailedPoll? then 1 else 0)
  {
    assert (log + [e])[..|log|] == log;
  }

  /** One call keeps the protocol, whatever the network answers. */
  lemma SendOrPollKeepsProtocol(tx: Tx, log: seq<Event>, net: Net, allows: bool)
    requires Protocol(tx, log) && tx.receipt == None
    ensures var r := SendOrPoll(tx, net, allows);
            && Protocol(r.tx, log + r.events) && r.tx.receipt == None
            && (r.receipt.Some? ==> r.tx.id != 0)
  {
    hide WellBehaved, Tracked, Failures;
    var r := SendOrPoll(tx, net, allows);
    if r.events == [] {
      assert log + [] == log;
    } else if |r.events| == 1 {
      Append(log, r.events[0]);
      assert r.events == [r.events[0]];
    } else {
      AppendTwo(log, FailedPoll(tx.id), Forgotten(tx.id));
      assert r.events == [FailedPoll(tx.id), Forgotten(tx.id)];
    }
  }

  lemma AppendTwo(log: seq<Event>, e: Event, f: Event)
    ensures WellBehaved(log + [e, f]) == (WellBehaved(log) && MayFollow(log, e) && MayFollow(log + [e], f))
    ensures Tracked(log + [e, f]) == Tracked(log + [e] + [f]) && Failures(log + [e, f]) == Failures(log + [e] + [f])
    ensures Tracked(log + [e]) == (if e.Sent? then e.id else if e.Forgotten? then 0 else Tracked(log))
    ensures Failures(log + [e]) == (if e.Sent? then 0 else Failures(log) + if e.FailedPoll? then 1 else 0)
    ensures Tracked(log + [e, f]) == (if f.Sent? then f.id else if f.Forgotten? then 0 else Tracked(log + [e]))
  {
    Append(log, e);
    Append(log + [e], f);
    assert log + [e, f] == log + [e] + [f];
  }

  /** In a well-behaved log at most EXPIRATION + 2 polls of one id have failed,
      at every moment: the count since the last send never exceeds it. */
  lemma {:induction false} FailuresBounded(log: seq<Event>, k: nat)
    requires WellBehaved(log) && k <= |log|
    ensures Failures(log[..k]) <= EXPIRATION + 2
    decreases |log|
  {
    if k == |log| {
      assert log[..k] == log;
      if log != [] {
        FailuresBounded(log[..|log| - 1], |log| - 1);
        assert log[..|log| - 1][..|log| - 1] == log[..|log| - 1];
      }
    } else {
      FailuresBounded(log[..|log| - 1], k);
      assert log[..|log| - 1][..k] == log[..k];
    }
  }
}
