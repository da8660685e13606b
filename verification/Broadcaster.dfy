/** The MEV-protected broadcaster: the object the scheduler calls once per channel message,
    while a refresher thread replaces the set of blocked leaders.

    The ghost fields are histories: every set of blocked leaders ever stored, and every call
    of PrepareTransactions.
 */
module Broadcaster {
  import opened Prelude
  import opened TpuPayload
  import opened HoldAndRelease
  import opened FanOut
  import opened TransactionStats
  import Shield

  predicate HasBlockedSendTarget(leaders: seq<SocketAddr>, blockedLeaders: set<SocketAddr>)
  {
    exists j :: 0 <= j < |leaders| && leaders[j] in blockedLeaders
  }

  /** What a channel message means to the broadcaster. */
  function ItemOf(encoded: Bytes): Option<Item<Bytes>>
  {
    match Decode(encoded)
    case None => None
    case Some(payload) => Some(Item(payload.WireTransaction(), payload.IsMevProtected()))
  }

  function CallOf(encoded: Bytes, blocked: bool): Call<Bytes>
  {
    Call(ItemOf(encoded), blocked)
  }

  /** A message whose last byte has the protection bit. */
  predicate CarriesFlag(encoded: Bytes)
  {
    encoded != [] && encoded[|encoded| - 1] & 1 == 1
  }

  /** The empty message means nothing; any other means all its bytes but the last, protected exactly
      if the last one has the protection bit. */
  lemma ItemOfMessage(encoded: Bytes)
    ensures ItemOf(encoded) ==
            if encoded == [] then None else Some(Item(encoded[..|encoded| - 1], CarriesFlag(encoded)))
  {
    if encoded != [] {
      FlagBits(Last(encoded));
    }
  }

  datatype SendOutcome = Sent | ShutdownError | ReceiverDropped | OtherError

  datatype Attempt = Attempt(send: Send<Bytes>, outcome: SendOutcome)

  datatype SchedulerError = SchedulerError

  function SendsOf(attempts: seq<Attempt>): (sends: seq<Send<Bytes>>)
    ensures |sends| == |attempts|
    ensures forall n :: 0 <= n < |attempts| ==> sends[n] == attempts[n].send
  {
    seq(|attempts|, n requires 0 <= n < |attempts| => attempts[n].send)
  }

  /** The peers that reported ReceiverDropped. */
  function Dropped(attempts: seq<Attempt>): set<SocketAddr>
  {
    set n | 0 <= n < |attempts| && attempts[n].outcome == ReceiverDropped :: attempts[n].send.leader
  }

  datatype Worker = Worker(id: nat)

  datatype Shutdown = Shutdown(peer: SocketAddr, worker: Worker)

  datatype CacheState = CacheState(workers: map<SocketAddr, Worker>, attempts: seq<Attempt>, shutdowns: seq<Shutdown>)

  /** The connection pool.  Send outcomes are arbitrary; attempts and shutdowns are logged. */
  class WorkersCache {
    var workers: map<SocketAddr, Worker>
    ghost var attempts: seq<Attempt>
    ghost var shutdowns: seq<Shutdown>

    // The state reached from `start` by the given attempts and shutdowns.
    ghost predicate Advanced(start: CacheState, sent: seq<Attempt>, shut: seq<Shutdown>)
      reads this
    {
      && attempts == start.attempts + sent
      && shutdowns == start.shutdowns + shut
      && Pruned(start.workers, sent, workers, shut)
    }

    method TrySendTransactionToAddress(leader: SocketAddr, transaction: Bytes, ghost position: nat)
      returns (outcome: SendOutcome)
      modifies this`attempts
      ensures attempts == old(attempts) + [Attempt(Send(transaction, position, leader), outcome)]
    {
      outcome := *;
      attempts := attempts + [Attempt(Send(transaction, position, leader), outcome)];
    }

    method Pop(peer: SocketAddr) returns (worker: Option<Worker>)
      modifies this`workers
      ensures worker == if peer in old(workers) then Some(old(workers)[peer]) else None
      ensures workers == old(workers) - {peer}
    {
      worker := if peer in workers then Some(workers[peer]) else None;
      workers := workers - {peer};
    }

    method ShutdownWorker(ghost peer: SocketAddr, worker: Worker)
      modifies this`shutdowns
      ensures shutdowns == old(shutdowns) + [Shutdown(peer, worker)]
    {
      shutdowns := shutdowns + [Shutdown(peer, worker)];
    }
  }

  /** A stretch of sends left the cache without exactly the peers that dropped their receiver,
      and shut each removed worker down once. */
  ghost predicate Pruned(before: map<SocketAddr, Worker>, attempts: seq<Attempt>,
                         after: map<SocketAddr, Worker>, shutdowns: seq<Shutdown>)
  {
    && after == before - Dropped(attempts)
    && NoDuplicates(shutdowns)
    && forall s :: s in shutdowns <==> s.peer in Dropped(attempts) && s.peer in before && s.worker == before[s.peer]
  }

  lemma PrunedStep(before: map<SocketAddr, Worker>, attempts: seq<Attempt>, after: map<SocketAddr, Worker>,
                   shutdowns: seq<Shutdown>, next: Attempt)
    requires Pruned(before, attempts, after, shutdowns)
    ensures next.outcome != ReceiverDropped ==> Pruned(before, attempts + [next], after, shutdowns)
    ensures next.outcome == ReceiverDropped ==>
              Pruned(before, attempts + [next], after - {next.send.leader},
                     shutdowns + if next.send.leader in after then [Shutdown(next.send.leader, after[next.send.leader])] else [])
  {
    var attempts' := attempts + [next];
    assert Dropped(attempts') == Dropped(attempts) + if next.outcome == ReceiverDropped then {next.send.leader} else {} by {
      assert forall n :: 0 <= n < |attempts| ==> attempts'[n] == attempts[n];
      assert attempts'[|attempts|] == next;
    }
  }

  /** The first refresh request that panics, or their number. */
  function PanicIndex(ticks: seq<Shield.Replies>): (k: nat)
    ensures k <= |ticks|
    ensures forall i :: 0 <= i < k ==> !Shield.Panics(ticks[i])
    ensures k < |ticks| ==> Shield.Panics(ticks[k])
  {
    if ticks == [] || Shield.Panics(ticks[0]) then 0 else 1 + PanicIndex(ticks[1..])
  }

  /** The sets stored by a stretch of refresh requests. */
  function StoredSets(text: Shield.Pubkey -> string, ticks: seq<Shield.Replies>): seq<set<SocketAddr>>
  {
    if ticks == [] then []
    else
      var r := Shield.GetBlockedIps(text, Last(ticks));
      StoredSets(text, Init(ticks)) + if r.Ok? then [set a | a in r.value] else []
  }

  /** The good ones among these refresh requests, in order. */
  ghost function GoodTicks(ticks: seq<Shield.Replies>): seq<Shield.Replies>
  {
    if ticks == [] then []
    else GoodTicks(Init(ticks)) + if Shield.GoodRefresh(Last(ticks)) then [Last(ticks)] else []
  }

  /** Every good refresh stores a set of its own, in order: exactly the addresses its replies deny. */
  lemma {:induction false} StoredSetsMeaning(text: Shield.Pubkey -> string, ticks: seq<Shield.Replies>)
    ensures |StoredSets(text, ticks)| == |GoodTicks(ticks)|
    ensures forall i :: 0 <= i < |GoodTicks(ticks)| ==>
              && Shield.GoodRefresh(GoodTicks(ticks)[i])
              && forall address :: address in StoredSets(text, ticks)[i] <==> Shield.Denies(text, GoodTicks(ticks)[i], address)
  {
    hide Shield.GoodRefresh, Shield.Denies, Shield.GetBlockedIps;
    if ticks != [] {
      StoredSetsMeaning(text, Init(ticks));
      Shield.RefreshMeaning(text, Last(ticks));
    }
  }

  /** The index of the latest good refresh, or -1. */
  function LatestGood(text: Shield.Pubkey -> string, ticks: seq<Shield.Replies>): (k: int)
    ensures -1 <= k < |ticks|
  {
    if ticks == [] then -1
    else if Shield.GetBlockedIps(text, Last(ticks)).Ok? then |ticks| - 1
    else LatestGood(text, Init(ticks))
  }

  /** After any stretch of refresh requests the newest stored set is that of the latest good one:
      exactly the addresses its replies deny.  Without a good one nothing is stored. */
  lemma {:induction false} NewestSetMeaning(text: Shield.Pubkey -> string, ticks: seq<Shield.Replies>)
    ensures var k := LatestGood(text, ticks);
            && (StoredSets(text, ticks) == [] <==> k == -1)
            && (forall i :: k < i < |ticks| ==> !Shield.GoodRefresh(ticks[i]))
            && (k >= 0 ==>
                  && Shield.GoodRefresh(ticks[k])
                  && forall address :: address in Last(StoredSets(text, ticks)) <==> Shield.Denies(text, ticks[k], address))
  {
    if ticks != [] {
      NewestSetMeaning(text, Init(ticks));
      Shield.RefreshMeaning(text, Last(ticks));
    }
  }

  class MevProtectedBroadcaster {
    var blockedLeaders: set<SocketAddr>
    var bufferedTransactions: seq<Bytes>
    const stats: Statistics
    ghost var versions: seq<set<SocketAddr>>
    ghost var calls: seq<Call<Bytes>>
    // The buffer counters, which are equal, at construction.
    ghost const countedBefore: nat

    ghost predicate Valid()
      reads this, stats
    {
      && versions != [] && Last(versions) == blockedLeaders
      && bufferedTransactions == Buffer(calls)
      && stats.Valid()
      && stats.exact.mevBuffered == countedBefore + |AllKept(calls)|
      && stats.exact.mevBuffered == stats.exact.mevReleased + |bufferedTransactions|
      && stats.mevBufferSize == |bufferedTransactions|
    }

    constructor (stats: Statistics)
      requires stats.Valid() && stats.exact.mevBuffered == stats.exact.mevReleased && stats.mevBufferSize == 0
      ensures Valid() && this.stats == stats
      ensures versions == [{}] && calls == [] && countedBefore == stats.exact.mevBuffered
    {
      blockedLeaders, bufferedTransactions := {}, [];
      countedBefore := stats.exact.mevBuffered;
      this.stats := stats;
      versions, calls := [{}], [];
    }

    /** The refresher stores a new set. */
    method Store(leaders: set<SocketAddr>)
      requires Valid()
      modifies this`blockedLeaders, this`versions
      ensures Valid() && blockedLeaders == leaders && versions == old(versions) + [leaders]
    {
      blockedLeaders := leaders;
      versions := versions + [leaders];
    }

    /** The refresh loop: one request per tick until cancelled.  A request that succeeds stores a
        set, one that fails or times out stores nothing, and the first that panics ends the thread. */
    method RefreshLoop(text: Shield.Pubkey -> string, ticks: seq<Shield.Replies>) returns (panicked: bool)
      requires Valid()
      modifies this`blockedLeaders, this`versions
      ensures Valid()
      ensures panicked <==> PanicIndex(ticks) < |ticks|
      ensures versions == old(versions) + StoredSets(text, ticks[..PanicIndex(ticks)])
    {
      panicked := false;
      var i := 0;
      while i < |ticks|
        invariant 0 <= i <= PanicIndex(ticks)
        invariant Valid() && versions == old(versions) + StoredSets(text, ticks[..i])
      {
        assert Init(ticks[..i + 1]) == ticks[..i];
        Shield.PanicCondition(text, ticks[i]);
        match Shield.GetBlockedIps(text, ticks[i]) {
          case Ok(addresses) =>
            Store(set a | a in addresses);
          case Err(error) =>
            if error == Shield.EmptyAccount {
              return true;
            }
        }
        i := i + 1;
      }
    }

    /** What other threads may do at any moment: store blocked sets and count requests. */
    method OtherThreads()
      requires Valid()
      modifies this`blockedLeaders, this`versions, stats`totals, stats`exact
      ensures Valid() && old(versions) <= versions
    {
      var rounds: nat := *;
      while rounds > 0
        invariant Valid() && old(versions) <= versions
      {
        if * {
          var leaders: set<SocketAddr> := *;
          Store(leaders);
        } else {
          var c: Counter := *;
          var n: nat := *;
          if c != MevBuffered && c != MevReleased {
            ghost var before := stats.exact;
            stats.Add(c, n);
            assert stats.exact.Get(MevBuffered) == before.Get(MevBuffered);
            assert stats.exact.Get(MevReleased) == before.Get(MevReleased);
          }
        }
        rounds := rounds - 1;
      }
    }

    /** One call under the buffer lock. */
    method PrepareTransactions(encoded: Bytes, isBlockedLeaderSlot: bool) returns (ready: seq<Bytes>)
      requires Valid()
      modifies this`bufferedTransactions, this`calls, stats
      ensures Valid()
      ensures calls == old(calls) + [CallOf(encoded, isBlockedLeaderSlot)]
      ensures ready == Output(calls, |old(calls)|)
      ensures !isBlockedLeaderSlot ==> bufferedTransactions == []
      ensures stats.exact.mevBuffered ==
              old(stats.exact.mevBuffered) + if isBlockedLeaderSlot && CarriesFlag(encoded) then 1 else 0
      ensures stats.exact.mevReleased ==
              old(stats.exact.mevReleased) + if isBlockedLeaderSlot then 0 else |old(bufferedTransactions)|
      ensures forall c: Counter :: c != MevBuffered && c != MevReleased ==> stats.totals.Get(c) == old(stats.totals.Get(c))
    {
      ready := [];
      var newlyBuffered := 0;
      ghost var call := CallOf(encoded, isBlockedLeaderSlot);
      ghost var exact := stats.exact;

      var decoded := Decode(encoded);
      if decoded.Some? {
        var payload := decoded.value;
        var wireTransaction := payload.WireTransaction();
        if isBlockedLeaderSlot && payload.IsMevProtected() {
          bufferedTransactions := bufferedTransactions + [wireTransaction];
          newlyBuffered := 1;
        } else {
          ready := ready + [wireTransaction];
        }
      }

      if newlyBuffered > 0 {
        stats.Add(MevBuffered, newlyBuffered);
        assert stats.exact.Get(MevReleased) == exact.Get(MevReleased);
      }

      if !isBlockedLeaderSlot && bufferedTransactions != [] {
        var released := |bufferedTransactions|;
        var pending := bufferedTransactions;
        bufferedTransactions := [];
        pending := pending + ready;
        ready := pending;
        stats.Add(MevReleased, released);
        assert stats.exact.Get(MevBuffered) == exact.Get(MevBuffered);
        assert stats.exact.Get(MevReleased) == exact.Get(MevReleased) + released;
      }

      stats.SetMevBufferSize(|bufferedTransactions|);
      ItemOfMessage(encoded);
      KeptSnoc(calls, call);
      Snoc(calls, call);
      assert (calls + [call])[..|calls|] == calls;
      calls := calls + [call];
    }

    /** One channel message sent to a fan-out.  The set of blocked leaders is loaded once; the
        refresher may store others before, between and after the steps of the call. */
    method SendToWorkers(workers: WorkersCache, leaders: seq<SocketAddr>, transaction: Bytes)
      returns (result: Result<(), SchedulerError>, ghost version: nat, ghost sent: seq<Attempt>, ghost shut: seq<Shutdown>)
      requires Valid()
      modifies this`blockedLeaders, this`versions, this`bufferedTransactions, this`calls, stats, workers
      ensures Valid() && result.Ok?
      ensures old(versions) <= versions && |old(versions)| - 1 <= version < |versions|
      ensures calls == old(calls) + [CallOf(transaction, HasBlockedSendTarget(leaders, versions[version]))]
      ensures workers.attempts == old(workers.attempts) + sent
      ensures SendsOf(sent) == Sends(Output(calls, |old(calls)|), leaders)
      ensures forall a :: a in sent && a.send.leader in versions[version] ==>
                ItemOf(transaction) == Some(Item(a.send.tx, false))
      ensures workers.shutdowns == old(workers.shutdowns) + shut
      ensures Pruned(old(workers.workers), sent, workers.workers, shut)
    {
      hide AllKept, Buffer, Output, Sends, Pruned, CallOf, ItemOf, HasBlockedSendTarget;
      OtherThreads();
      var snapshot := blockedLeaders;
      version := |versions| - 1;
      OtherThreads();
      var isBlockedLeaderSlot := HasBlockedSendTarget(leaders, snapshot);
      assert versions[version] == snapshot;
      ghost var callsBefore := calls;
      var transactions := PrepareTransactions(transaction, isBlockedLeaderSlot);
      assert calls[..|callsBefore|] == callsBefore;

      if transactions == [] {
        NothingSent(workers.workers, leaders);
        return Ok(()), version, [], [];
      }
      sent, shut := SendAll(workers, leaders, transactions);
      OnlyOwnPayloadToBlocked(callsBefore, transaction, leaders, snapshot, sent);
      result := Ok(());
    }

    /** The send loop of SendToWorkers. */
    method SendAll(workers: WorkersCache, leaders: seq<SocketAddr>, transactions: seq<Bytes>)
      returns (ghost sent: seq<Attempt>, ghost shut: seq<Shutdown>)
      requires Valid()
      modifies this`blockedLeaders, this`versions, stats`totals, stats`exact, workers
      ensures Valid() && old(versions) <= versions
      ensures workers.attempts == old(workers.attempts) + sent
      ensures SendsOf(sent) == Sends(transactions, leaders)
      ensures workers.shutdowns == old(workers.shutdowns) + shut
      ensures Pruned(old(workers.workers), sent, workers.workers, shut)
    {
      sent, shut := [], [];
      ghost var start := CacheState(workers.workers, workers.attempts, workers.shutdowns);
      var i := 0;
      while i < |transactions|
        invariant 0 <= i <= |transactions|
        invariant Valid() && old(versions) <= versions
        invariant workers.Advanced(start, sent, shut)
        invariant SendsOf(sent) == Sends(transactions[..i], leaders)
      {
        sent, shut := SendRow(workers, leaders, transactions[i], start, sent, shut);
        assert Init(transactions[..i + 1]) == transactions[..i];
        i := i + 1;
      }
      assert transactions[..|transactions|] == transactions;
    }

    /** The inner loop: one transaction to every leader. */
    method SendRow(workers: WorkersCache, leaders: seq<SocketAddr>, transaction: Bytes,
                   ghost start: CacheState, ghost sent: seq<Attempt>, ghost shut: seq<Shutdown>)
      returns (ghost sent': seq<Attempt>, ghost shut': seq<Shutdown>)
      requires Valid() && workers.Advanced(start, sent, shut)
      modifies this`blockedLeaders, this`versions, stats`totals, stats`exact, workers
      ensures Valid() && old(versions) <= versions
      ensures workers.Advanced(start, sent', shut')
      ensures SendsOf(sent') == SendsOf(sent) + Row(transaction, leaders)
    {
      sent', shut' := sent, shut;
      ghost var row := Row(transaction, leaders);
      var j := 0;
      while j < |leaders|
        invariant 0 <= j <= |leaders|
        invariant Valid() && old(versions) <= versions
        invariant workers.Advanced(start, sent', shut')
        invariant SendsOf(sent') == SendsOf(sent) + row[..j]
      {
        OtherThreads();
        sent', shut' := SendOne(workers, leaders[j], transaction, j, start, sent', shut');
        assert row[..j + 1] == row[..j] + [row[j]];
        j := j + 1;
      }
      assert row[..|row|] == row;
    }

    /** The body of the send loop. */
    static method SendOne(workers: WorkersCache, leader: SocketAddr, transaction: Bytes, ghost position: nat,
                          ghost start: CacheState, ghost sent: seq<Attempt>, ghost shut: seq<Shutdown>)
      returns (ghost sent': seq<Attempt>, ghost shut': seq<Shutdown>)
      requires workers.Advanced(start, sent, shut)
      modifies workers
      ensures workers.Advanced(start, sent', shut')
      ensures SendsOf(sent') == SendsOf(sent) + [Send(transaction, position, leader)]
    {
      var outcome := workers.TrySendTransactionToAddress(leader, transaction, position);
      ghost var attempt := Attempt(Send(transaction, position, leader), outcome);
      PrunedStep(start.workers, sent, workers.workers, shut, attempt);
      sent', shut' := sent + [attempt], shut;
      match outcome {
        case Sent =>
        case ShutdownError =>
        case ReceiverDropped =>
          var popped := workers.Pop(leader);
          if popped.Some? {
            workers.ShutdownWorker(leader, popped.value);
            shut' := shut + [Shutdown(leader, popped.value)];
          } else {
            assert shut + [] == shut;
          }
        case OtherError =>
      }
    }
  }

  lemma NothingSent(workers: map<SocketAddr, Worker>, leaders: seq<SocketAddr>)
    ensures SendsOf([]) == Sends([], leaders) && Pruned(workers, [], workers, [])
  {
  }

  // While any target is blocked, the only payload sent is the unprotected one of the call itself.
  lemma OnlyOwnPayloadToBlocked(before: seq<Call<Bytes>>, encoded: Bytes, leaders: seq<SocketAddr>,
                                snapshot: set<SocketAddr>, sent: seq<Attempt>)
    requires var calls := before + [CallOf(encoded, HasBlockedSendTarget(leaders, snapshot))];
             SendsOf(sent) == Sends(Output(calls, |before|), leaders)
    ensures forall a :: a in sent && a.send.leader in snapshot ==> ItemOf(encoded) == Some(Item(a.send.tx, false))
  {
    var call := CallOf(encoded, HasBlockedSendTarget(leaders, snapshot));
    var calls := before + [call];
    assert calls[..|before|] == before;
    var ready := Output(calls, |before|);
    forall n | 0 <= n < |sent| && sent[n].send.leader in snapshot
      ensures ItemOf(encoded) == Some(Item(sent[n].send.tx, false))
    {
      var send := SendsOf(sent)[n];
      SendOrigin(ready, leaders, n);
      assert HasBlockedSendTarget(leaders, snapshot);
      assert ready == Own(call);
    }
  }

  lemma {:induction false} SendOrigin<T>(txs: seq<T>, leaders: seq<SocketAddr>, n: nat)
    requires n < |Sends(txs, leaders)|
    ensures var send := Sends(txs, leaders)[n];
            && send.tx in txs && send.position < |leaders| && send.leader == leaders[send.position]
  {
    if n < |Sends(Init(txs), leaders)| {
      SendOrigin(Init(txs), leaders, n);
    }
  }

  /** What the reporter can see at every call boundary of every run, in the atomics' own wrapping
      arithmetic: as many payloads buffered as there were blocked calls with a protected one, and as
      many released as those that have left the buffer. */
  lemma BufferCountersAgree(broadcaster: MevProtectedBroadcaster)
    requires broadcaster.Valid()
    ensures broadcaster.stats.totals.mevBuffered == Wrap(broadcaster.countedBefore + |HeldCalls(broadcaster.calls)|)
    ensures |broadcaster.bufferedTransactions| <= |HeldCalls(broadcaster.calls)|
    ensures broadcaster.stats.totals.mevReleased ==
            Wrap(broadcaster.countedBefore + |HeldCalls(broadcaster.calls)| - |broadcaster.bufferedTransactions|)
    ensures (broadcaster.stats.totals.mevBuffered - broadcaster.stats.totals.mevReleased) % U64_RANGE ==
            |broadcaster.bufferedTransactions| % U64_RANGE
  {
    hide Wrap;
    var stats := broadcaster.stats;
    KeptCount(broadcaster.calls);
    BufferIsKept(broadcaster.calls);
    assert stats.totals.Get(MevBuffered) == Wrap(stats.exact.Get(MevBuffered));
    assert stats.totals.Get(MevReleased) == Wrap(stats.exact.Get(MevReleased));
    WrappedDifference(stats.exact.mevBuffered, stats.exact.mevReleased, |broadcaster.bufferedTransactions|);
  }

  lemma {:induction false} BufferIsKept<T>(calls: seq<Call<T>>)
    ensures |Buffer(calls)| <= |AllKept(calls)|
  {
    if calls != [] {
      BufferIsKept(Init(calls));
    }
  }
}
