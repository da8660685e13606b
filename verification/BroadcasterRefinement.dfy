/** The broadcaster object refines the pipeline's consumer steps.

    The machine tags payloads with their origin; the object holds bare bytes.  Erasing the tags
    turns every run of the machine's calls into a run of the object.
 */
module BroadcasterRefinement {
  import opened Prelude
  import opened TpuPayload
  import opened HoldAndRelease
  import opened FanOut
  import opened TransactionStats
  import opened Pipeline
  import opened PipelineInvariant
  import opened PipelineRuns
  import opened DeliveryGuarantees
  import Accounting
  import opened Broadcaster
  import Shield

  function MapSeq<T, U>(f: T -> U, s: seq<T>): (r: seq<U>)
    ensures |r| == |s|
    ensures forall i :: 0 <= i < |s| ==> r[i] == f(s[i])
  {
    seq(|s|, i requires 0 <= i < |s| => f(s[i]))
  }

  function MapCall<T, U>(f: T -> U, call: Call<T>): Call<U>
  {
    Call(if call.item.Some? then Some(Item(f(call.item.value.value), call.item.value.mevProtected)) else None, call.blocked)
  }

  function MapCalls<T, U>(f: T -> U, calls: seq<Call<T>>): (r: seq<Call<U>>)
    ensures |r| == |calls|
    ensures forall i :: 0 <= i < |calls| ==> r[i] == MapCall(f, calls[i])
  {
    seq(|calls|, i requires 0 <= i < |calls| => MapCall(f, calls[i]))
  }

  lemma MapConcat<T, U>(f: T -> U, a: seq<T>, b: seq<T>)
    ensures MapSeq(f, a + b) == MapSeq(f, a) + MapSeq(f, b)
  {
  }

  lemma MapPrepare<T, U>(f: T -> U, buffer: seq<T>, call: Call<T>)
    ensures Prepare(MapSeq(f, buffer), MapCall(f, call)).ready == MapSeq(f, Prepare(buffer, call).ready)
    ensures Prepare(MapSeq(f, buffer), MapCall(f, call)).buffer == MapSeq(f, Prepare(buffer, call).buffer)
  {
    MapConcat(f, buffer, Own(call));
    MapConcat(f, buffer, Kept(call));
    assert MapSeq(f, Own(call)) == Own(MapCall(f, call));
    assert MapSeq(f, Kept(call)) == Kept(MapCall(f, call));
  }

  /** Holding and releasing does not look at payloads. */
  lemma {:induction false} MapRun<T, U>(f: T -> U, calls: seq<Call<T>>)
    ensures Released(MapCalls(f, calls)) == MapSeq(f, Released(calls))
    ensures Buffer(MapCalls(f, calls)) == MapSeq(f, Buffer(calls))
  {
    if calls != [] {
      var before, call := Init(calls), Last(calls);
      MapRun(f, before);
      assert calls == before + [call];
      assert MapCalls(f, calls) == MapCalls(f, before) + [MapCall(f, call)];
      Snoc(before, call);
      Snoc(MapCalls(f, before), MapCall(f, call));
      MapPrepare(f, Buffer(before), call);
      MapConcat(f, Released(before), Prepare(Buffer(before), call).ready);
    }
  }

  function MapSend<T, U>(f: T -> U, send: Send<T>): Send<U>
  {
    Send(f(send.tx), send.position, send.leader)
  }

  lemma {:induction false} MapSends<T, U>(f: T -> U, txs: seq<T>, leaders: seq<SocketAddr>)
    ensures Sends(MapSeq(f, txs), leaders) == MapSeq(send => MapSend(f, send), Sends(txs, leaders))
  {
    if txs != [] {
      var g := (send: Send<T>) => MapSend(f, send);
      assert Init(MapSeq(f, txs)) == MapSeq(f, Init(txs));
      MapSends(f, Init(txs), leaders);
      MapConcat(g, Sends(Init(txs), leaders), Row(Last(txs), leaders));
      assert MapSeq(g, Row(Last(txs), leaders)) == Row(f(Last(txs)), leaders);
      assert MapSeq(send => MapSend(f, send), Sends(Init(txs), leaders)) == MapSeq(g, Sends(Init(txs), leaders));
      assert MapSeq(send => MapSend(f, send), Sends(txs, leaders)) == MapSeq(g, Sends(txs, leaders));
    }
  }

  // ----- Erasing origins -----

  function WireOf(e: Entry): Bytes
  {
    if e.encoded == [] then [] else TpuClientPayload(e.encoded).WireTransaction()
  }

  /** The calls of the machine as the broadcaster object sees them. */
  function ByteCalls(calls: seq<CallRecord>): (r: seq<Call<Bytes>>)
    ensures |r| == |calls|
    ensures forall k :: 0 <= k < |calls| ==> r[k] == CallOf(calls[k].entry.encoded, calls[k].blocked)
  {
    seq(|calls|, k requires 0 <= k < |calls| => CallOf(calls[k].entry.encoded, calls[k].blocked))
  }

  lemma ByteCallsAreErased(calls: seq<CallRecord>)
    ensures ByteCalls(calls) == MapCalls(WireOf, HoldCalls(calls))
  {
    forall k | 0 <= k < |calls|
      ensures ByteCalls(calls)[k] == MapCall(WireOf, HoldCalls(calls)[k])
    {
      assert HoldCalls(calls)[k] == HoldCall(calls[k]);
    }
  }

  /** A broadcaster that has been called with the machine's messages and snapshots holds, byte for
      byte, what the machine's buffer holds, and has handed over what the machine released. */
  lemma ObjectHoldsMachineBuffer(env: Env, s: State, broadcaster: MevProtectedBroadcaster)
    requires Reachable(env, s)
    requires broadcaster.Valid() && broadcaster.calls == ByteCalls(s.delivery.calls)
    ensures broadcaster.bufferedTransactions == MapSeq(WireOf, s.delivery.buffer)
    ensures broadcaster.stats.mevBufferSize == s.delivery.mevBufferSize
    ensures broadcaster.countedBefore == 0 ==> SameBufferCounters(s.counters, broadcaster.stats.totals)
    ensures Released(broadcaster.calls) == MapSeq(WireOf, ReleasedBy(s.delivery))
  {
    hide Exec;
    HoldOf(env, s);
    ByteCallsAreErased(s.delivery.calls);
    MapRun(WireOf, HoldCalls(s.delivery.calls));
    Accounting.BufferCountersCountPayloads(env, s);
    BufferCountersAgree(broadcaster);
    SameHeldCalls(s.delivery.calls);
  }

  predicate SameBufferCounters(a: Snapshot, b: Snapshot)
  {
    a.mevBuffered == b.mevBuffered && a.mevReleased == b.mevReleased
  }

  lemma SameHeldCalls(calls: seq<CallRecord>)
    ensures HeldCalls(ByteCalls(calls)) == HeldCalls(HoldCalls(calls))
  {
    ByteCallsAreErased(calls);
  }

  // ----- An execution of the object as a run of the machine -----

  // Any set of leaders is what some refresh stores.
  lemma StoreIsRefresh(env: Env, s: State, leaders: set<SocketAddr>) returns (replies: Shield.Replies)
    requires s.blocked.refresherAlive
    ensures var after := Next(env, s, Refresh(replies));
            && after == s.(blocked := after.blocked)
            && after.blocked.current == leaders && after.blocked.refresherAlive
            && after.blocked.versions == s.blocked.versions + [leaders]
  {
    var addresses := ListOf(leaders);
    replies := DenyAll(env.text, addresses);
    RefreshStoresOrKeeps(env, s, replies);
    forall address
      ensures address in leaders <==> Shield.Denies(env.text, replies, address)
    {
      DeniedByAll(env.text, addresses, address);
    }
    assert Next(env, s, Refresh(replies)).blocked.current == leaders;
  }

  lemma {:induction false} ListOf(leaders: set<SocketAddr>) returns (list: seq<SocketAddr>)
    ensures forall a :: a in list <==> a in leaders
  {
    if leaders == {} {
      list := [];
    } else {
      var a :| a in leaders;
      list := ListOf(leaders - {a});
      list := list + [a];
    }
  }

  const SOME_KEY: Shield.Pubkey := seq(Shield.KEY_BYTES, _ => 0)

  const DENY_ONE_KEY: Bytes := [0, 0, 0, 0, 0, 0, 0] + SOME_KEY

  // The replies of a cluster whose nodes at these addresses share the one denied key.
  function DenyAll(text: Shield.Pubkey -> string, addresses: seq<SocketAddr>): (replies: Shield.Replies)
    ensures Shield.GoodRefresh(replies) && !Shield.Panics(replies)
  {
    Shield.Replies(
      Ok(seq(|addresses|, i requires 0 <= i < |addresses| => Shield.NodeInfo(text(SOME_KEY), Some(addresses[i])))),
      Ok(DENY_ONE_KEY),
      false)
  }

  lemma DeniedByAll(text: Shield.Pubkey -> string, addresses: seq<SocketAddr>, address: SocketAddr)
    ensures Shield.Denies(text, DenyAll(text, addresses), address) <==> address in addresses
  {
    var replies := DenyAll(text, addresses);
    assert Shield.StandsAt(DENY_ONE_KEY, Shield.POLICY_LEN, 0, SOME_KEY);
    assert Shield.Lists(DENY_ONE_KEY, SOME_KEY);
    if i :| 0 <= i < |addresses| && addresses[i] == address {
      assert replies.nodes.value[i] == Shield.NodeInfo(text(SOME_KEY), Some(address));
    }
    if Shield.Denies(text, replies, address) {
      var n, key: Shield.Pubkey :| && 0 <= n < |replies.nodes.value|
                                   && replies.nodes.value[n] == Shield.NodeInfo(text(key), Some(address));
      assert addresses[n] == address;
    }
  }

  /** A step of the call: one of the consumer's, or a refresh. */
  predicate IsCallStep(a: Action)
  {
    IsConsumerStep(a) || a.Refresh?
  }

  ghost predicate CallReaches(env: Env, s: State, actions: seq<Action>, t: State)
  {
    Exec(env, s, actions) == Some(t) && forall i :: 0 <= i < |actions| ==> IsCallStep(actions[i])
  }

  lemma ReachesSelf(env: Env, s: State)
    ensures CallReaches(env, s, [], s)
  {
  }

  lemma ReachesNext(env: Env, s: State, a: Action)
    requires Enabled(s, a) && IsCallStep(a)
    ensures CallReaches(env, s, [a], Next(env, s, a))
  {
    ExecOne(env, s, a);
  }

  lemma ReachesThen(env: Env, s: State, first: seq<Action>, t: State, second: seq<Action>, u: State)
    requires CallReaches(env, s, first, t) && CallReaches(env, t, second, u)
    ensures CallReaches(env, s, first + second, u)
  {
    ExecConcat(env, s, first, second);
  }

  // Refreshes that store these sets one after the other.
  lemma {:induction false} StoreSets(env: Env, s: State, sets: seq<set<SocketAddr>>) returns (actions: seq<Action>, t: State)
    requires s.blocked.refresherAlive
    ensures CallReaches(env, s, actions, t) && t == s.(blocked := t.blocked)
    ensures t.blocked.refresherAlive && t.blocked.versions == s.blocked.versions + sets
    ensures t.blocked.current == if sets == [] then s.blocked.current else Last(sets)
  {
    hide Next;
    if sets == [] {
      actions, t := [], s;
    } else {
      var mid, replies;
      actions, mid := StoreSets(env, s, Init(sets));
      replies := StoreIsRefresh(env, mid, Last(sets));
      t := Next(env, mid, Refresh(replies));
      ReachesNext(env, mid, Refresh(replies));
      ReachesThen(env, s, actions, mid, [Refresh(replies)], t);
      actions := actions + [Refresh(replies)];
    }
  }

  lemma MarkedTail(attempts: seq<Pipeline.Attempt>, call: nat, sends: seq<Send<Entry>>, cursor: nat)
    requires cursor <= |sends|
    ensures attempts + Marked(call, sends[cursor..]) ==
            if cursor == |sends| then attempts
            else (attempts + [Pipeline.Attempt(call, sends[cursor])]) + Marked(call, sends[cursor + 1..])
  {
    if cursor < |sends| {
      assert sends[cursor..] == [sends[cursor]] + sends[cursor + 1..];
    }
  }

  // The rest of a send loop.
  lemma {:induction false} SendRest(env: Env, s: State) returns (actions: seq<Action>, t: State)
    requires s.delivery.consumer.SendingOut? && s.delivery.consumer.cursor <= |s.delivery.consumer.sends|
    ensures CallReaches(env, s, actions, t)
    ensures var sends, cursor := s.delivery.consumer.sends, s.delivery.consumer.cursor;
            t == s.(delivery := s.delivery.(
                      consumer := SendingOut(sends, |sends|),
                      attempts := s.delivery.attempts + Marked(Latest(s.delivery.calls), sends[cursor..])))
    decreases |s.delivery.consumer.sends| - s.delivery.consumer.cursor
  {
    hide CallReaches, Marked;
    var sends, cursor := s.delivery.consumer.sends, s.delivery.consumer.cursor;
    MarkedTail(s.delivery.attempts, Latest(s.delivery.calls), sends, cursor);
    if cursor == |sends| {
      actions, t := [], s;
      ReachesSelf(env, s);
    } else {
      var next := Next(env, s, SendNext);
      ReachesNext(env, s, SendNext);
      actions, t := SendRest(env, next);
      ReachesThen(env, s, [SendNext], next, actions, t);
      actions := [SendNext] + actions;
    }
  }

  // A call up to its snapshot.
  lemma MachineLoads(env: Env, s: State, leaders: seq<SocketAddr>, early: seq<set<SocketAddr>>)
    returns (actions: seq<Action>, t: State)
    requires s.delivery.consumer.Idle? && s.channel.queue != [] && s.blocked.refresherAlive
    ensures CallReaches(env, s, actions, t)
    ensures t.channel == s.channel.(queue := s.channel.queue[1..])
    ensures t.blocked.refresherAlive && t.blocked.versions == s.blocked.versions + early
    ensures var c := t.delivery.consumer;
            && t.delivery == s.delivery.(consumer := c)
            && c.Loaded? && c.entry == s.channel.queue[0] && c.leaders == leaders
            && c.snapshot == if early == [] then s.blocked.current else Last(early)
  {
    hide CallReaches;
    var entered := Next(env, s, EnterCall(leaders));
    ReachesNext(env, s, EnterCall(leaders));
    var storing, stored := StoreSets(env, entered, early);
    ReachesThen(env, s, [EnterCall(leaders)], entered, storing, stored);
    actions := AndThen(env, s, [EnterCall(leaders)] + storing, stored, LoadBlocked);
    t := Next(env, stored, LoadBlocked);
  }

  // A call from its snapshot to the start of its sends.
  lemma MachinePrepares(env: Env, s: State, late: seq<set<SocketAddr>>)
    returns (actions: seq<Action>, t: State, record: CallRecord)
    requires s.delivery.consumer.Loaded? && s.blocked.refresherAlive
    ensures CallReaches(env, s, actions, t)
    ensures t.channel == s.channel && t.blocked.refresherAlive && t.blocked.versions == s.blocked.versions + late
    ensures var c := s.delivery.consumer;
            && record.entry == c.entry && record.leaders == c.leaders
            && record.blocked == HasBlockedSendTarget(c.leaders, c.snapshot)
    ensures t.delivery == DeliveryAfterPrepare(s.delivery, record)
  {
    hide CallReaches, HasBlockedSendTarget, CountersAfterPrepare;
    var storing, stored := StoreSets(env, s, late);
    actions := AndThen(env, s, storing, stored, PrepareCall);
    record := RecordOf(stored.delivery.consumer, Latest(stored.blocked.versions));
    t := Next(env, stored, PrepareCall);
  }

  // The sends of a call, to its end.
  lemma MachineSends(env: Env, s: State) returns (actions: seq<Action>, t: State)
    requires s.delivery.consumer.SendingOut? && s.delivery.consumer.cursor == 0
    ensures CallReaches(env, s, actions, t)
    ensures t.channel == s.channel && t.blocked == s.blocked
    ensures t.delivery == s.delivery.(
              consumer := Idle,
              attempts := s.delivery.attempts + Marked(Latest(s.delivery.calls), s.delivery.consumer.sends))
  {
    hide CallReaches;
    var sending, sent := SendRest(env, s);
    actions := AndThen(env, s, sending, sent, LeaveCall);
    t := Next(env, sent, LeaveCall);
    assert s.delivery.consumer.sends[0..] == s.delivery.consumer.sends;
  }

  /** The machine can make any call: with whatever sets the refresher stores up to the load of the
      snapshot and after it, enter the call, prepare it, make all its sends and leave it. */
  lemma MachineCall(env: Env, s: State, leaders: seq<SocketAddr>, early: seq<set<SocketAddr>>, late: seq<set<SocketAddr>>)
    returns (actions: seq<Action>, t: State, record: CallRecord)
    requires s.delivery.consumer.Idle? && s.channel.queue != [] && s.blocked.refresherAlive
    ensures CallReaches(env, s, actions, t)
    ensures t.channel == s.channel.(queue := s.channel.queue[1..])
    ensures t.blocked.refresherAlive && t.blocked.versions == s.blocked.versions + early + late
    ensures record.entry == s.channel.queue[0] && record.leaders == leaders
    ensures record.blocked == HasBlockedSendTarget(leaders, if early == [] then s.blocked.current else Last(early))
    ensures var d := DeliveryAfterPrepare(s.delivery, record);
            t.delivery == d.(consumer := Idle, attempts := d.attempts + Marked(|s.delivery.calls|, d.consumer.sends))
  {
    hide CallReaches, HasBlockedSendTarget;
    var loading, loaded := MachineLoads(env, s, leaders, early);
    var preparing, prepared;
    preparing, prepared, record := MachinePrepares(env, loaded, late);
    SameDelivery(s.delivery, loaded.delivery, record);
    var sending;
    sending, t := MachineSends(env, prepared);
    ReachesThen(env, s, loading, loaded, preparing, prepared);
    ReachesThen(env, s, loading + preparing, prepared, sending, t);
    actions := loading + preparing + sending;
  }

  lemma AndThen(env: Env, s: State, actions: seq<Action>, t: State, a: Action) returns (more: seq<Action>)
    requires CallReaches(env, s, actions, t) && Enabled(t, a) && IsCallStep(a)
    ensures more == actions + [a] && CallReaches(env, s, more, Next(env, t, a))
  {
    ReachesNext(env, t, a);
    ReachesThen(env, s, actions, t, [a], Next(env, t, a));
    more := actions + [a];
  }

  // ----- The simulation -----

  function ByteSends(sends: seq<Send<Entry>>): (r: seq<Send<Bytes>>)
    ensures |r| == |sends|
    ensures forall n :: 0 <= n < |sends| ==> r[n] == MapSend(WireOf, sends[n])
  {
    seq(|sends|, n requires 0 <= n < |sends| => MapSend(WireOf, sends[n]))
  }

  /** The attempts of the machine as the workers see them. */
  function ByteAttempts(attempts: seq<Pipeline.Attempt>): (r: seq<Send<Bytes>>)
    ensures |r| == |attempts|
    ensures forall n :: 0 <= n < |attempts| ==> r[n] == MapSend(WireOf, attempts[n].send)
  {
    seq(|attempts|, n requires 0 <= n < |attempts| => MapSend(WireOf, attempts[n].send))
  }

  /** Between two calls, object and machine have stored the same sets, made the same calls and tried
      the same sends. */
  ghost predicate Matched(s: State, broadcaster: MevProtectedBroadcaster, workers: WorkersCache)
    reads broadcaster, workers
  {
    && s.delivery.consumer.Idle? && s.blocked.refresherAlive
    && broadcaster.versions == s.blocked.versions
    && broadcaster.calls == ByteCalls(s.delivery.calls)
    && SendsOf(workers.attempts) == ByteAttempts(s.delivery.attempts)
  }

  /** What the contract of SendToWorkers says about one call, as a run of the machine. */
  lemma CallIsMachineRun(env: Env, s: State, leaders: seq<SocketAddr>, versions: seq<set<SocketAddr>>, version: nat,
                         calls: seq<Call<Bytes>>, sends: seq<Send<Bytes>>)
    returns (t: State, actions: seq<Action>)
    requires Reachable(env, s) && s.delivery.consumer.Idle? && s.channel.queue != [] && s.blocked.refresherAlive
    requires s.blocked.versions <= versions && |s.blocked.versions| - 1 <= version < |versions|
    requires calls == ByteCalls(s.delivery.calls) +
                      [CallOf(s.channel.queue[0].encoded, HasBlockedSendTarget(leaders, versions[version]))]
    requires sends == Sends(Output(calls, |s.delivery.calls|), leaders)
    ensures CallReaches(env, s, actions, t) && Reachable(env, t)
    ensures t.channel == s.channel.(queue := s.channel.queue[1..])
    ensures t.delivery.consumer.Idle? && t.blocked.refresherAlive && t.blocked.versions == versions
    ensures calls == ByteCalls(t.delivery.calls)
    ensures ByteAttempts(t.delivery.attempts) == ByteAttempts(s.delivery.attempts) + sends
  {
    hide Exec, HasBlockedSendTarget, Output, Sends;
    var n := |s.blocked.versions|;
    var early, late := versions[n..version + 1], versions[version + 1..];
    CurrentIsLast(env, s);
    SplitVersions(s.blocked.versions, versions, version);
    var record;
    actions, t, record := MachineCall(env, s, leaders, early, late);
    ReachableExec(env, s, actions);
    HoldOf(env, s);
    CallsStayInStep(s.delivery, record, calls);
    var marked := Marked(|s.delivery.calls|, DeliveryAfterPrepare(s.delivery, record).consumer.sends);
    assert ByteAttempts(s.delivery.attempts + marked) == ByteAttempts(s.delivery.attempts) + ByteAttempts(marked);
    assert ByteAttempts(marked) == ByteSends(DeliveryAfterPrepare(s.delivery, record).consumer.sends);
  }

  lemma SplitVersions<T>(before: seq<T>, all: seq<T>, version: nat)
    requires before != [] && before <= all && |before| - 1 <= version < |all|
    ensures var early, late := all[|before|..version + 1], all[version + 1..];
            && before + early + late == all
            && all[version] == if early == [] then Last(before) else Last(early)
  {
  }

  /** One call: if the object, in step with the machine, makes the call of this record, then it stays
      in step, and its sends are the machine's sends with the origins erased. */
  lemma CallsStayInStep(d: Delivery, record: CallRecord, calls: seq<Call<Bytes>>)
    requires HoldInv(d) && calls == ByteCalls(d.calls) + [CallOf(record.entry.encoded, record.blocked)]
    ensures var d' := DeliveryAfterPrepare(d, record);
            && calls == ByteCalls(d'.calls)
            && Sends(Output(calls, |d.calls|), record.leaders) == ByteSends(d'.consumer.sends)
  {
    var ready := Prepare(d.buffer, HoldCall(record)).ready;
    assert ByteCalls(d.calls + [record]) == ByteCalls(d.calls) + [CallOf(record.entry.encoded, record.blocked)];
    assert calls[..|d.calls|] == ByteCalls(d.calls);
    ByteCallsAreErased(d.calls);
    MapRun(WireOf, HoldCalls(d.calls));
    assert CallOf(record.entry.encoded, record.blocked) == MapCall(WireOf, HoldCall(record));
    MapPrepare(WireOf, d.buffer, HoldCall(record));
    MapSends(WireOf, ready, record.leaders);
  }

  /** Every execution of SendToWorkers from a matched state, on the message at the head of the queue
      and with sets stored at any moment, is a run of the machine's call steps and refreshes; it ends
      matched, with the same bytes buffered and, if they started at zero, the same buffer counters. */
  method SendToWorkersRefines(env: Env, ghost s: State, broadcaster: MevProtectedBroadcaster, workers: WorkersCache,
                              leaders: seq<SocketAddr>, transaction: Bytes)
    returns (result: Result<(), SchedulerError>, ghost t: State, ghost actions: seq<Action>)
    requires Reachable(env, s) && s.channel.queue != [] && s.channel.queue[0].encoded == transaction
    requires broadcaster.Valid() && Matched(s, broadcaster, workers)
    modifies broadcaster`blockedLeaders, broadcaster`versions, broadcaster`bufferedTransactions, broadcaster`calls
    modifies broadcaster.stats, workers
    ensures CallReaches(env, s, actions, t) && Reachable(env, t)
    ensures t.channel == s.channel.(queue := s.channel.queue[1..])
    ensures broadcaster.Valid() && Matched(t, broadcaster, workers)
    ensures broadcaster.bufferedTransactions == MapSeq(WireOf, t.delivery.buffer)
    ensures broadcaster.stats.mevBufferSize == t.delivery.mevBufferSize
    ensures broadcaster.countedBefore == 0 ==> SameBufferCounters(t.counters, broadcaster.stats.totals)
  {
    hide Exec, HasBlockedSendTarget, Output, Sends, Pruned;
    ghost var before := workers.attempts;
    ghost var version, sent, shut;
    result, version, sent, shut := broadcaster.SendToWorkers(workers, leaders, transaction);
    t, actions := CallIsMachineRun(env, s, leaders, broadcaster.versions, version, broadcaster.calls, SendsOf(sent));
    assert SendsOf(before + sent) == SendsOf(before) + SendsOf(sent);
    ObjectHoldsMachineBuffer(env, t, broadcaster);
  }
}
