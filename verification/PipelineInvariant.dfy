/** The inductive invariant of the pipeline: it holds initially and every step keeps it. */
module PipelineInvariant {
  import opened Prelude
  import opened TpuPayload
  import opened HoldAndRelease
  import opened TransactionStats
  import opened FanOut
  import opened Pipeline
  import Broadcaster
  import Shield

  // ----- The calls so far as a run of HoldAndRelease -----

  function HoldCalls(calls: seq<CallRecord>): (r: seq<Call<Entry>>)
    ensures |r| == |calls|
    ensures forall k :: 0 <= k < |calls| ==> r[k] == HoldCall(calls[k])
  {
    seq(|calls|, k requires 0 <= k < |calls| => HoldCall(calls[k]))
  }

  function EntriesOf(calls: seq<CallRecord>): (r: seq<Entry>)
    ensures |r| == |calls|
    ensures forall k :: 0 <= k < |calls| ==> r[k] == calls[k].entry
  {
    seq(|calls|, k requires 0 <= k < |calls| => calls[k].entry)
  }

  lemma CallsSnoc(calls: seq<CallRecord>, record: CallRecord)
    ensures HoldCalls(calls + [record]) == HoldCalls(calls) + [HoldCall(record)]
    ensures EntriesOf(calls + [record]) == EntriesOf(calls) + [record.entry]
    ensures Init(calls + [record]) == calls && Last(calls + [record]) == record
  {
  }

  /** The output of the last of these calls. */
  function LastOutput(calls: seq<CallRecord>): seq<Entry>
    requires calls != []
  {
    Prepare(Buffer(HoldCalls(Init(calls))), HoldCall(Last(calls))).ready
  }

  function LastSends(calls: seq<CallRecord>): seq<Send<Entry>>
    requires calls != []
  {
    Sends(LastOutput(calls), Last(calls).leaders)
  }

  function Marked(call: nat, sends: seq<Send<Entry>>): (r: seq<Attempt>)
    ensures |r| == |sends|
    ensures forall k :: 0 <= k < |sends| ==> r[k] == Attempt(call, sends[k])
  {
    seq(|sends|, k requires 0 <= k < |sends| => Attempt(call, sends[k]))
  }

  /** The attempts of completed calls. */
  function Plan(calls: seq<CallRecord>): seq<Attempt>
  {
    if calls == [] then [] else Plan(Init(calls)) + Marked(|calls| - 1, LastSends(calls))
  }

  // ----- The parts of the invariant -----

  function InHand(consumer: Consumer): seq<Entry>
  {
    if consumer.Entered? || consumer.Loaded? then [consumer.entry] else []
  }

  ghost predicate ChannelInv(channel: Channel, d: Delivery)
  {
    channel.accepted == EntriesOf(d.calls) + InHand(d.consumer) + channel.queue
  }

  /** The request a handler got into the channel, if it did. */
  function Delivered(handler: HandlerState): Option<Request>
  {
    match handler.pc
    case Accepted(request) => Some(request)
    case Finished(Enqueued(request)) => Some(request)
    case _ => None
  }

  ghost predicate Genuine(handlers: seq<HandlerState>, e: Entry)
  {
    match e.origin
    case FlushTask => e.encoded == FLUSH
    case Handler(h) =>
      && h < |handlers| && Delivered(handlers[h]).Some?
      && var request := Delivered(handlers[h]).value;
         e.encoded == Encode(request.wire, request.mevProtect)
  }

  /** How often the payload of handler h occurs. */
  function Occurrences(h: nat, entries: seq<Entry>): nat
  {
    if entries == [] then 0
    else Occurrences(h, Init(entries)) + if Last(entries).origin == Handler(h) then 1 else 0
  }

  ghost predicate OriginInv(handlers: seq<HandlerState>, accepted: seq<Entry>)
  {
    && (forall e :: e in accepted ==> Genuine(handlers, e))
    && (forall h: nat :: Occurrences(h, accepted) == One(h < |handlers| && Delivered(handlers[h]).Some?))
  }

  ghost predicate HoldInv(d: Delivery)
  {
    d.buffer == Buffer(HoldCalls(d.calls)) && d.mevBufferSize == |d.buffer|
  }

  ghost predicate AttemptsInv(d: Delivery)
  {
    if d.consumer.SendingOut? then
      && d.calls != []
      && d.consumer.sends == LastSends(d.calls)
      && d.consumer.cursor <= |d.consumer.sends|
      && d.attempts == Plan(Init(d.calls)) + Marked(|d.calls| - 1, d.consumer.sends[..d.consumer.cursor])
    else
      d.attempts == Plan(d.calls)
  }

  ghost predicate VersionsInv(env: Env, b: BlockedLeaders)
  {
    && |b.versions| == |b.refreshes| + 1
    && b.versions[0] == {}
    && Last(b.versions) == b.current
    && forall v :: 0 <= v < |b.refreshes| ==> StoredBy(env, b.refreshes[v], b.versions[v + 1])
  }

  ghost predicate StoredBy(env: Env, replies: Shield.Replies, stored: set<SocketAddr>)
  {
    var r := Shield.GetBlockedIps(env.text, replies);
    r.Ok? && stored == set a | a in r.value
  }

  ghost predicate RecordInv(versions: seq<set<SocketAddr>>, record: CallRecord)
  {
    && record.since <= record.version <= record.prepared < |versions|
    && record.blocked == Broadcaster.HasBlockedSendTarget(record.leaders, versions[record.version])
  }

  ghost predicate CallsInv(d: Delivery, versions: seq<set<SocketAddr>>)
  {
    && (forall k :: 0 <= k < |d.calls| ==> RecordInv(versions, d.calls[k]))
    && (d.consumer.Entered? ==> d.consumer.since < |versions|)
    && (d.consumer.Loaded? ==>
          && d.consumer.since <= d.consumer.version < |versions|
          && d.consumer.snapshot == versions[d.consumer.version])
  }

  // ----- Counters -----

  /** How often a handler has incremented a counter. */
  function Contribution(handler: HandlerState, c: Counter): nat
  {
    match handler.pc
    case Reading => 0
    case Decoding => Received(handler.kind, c)
    case Flagging(_) => Received(handler.kind, c)
    case RpcEntered(_) => 0
    case RpcFlagging(_) => Received(handler.kind, c)
    case RpcChecking(flag) => Received(handler.kind, c) + Flagged(flag, c)
    case Sending(request) => Received(handler.kind, c) + Flagged(request.mevProtect, c)
    case Accepted(request) => Received(handler.kind, c) + Flagged(request.mevProtect, c)
    case Refused(request) => Received(handler.kind, c) + Flagged(request.mevProtect, c)
    case Finished(Unread) => 0
    case Finished(Invalid(flag)) =>
      Received(handler.kind, c) + Flagged(flag, c) + One(c == if handler.kind.Quic? then QuicInvalid else JsonRpcInvalid)
    case Finished(Enqueued(request)) =>
      Received(handler.kind, c) + Flagged(request.mevProtect, c) + One(c == TpuEnqueued)
    case Finished(Dropped(request)) =>
      Received(handler.kind, c) + Flagged(request.mevProtect, c) + One(c == TpuDropped)
  }

  function One(b: bool): nat
  {
    if b then 1 else 0
  }

  function Received(kind: Kind, c: Counter): nat
  {
    One(c == if kind.Quic? then QuicReceived else JsonRpcReceived)
  }

  function Flagged(flag: bool, c: Counter): nat
  {
    One(flag && c == MevProtectedReceived)
  }

  /** The program counters a handler of each kind can be at. */
  ghost predicate WellFormed(handler: HandlerState)
  {
    match handler.pc
    case Reading => handler.kind.Quic?
    case Decoding => handler.kind.Quic?
    case Flagging(_) => handler.kind.Quic?
    case RpcEntered(_) => handler.kind.JsonRpc?
    case RpcFlagging(_) => handler.kind.JsonRpc?
    case RpcChecking(_) => handler.kind.JsonRpc?
    case Finished(Unread) => handler.kind.Quic?
    case _ => true
  }

  function Tally(handlers: seq<HandlerState>, c: Counter): nat
  {
    if handlers == [] then 0 else Tally(Init(handlers), c) + Contribution(Last(handlers), c)
  }

  /** The value of each counter without wrap-around. */
  function Expected(handlers: seq<HandlerState>, d: Delivery, c: Counter): int
  {
    match c
    case MevBuffered => |AllKept(HoldCalls(d.calls))|
    case MevReleased => |AllKept(HoldCalls(d.calls))| - |d.buffer|
    case _ => Tally(handlers, c)
  }

  ghost predicate CountersInv(counters: Snapshot, handlers: seq<HandlerState>, d: Delivery)
  {
    && (forall h :: 0 <= h < |handlers| ==> WellFormed(handlers[h]))
    && |d.buffer| <= |AllKept(HoldCalls(d.calls))|
    && (forall c: Counter :: counters.Get(c) == Wrap(Expected(handlers, d, c)))
  }

  ghost predicate Inv(env: Env, s: State)
  {
    && ChannelInv(s.channel, s.delivery)
    && |s.channel.queue| <= env.capacity
    && OriginInv(s.handlers, s.channel.accepted)
    && HoldInv(s.delivery)
    && AttemptsInv(s.delivery)
    && VersionsInv(env, s.blocked)
    && CallsInv(s.delivery, s.blocked.versions)
    && CountersInv(s.counters, s.handlers, s.delivery)
  }

  // ----- Moves of handlers -----

  lemma OccurrencesSnoc(h: nat, entries: seq<Entry>, e: Entry)
    ensures Occurrences(h, entries + [e]) == Occurrences(h, entries) + One(e.origin == Handler(h))
  {
    assert Init(entries + [e]) == entries;
  }

  lemma GenuineStays(handlers: seq<HandlerState>, handlers': seq<HandlerState>, accepted: seq<Entry>)
    requires forall e :: e in accepted ==> Genuine(handlers, e)
    requires |handlers| <= |handlers'|
    requires forall g :: 0 <= g < |handlers| && Delivered(handlers[g]).Some? ==> Delivered(handlers'[g]) == Delivered(handlers[g])
    ensures forall e :: e in accepted ==> Genuine(handlers', e)
  {
    forall e | e in accepted
      ensures Genuine(handlers', e)
    {
      assert Genuine(handlers, e);
    }
  }

  lemma DeliveredMove(handler: HandlerState, move: Move, hasRoom: bool)
    requires CanMove(handler, move)
    ensures var after := handler.(pc := PcAfter(handler, move, hasRoom));
            if move == TrySend && hasRoom then Delivered(handler).None? && Delivered(after) == Some(handler.pc.request)
            else Delivered(after) == Delivered(handler)
  {
  }

  lemma OriginMove(handlers: seq<HandlerState>, accepted: seq<Entry>, h: nat, move: Move, hasRoom: bool)
    requires OriginInv(handlers, accepted)
    requires h < |handlers| && CanMove(handlers[h], move)
    ensures var handlers' := handlers[h := handlers[h].(pc := PcAfter(handlers[h], move, hasRoom))];
            OriginInv(handlers', if move == TrySend && hasRoom then accepted + [EntryOf(h, handlers[h].pc.request)] else accepted)
  {
    var handlers' := handlers[h := handlers[h].(pc := PcAfter(handlers[h], move, hasRoom))];
    DeliveredMove(handlers[h], move, hasRoom);
    GenuineStays(handlers, handlers', accepted);
    if move == TrySend && hasRoom {
      OriginPush(handlers, handlers', accepted, h, handlers[h].pc.request);
    }
  }

  lemma OriginPush(handlers: seq<HandlerState>, handlers': seq<HandlerState>, accepted: seq<Entry>, h: nat, request: Request)
    requires OriginInv(handlers, accepted)
    requires h < |handlers| == |handlers'| && Delivered(handlers[h]).None? && Delivered(handlers'[h]) == Some(request)
    requires forall g :: 0 <= g < |handlers| && g != h ==> handlers'[g] == handlers[g]
    requires forall e :: e in accepted ==> Genuine(handlers', e)
    ensures OriginInv(handlers', accepted + [EntryOf(h, request)])
  {
    var e := EntryOf(h, request);
    forall g: nat
      ensures Occurrences(g, accepted + [e]) == One(g < |handlers'| && Delivered(handlers'[g]).Some?)
    {
      OccurrencesSnoc(g, accepted, e);
    }
  }

  lemma OriginNewHandler(handlers: seq<HandlerState>, accepted: seq<Entry>, handler: HandlerState)
    requires OriginInv(handlers, accepted) && Delivered(handler).None?
    ensures OriginInv(handlers + [handler], accepted)
  {
    GenuineStays(handlers, handlers + [handler], accepted);
  }

  lemma OriginFlush(handlers: seq<HandlerState>, accepted: seq<Entry>)
    requires OriginInv(handlers, accepted)
    ensures OriginInv(handlers, accepted + [Entry(FlushTask, FLUSH)])
  {
    forall h: nat
      ensures Occurrences(h, accepted + [Entry(FlushTask, FLUSH)]) == Occurrences(h, accepted)
    {
      OccurrencesSnoc(h, accepted, Entry(FlushTask, FLUSH));
    }
  }

  lemma ContributionStep(handler: HandlerState, move: Move, hasRoom: bool)
    requires WellFormed(handler) && CanMove(handler, move)
    ensures var after := handler.(pc := PcAfter(handler, move, hasRoom));
            && WellFormed(after)
            && forall c: Counter :: Contribution(after, c) == Contribution(handler, c) + One(CounterOf(handler, move) == Some(c))
  {
    match move
    case ReadFails =>
    case CountQuic =>
    case DecodeFails =>
    case DecodeSucceeds(_) =>
    case CountRpc =>
    case CountFlag =>
    case Reject(_) =>
    case Validate(_) =>
    case TrySend =>
    case CountFate =>
  }

  lemma {:induction false} TallyUpdate(handlers: seq<HandlerState>, h: nat, after: HandlerState, c: Counter)
    requires h < |handlers|
    ensures Tally(handlers[h := after], c) + Contribution(handlers[h], c) == Tally(handlers, c) + Contribution(after, c)
  {
    var handlers' := handlers[h := after];
    if h < |handlers| - 1 {
      TallyUpdate(Init(handlers), h, after, c);
      assert Init(handlers') == Init(handlers)[h := after];
    } else {
      assert Init(handlers') == Init(handlers);
    }
  }

  lemma CountersMove(counters: Snapshot, handlers: seq<HandlerState>, d: Delivery, h: nat, move: Move, hasRoom: bool)
    requires CountersInv(counters, handlers, d)
    requires h < |handlers| && CanMove(handlers[h], move)
    ensures var counter := CounterOf(handlers[h], move);
            CountersInv(
              if counter.Some? then counters.Bump(counter.value, 1) else counters,
              handlers[h := handlers[h].(pc := PcAfter(handlers[h], move, hasRoom))],
              d)
  {
    hide Wrap;
    var handler, counter := handlers[h], CounterOf(handlers[h], move);
    var after := handler.(pc := PcAfter(handler, move, hasRoom));
    ContributionStep(handler, move, hasRoom);
    var counters' := if counter.Some? then counters.Bump(counter.value, 1) else counters;
    forall c: Counter
      ensures counters'.Get(c) == Wrap(Expected(handlers[h := after], d, c))
    {
      ExpectedMove(handlers, d, h, move, hasRoom, c);
      BumpOne(counters, counter, c, Expected(handlers, d, c));
    }
  }

  lemma ExpectedMove(handlers: seq<HandlerState>, d: Delivery, h: nat, move: Move, hasRoom: bool, c: Counter)
    requires h < |handlers| && WellFormed(handlers[h]) && CanMove(handlers[h], move)
    ensures Expected(handlers[h := handlers[h].(pc := PcAfter(handlers[h], move, hasRoom))], d, c) ==
            Expected(handlers, d, c) + One(CounterOf(handlers[h], move) == Some(c))
  {
    ContributionStep(handlers[h], move, hasRoom);
    TallyUpdate(handlers, h, handlers[h].(pc := PcAfter(handlers[h], move, hasRoom)), c);
  }

  lemma BumpOne(counters: Snapshot, counter: Option<Counter>, c: Counter, exact: nat)
    requires counters.Get(c) == Wrap(exact)
    ensures var counters' := if counter.Some? then counters.Bump(counter.value, 1) else counters;
            counters'.Get(c) == Wrap(exact + One(counter == Some(c)))
  {
    WrapTwice(exact, 1);
  }

  lemma CountersNewHandler(counters: Snapshot, handlers: seq<HandlerState>, d: Delivery, handler: HandlerState)
    requires CountersInv(counters, handlers, d)
    requires WellFormed(handler) && forall c: Counter :: Contribution(handler, c) == 0
    ensures CountersInv(counters, handlers + [handler], d)
  {
    assert Init(handlers + [handler]) == handlers;
    assert forall c: Counter :: Tally(handlers + [handler], c) == Tally(handlers, c);
    assert forall c: Counter :: Expected(handlers + [handler], d, c) == Expected(handlers, d, c);
  }

  // ----- Steps of the consumer -----

  // How a call moves the exact values of the counters.
  lemma ExpectedPrepare(handlers: seq<HandlerState>, d: Delivery, record: CallRecord, c: Counter)
    ensures Expected(handlers, DeliveryAfterPrepare(d, record), c) == Expected(handlers, d, c) +
            (if c == MevBuffered then One(HoldCall(record).Held())
             else if c == MevReleased && !record.blocked then |d.buffer| else 0)
    ensures |DeliveryAfterPrepare(d, record).buffer| - |AllKept(HoldCalls(d.calls + [record]))| <=
            (if record.blocked then |d.buffer| else 0) - |AllKept(HoldCalls(d.calls))|
  {
    CallsSnoc(d.calls, record);
    KeptSnoc(HoldCalls(d.calls), HoldCall(record));
  }

  // How it moves the counters themselves.
  lemma BumpPrepare(counters: Snapshot, buffer: seq<Entry>, call: Call<Entry>, c: Counter, exact: nat)
    requires counters.Get(c) == Wrap(exact)
    ensures CountersAfterPrepare(counters, buffer, call).Get(c) == Wrap(exact +
              (if c == MevBuffered then One(call.Held())
               else if c == MevReleased && !call.blocked then |buffer| else 0))
  {
    hide Wrap;
    WrapTwice(exact, 1);
    WrapTwice(exact, |buffer|);
    var counted := if call.Held() then counters.Bump(MevBuffered, 1) else counters;
    assert c != MevBuffered ==> counted.Get(c) == counters.Get(c);
  }

  lemma CountersPrepare(counters: Snapshot, handlers: seq<HandlerState>, d: Delivery, record: CallRecord)
    requires CountersInv(counters, handlers, d)
    ensures CountersInv(CountersAfterPrepare(counters, d.buffer, HoldCall(record)), handlers, DeliveryAfterPrepare(d, record))
  {
    hide Wrap, CountersAfterPrepare, Prepare, AllKept;
    forall c: Counter
      ensures Expected(handlers, DeliveryAfterPrepare(d, record), c) >= 0
      ensures CountersAfterPrepare(counters, d.buffer, HoldCall(record)).Get(c) ==
              Wrap(Expected(handlers, DeliveryAfterPrepare(d, record), c))
    {
      ExpectedPrepare(handlers, d, record, c);
      BumpPrepare(counters, d.buffer, HoldCall(record), c, Expected(handlers, d, c));
    }
    ExpectedPrepare(handlers, d, record, MevBuffered);
  }

  lemma HoldPrepare(d: Delivery, record: CallRecord)
    requires HoldInv(d)
    ensures HoldInv(DeliveryAfterPrepare(d, record))
  {
    CallsSnoc(d.calls, record);
    Snoc(HoldCalls(d.calls), HoldCall(record));
  }

  lemma AttemptsPrepare(d: Delivery, record: CallRecord)
    requires HoldInv(d) && AttemptsInv(d) && !d.consumer.SendingOut?
    ensures AttemptsInv(DeliveryAfterPrepare(d, record))
  {
    CallsSnoc(d.calls, record);
  }

  lemma MarkedNext(call: nat, sends: seq<Send<Entry>>, cursor: nat)
    requires cursor < |sends|
    ensures Marked(call, sends[..cursor + 1]) == Marked(call, sends[..cursor]) + [Attempt(call, sends[cursor])]
  {
    assert sends[..cursor + 1] == sends[..cursor] + [sends[cursor]];
  }

  lemma AttemptsSend(d: Delivery)
    requires AttemptsInv(d) && d.consumer.SendingOut? && d.consumer.cursor < |d.consumer.sends|
    ensures AttemptsInv(DeliveryAfterSend(d))
  {
    hide Plan, LastSends, Marked;
    MarkedNext(|d.calls| - 1, d.consumer.sends, d.consumer.cursor);
    Regroup(Plan(Init(d.calls)), [], Marked(|d.calls| - 1, d.consumer.sends[..d.consumer.cursor]),
            [Attempt(|d.calls| - 1, d.consumer.sends[d.consumer.cursor])]);
  }

  lemma AttemptsLeave(d: Delivery)
    requires AttemptsInv(d) && d.consumer.SendingOut? && d.consumer.cursor >= |d.consumer.sends|
    ensures AttemptsInv(d.(consumer := Idle))
  {
    assert d.consumer.sends[..d.consumer.cursor] == d.consumer.sends;
  }

  // ----- All steps -----

  lemma InvAccept(env: Env, s: State, handler: HandlerState)
    requires Inv(env, s) && (handler == HandlerState(Quic, Reading) || (handler.kind.JsonRpc? && handler.pc.RpcEntered?))
    ensures Inv(env, s.(handlers := s.handlers + [handler]))
  {
    OriginNewHandler(s.handlers, s.channel.accepted, handler);
    CountersNewHandler(s.counters, s.handlers, s.delivery, handler);
  }

  lemma ChannelPush(env: Env, channel: Channel, d: Delivery, entry: Entry)
    requires ChannelInv(channel, d) && |channel.queue| <= env.capacity
    ensures ChannelInv(TryPush(env, channel, entry), d) && |TryPush(env, channel, entry).queue| <= env.capacity
  {
    Regroup(EntriesOf(d.calls) + InHand(d.consumer), [], channel.queue, [entry]);
  }

  lemma InvMove(env: Env, s: State, h: nat, move: Move)
    requires Inv(env, s) && Enabled(s, Advance(h, move))
    ensures Inv(env, AfterMove(env, s, h, move))
  {
    var hasRoom := HasRoom(env, s.channel);
    OriginMove(s.handlers, s.channel.accepted, h, move, hasRoom);
    CountersMove(s.counters, s.handlers, s.delivery, h, move, hasRoom);
    if move == TrySend {
      ChannelPush(env, s.channel, s.delivery, EntryOf(h, s.handlers[h].pc.request));
    }
  }

  lemma InvFlush(env: Env, s: State)
    requires Inv(env, s)
    ensures Inv(env, Next(env, s, FlushTick))
  {
    OriginFlush(s.handlers, s.channel.accepted);
    ChannelPush(env, s.channel, s.delivery, Entry(FlushTask, FLUSH));
  }

  lemma ChannelPrepare(channel: Channel, d: Delivery, record: CallRecord)
    requires ChannelInv(channel, d) && InHand(d.consumer) == [record.entry]
    ensures ChannelInv(channel, DeliveryAfterPrepare(d, record))
  {
    CallsSnoc(d.calls, record);
  }

  lemma CallsPrepare(d: Delivery, versions: seq<set<SocketAddr>>)
    requires CallsInv(d, versions) && d.consumer.Loaded?
    ensures CallsInv(DeliveryAfterPrepare(d, RecordOf(d.consumer, Latest(versions))), versions)
  {
  }

  lemma InvPrepare(env: Env, s: State)
    requires Inv(env, s) && Enabled(s, PrepareCall)
    ensures Inv(env, Next(env, s, PrepareCall))
  {
    var record := RecordOf(s.delivery.consumer, Latest(s.blocked.versions));
    ChannelPrepare(s.channel, s.delivery, record);
    CallsPrepare(s.delivery, s.blocked.versions);
    CountersPrepare(s.counters, s.handlers, s.delivery, record);
    HoldPrepare(s.delivery, record);
    AttemptsPrepare(s.delivery, record);
  }

  lemma ChannelEnter(channel: Channel, d: Delivery, leaders: seq<SocketAddr>, since: nat)
    requires ChannelInv(channel, d) && d.consumer.Idle? && channel.queue != []
    ensures ChannelInv(channel.(queue := channel.queue[1..]), d.(consumer := Entered(channel.queue[0], leaders, since)))
  {
    assert channel.queue == [channel.queue[0]] + channel.queue[1..];
  }

  // Steps that change nothing but the consumer's place before it prepares a call.
  lemma CountersFrame(counters: Snapshot, handlers: seq<HandlerState>, d: Delivery, d': Delivery)
    requires CountersInv(counters, handlers, d) && d'.calls == d.calls && d'.buffer == d.buffer
    ensures CountersInv(counters, handlers, d')
  {
    assert forall c: Counter :: Expected(handlers, d', c) == Expected(handlers, d, c);
  }

  lemma InvEnter(env: Env, s: State, leaders: seq<SocketAddr>)
    requires Inv(env, s) && Enabled(s, EnterCall(leaders))
    ensures Inv(env, Next(env, s, EnterCall(leaders)))
  {
    ChannelEnter(s.channel, s.delivery, leaders, Latest(s.blocked.versions));
    CountersFrame(s.counters, s.handlers, s.delivery, Next(env, s, EnterCall(leaders)).delivery);
  }

  lemma InvLoad(env: Env, s: State)
    requires Inv(env, s) && Enabled(s, LoadBlocked)
    ensures Inv(env, Next(env, s, LoadBlocked))
  {
    CountersFrame(s.counters, s.handlers, s.delivery, Next(env, s, LoadBlocked).delivery);
  }

  lemma InvSend(env: Env, s: State)
    requires Inv(env, s) && Enabled(s, SendNext)
    ensures Inv(env, Next(env, s, SendNext))
  {
    AttemptsSend(s.delivery);
    CountersFrame(s.counters, s.handlers, s.delivery, Next(env, s, SendNext).delivery);
  }

  lemma InvLeave(env: Env, s: State)
    requires Inv(env, s) && Enabled(s, LeaveCall)
    ensures Inv(env, Next(env, s, LeaveCall))
  {
    AttemptsLeave(s.delivery);
    CountersFrame(s.counters, s.handlers, s.delivery, Next(env, s, LeaveCall).delivery);
  }

  lemma InvRefresh(env: Env, s: State, replies: Shield.Replies)
    requires Inv(env, s)
    ensures Inv(env, s.(blocked := BlockedAfterRefresh(env, s.blocked, replies)))
  {
  }

  lemma InvNext(env: Env, s: State, a: Action)
    requires Inv(env, s) && Enabled(s, a)
    ensures Inv(env, Next(env, s, a))
  {
    match a
    case AcceptStream => InvAccept(env, s, HandlerState(Quic, Reading));
    case AcceptRpc(mevProtect) => InvAccept(env, s, HandlerState(JsonRpc, RpcEntered(mevProtect)));
    case Advance(h, move) => InvMove(env, s, h, move);
    case FlushTick => InvFlush(env, s);
    case CloseChannel =>
    case EnterCall(leaders) => InvEnter(env, s, leaders);
    case LoadBlocked => InvLoad(env, s);
    case PrepareCall => InvPrepare(env, s);
    case SendNext => InvSend(env, s);
    case LeaveCall => InvLeave(env, s);
    case Refresh(replies) => InvRefresh(env, s, replies);
    case StopRefresher =>
  }

  lemma InvStart(env: Env)
    ensures Inv(env, START)
  {
    assert forall c: Counter :: Expected([], START.delivery, c) == 0 && ZERO.Get(c) == 0;
  }

  lemma {:induction false} InvExec(env: Env, s: State, actions: seq<Action>)
    requires Inv(env, s) && Exec(env, s, actions).Some?
    ensures Inv(env, Exec(env, s, actions).value)
  {
    if actions != [] {
      InvExec(env, s, Init(actions));
      InvNext(env, Exec(env, s, Init(actions)).value, Last(actions));
    }
  }

  /** Every reachable state satisfies the invariant. */
  lemma InvReachable(env: Env, s: State)
    requires Reachable(env, s)
    ensures Inv(env, s)
  {
    var actions :| Exec(env, START, actions) == Some(s);
    InvStart(env);
    InvExec(env, START, actions);
  }
}
