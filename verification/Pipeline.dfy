/** The whole send pipeline as a state machine.

    Any number of request handlers, the flush task, the single consumer of the channel (which
    runs the broadcaster) and the refresher of the blocked leaders take atomic steps in any
    order.  What is called history is written by steps and never read by them.
 */
module Pipeline {
  import opened Prelude
  import opened TpuPayload
  import opened HoldAndRelease
  import opened TransactionStats
  import opened FanOut
  import Broadcaster
  import Shield

  // ----- Messages -----

  datatype Request = Request(wire: Bytes, mevProtect: bool)

  datatype Origin = FlushTask | Handler(h: nat)

  // A channel message; its origin is history.
  datatype Entry = Entry(origin: Origin, encoded: Bytes)

  predicate IsPayload(e: Entry)
  {
    Decode(e.encoded).Some?
  }

  predicate IsProtected(e: Entry)
  {
    TpuClientPayload(e.encoded).IsMevProtected()
  }

  predicate IsPlain(e: Entry)
  {
    IsPayload(e) && !IsProtected(e)
  }

  function EntryItem(e: Entry): Option<Item<Entry>>
  {
    if IsPayload(e) then Some(Item(e, IsProtected(e))) else None
  }

  // ----- Request handlers -----

  datatype Kind = Quic | JsonRpc

  datatype Fate =
    | Unread
    | Invalid(flagCounted: bool)
    | Enqueued(request: Request)
    | Dropped(request: Request)

  datatype Pc =
    | Reading
    | Decoding
    | Flagging(request: Request)
    | RpcEntered(mevProtect: bool)
    | RpcFlagging(mevProtect: bool)
    | RpcChecking(mevProtect: bool)
    | Sending(request: Request)
    | Accepted(request: Request)
    | Refused(request: Request)
    | Finished(fate: Fate)

  datatype HandlerState = HandlerState(kind: Kind, pc: Pc)

  datatype Rejection = UnsupportedEncoding | CannotDecode | CannotDeserialize | NoSignatures

  datatype Move =
    | ReadFails
    | CountQuic
    | DecodeFails
    | DecodeSucceeds(request: Request)
    | CountRpc
    | CountFlag
    | Reject(reason: Rejection)
    | Validate(wire: Bytes)
    | TrySend
    | CountFate

  predicate CanMove(handler: HandlerState, move: Move)
  {
    match move
    case ReadFails => handler.pc.Reading?
    case CountQuic => handler.pc.Reading?
    case DecodeFails => handler.pc.Decoding?
    case DecodeSucceeds(_) => handler.pc.Decoding?
    case CountRpc => handler.pc.RpcEntered?
    case CountFlag => handler.pc.Flagging? || handler.pc.RpcFlagging?
    case Reject(_) => handler.pc.RpcChecking?
    case Validate(_) => handler.pc.RpcChecking?
    case TrySend => handler.pc.Sending?
    case CountFate => handler.pc.Accepted? || handler.pc.Refused?
  }

  /** The program counter after a move; hasRoom is what the channel answers to TrySend. */
  function PcAfter(handler: HandlerState, move: Move, hasRoom: bool): Pc
    requires CanMove(handler, move)
  {
    match move
    case ReadFails => Finished(Unread)
    case CountQuic => Decoding
    case DecodeFails => Finished(Invalid(false))
    case DecodeSucceeds(request) => Flagging(request)
    case CountRpc => RpcFlagging(handler.pc.mevProtect)
    case CountFlag => if handler.pc.Flagging? then Sending(handler.pc.request) else RpcChecking(handler.pc.mevProtect)
    case Reject(_) => Finished(Invalid(handler.pc.mevProtect))
    case Validate(wire) => Sending(Request(wire, handler.pc.mevProtect))
    case TrySend => if hasRoom then Accepted(handler.pc.request) else Refused(handler.pc.request)
    case CountFate => Finished(if handler.pc.Accepted? then Enqueued(handler.pc.request) else Dropped(handler.pc.request))
  }

  /** The counter a move increments, if any. */
  function CounterOf(handler: HandlerState, move: Move): Option<Counter>
    requires CanMove(handler, move)
  {
    match move
    case CountQuic => Some(QuicReceived)
    case DecodeFails => Some(QuicInvalid)
    case CountRpc => Some(JsonRpcReceived)
    case CountFlag =>
      if (if handler.pc.Flagging? then handler.pc.request.mevProtect else handler.pc.mevProtect)
      then Some(MevProtectedReceived) else None
    case Reject(_) => Some(JsonRpcInvalid)
    case CountFate => Some(if handler.pc.Accepted? then TpuEnqueued else TpuDropped)
    case _ => None
  }

  // ----- The consumer -----

  datatype Consumer =
    | Idle
    | Entered(entry: Entry, leaders: seq<SocketAddr>, since: nat)
    | Loaded(entry: Entry, leaders: seq<SocketAddr>, snapshot: set<SocketAddr>, since: nat, version: nat)
    | SendingOut(sends: seq<Send<Entry>>, cursor: nat)

  /** One call of send_to_workers.  since, version and prepared are the indexes of the blocked
      sets that were current when it was entered, loaded its snapshot, and took the buffer. */
  datatype CallRecord = CallRecord(
    entry: Entry,
    leaders: seq<SocketAddr>,
    since: nat,
    version: nat,
    prepared: nat,
    blocked: bool)

  datatype Attempt = Attempt(call: nat, send: Send<Entry>)

  // ----- The machine -----

  datatype Env = Env(capacity: nat, text: Shield.Pubkey -> string)

  // The bounded queue; accepted is history.
  datatype Channel = Channel(queue: seq<Entry>, open: bool, accepted: seq<Entry>)

  // The consumer with the broadcaster's buffer; calls and attempts are history.
  datatype Delivery = Delivery(
    consumer: Consumer,
    buffer: seq<Entry>,
    mevBufferSize: nat,
    calls: seq<CallRecord>,
    attempts: seq<Attempt>)

  // The shared set of blocked leaders with its refresher; versions and refreshes are history.
  datatype BlockedLeaders = BlockedLeaders(
    current: set<SocketAddr>,
    refresherAlive: bool,
    versions: seq<set<SocketAddr>>,
    refreshes: seq<Shield.Replies>)

  datatype State = State(
    handlers: seq<HandlerState>,
    counters: Snapshot,
    channel: Channel,
    delivery: Delivery,
    blocked: BlockedLeaders)

  const START := State(
    [],
    ZERO,
    Channel([], true, []),
    Delivery(Idle, [], 0, [], []),
    BlockedLeaders({}, true, [{}], []))

  datatype Action =
    | AcceptStream
    | AcceptRpc(mevProtect: bool)
    | Advance(h: nat, move: Move)
    | FlushTick
    | CloseChannel
    | EnterCall(leaders: seq<SocketAddr>)
    | LoadBlocked
    | PrepareCall
    | SendNext
    | LeaveCall
    | Refresh(replies: Shield.Replies)
    | StopRefresher

  /** The index of the newest element of a history. */
  function Latest<T>(history: seq<T>): nat
  {
    if history == [] then 0 else |history| - 1
  }

  predicate HasRoom(env: Env, channel: Channel)
  {
    channel.open && |channel.queue| < env.capacity
  }

  predicate Enabled(s: State, a: Action)
  {
    match a
    case AcceptStream => true
    case AcceptRpc(_) => true
    case Advance(h, move) => h < |s.handlers| && CanMove(s.handlers[h], move)
    case FlushTick => true
    case CloseChannel => true
    case EnterCall(_) => s.delivery.consumer.Idle? && s.channel.queue != []
    case LoadBlocked => s.delivery.consumer.Entered?
    case PrepareCall => s.delivery.consumer.Loaded?
    case SendNext => s.delivery.consumer.SendingOut? && s.delivery.consumer.cursor < |s.delivery.consumer.sends|
    case LeaveCall => s.delivery.consumer.SendingOut? && s.delivery.consumer.cursor >= |s.delivery.consumer.sends|
    case Refresh(_) => s.blocked.refresherAlive
    case StopRefresher => true
  }

  /** try_send: the entry is queued if the channel is open and not full. */
  function TryPush(env: Env, channel: Channel, entry: Entry): Channel
  {
    if HasRoom(env, channel) then channel.(queue := channel.queue + [entry], accepted := channel.accepted + [entry])
    else channel
  }

  function EntryOf(h: nat, request: Request): Entry
  {
    Entry(Handler(h), Encode(request.wire, request.mevProtect))
  }

  function AfterMove(env: Env, s: State, h: nat, move: Move): State
    requires h < |s.handlers| && CanMove(s.handlers[h], move)
  {
    var handler := s.handlers[h];
    var counter := CounterOf(handler, move);
    State(
      s.handlers[h := handler.(pc := PcAfter(handler, move, HasRoom(env, s.channel)))],
      if counter.Some? then s.counters.Bump(counter.value, 1) else s.counters,
      if move == TrySend then TryPush(env, s.channel, EntryOf(h, handler.pc.request)) else s.channel,
      s.delivery,
      s.blocked)
  }

  /** The record of the call being prepared; version is the index of the current blocked set. */
  function RecordOf(c: Consumer, version: nat): CallRecord
    requires c.Loaded?
  {
    CallRecord(c.entry, c.leaders, c.since, c.version, version, Broadcaster.HasBlockedSendTarget(c.leaders, c.snapshot))
  }

  function HoldCall(record: CallRecord): Call<Entry>
  {
    Call(EntryItem(record.entry), record.blocked)
  }

  function DeliveryAfterPrepare(d: Delivery, record: CallRecord): Delivery
  {
    var prepared := Prepare(d.buffer, HoldCall(record));
    Delivery(
      SendingOut(Sends(prepared.ready, record.leaders), 0),
      prepared.buffer,
      |prepared.buffer|,
      d.calls + [record],
      d.attempts)
  }

  function CountersAfterPrepare(counters: Snapshot, buffer: seq<Entry>, call: Call<Entry>): Snapshot
  {
    var counted := if call.Held() then counters.Bump(MevBuffered, 1) else counters;
    if !call.blocked && buffer != [] then counted.Bump(MevReleased, |buffer|) else counted
  }

  function DeliveryAfterSend(d: Delivery): Delivery
    requires d.consumer.SendingOut? && d.consumer.cursor < |d.consumer.sends|
  {
    d.(consumer := SendingOut(d.consumer.sends, d.consumer.cursor + 1),
       attempts := d.attempts + [Attempt(Latest(d.calls), d.consumer.sends[d.consumer.cursor])])
  }

  function BlockedAfterRefresh(env: Env, b: BlockedLeaders, replies: Shield.Replies): BlockedLeaders
  {
    match Shield.GetBlockedIps(env.text, replies)
    case Ok(addresses) =>
      var leaders := set a | a in addresses;
      BlockedLeaders(leaders, b.refresherAlive, b.versions + [leaders], b.refreshes + [replies])
    case Err(error) =>
      // Indexing into an empty account ends the refresher thread.
      if error == Shield.EmptyAccount then b.(refresherAlive := false) else b
  }

  function Next(env: Env, s: State, a: Action): State
    requires Enabled(s, a)
  {
    match a
    case AcceptStream => s.(handlers := s.handlers + [HandlerState(Quic, Reading)])
    case AcceptRpc(mevProtect) => s.(handlers := s.handlers + [HandlerState(JsonRpc, RpcEntered(mevProtect))])
    case Advance(h, move) => AfterMove(env, s, h, move)
    case FlushTick => s.(channel := TryPush(env, s.channel, Entry(FlushTask, FLUSH)))
    case CloseChannel => s.(channel := s.channel.(open := false))
    case EnterCall(leaders) =>
      s.(channel := s.channel.(queue := s.channel.queue[1..]),
         delivery := s.delivery.(consumer := Entered(s.channel.queue[0], leaders, Latest(s.blocked.versions))))
    case LoadBlocked =>
      var c := s.delivery.consumer;
      s.(delivery := s.delivery.(
           consumer := Loaded(c.entry, c.leaders, s.blocked.current, c.since, Latest(s.blocked.versions))))
    case PrepareCall =>
      var record := RecordOf(s.delivery.consumer, Latest(s.blocked.versions));
      s.(delivery := DeliveryAfterPrepare(s.delivery, record),
         counters := CountersAfterPrepare(s.counters, s.delivery.buffer, HoldCall(record)))
    case SendNext => s.(delivery := DeliveryAfterSend(s.delivery))
    case LeaveCall => s.(delivery := s.delivery.(consumer := Idle))
    case Refresh(replies) => s.(blocked := BlockedAfterRefresh(env, s.blocked, replies))
    case StopRefresher => s.(blocked := s.blocked.(refresherAlive := false))
  }

  /** The state after a sequence of actions, if all of them are enabled in turn. */
  function Exec(env: Env, s: State, actions: seq<Action>): Option<State>
  {
    if actions == [] then Some(s)
    else
      var before := Exec(env, s, Init(actions));
      if before.Some? && Enabled(before.value, Last(actions)) then Some(Next(env, before.value, Last(actions))) else None
  }

  ghost predicate Reachable(env: Env, s: State)
  {
    exists actions :: Exec(env, START, actions) == Some(s)
  }
}
