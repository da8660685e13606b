/** The request handlers and the sender they share, as the sequential programs they are, and
    the proof that a handler's run is a run of its moves in the pipeline machine.
 */
module RequestHandlers {
  import opened Prelude
  import opened TpuPayload
  import opened TransactionStats
  import opened Pipeline
  import opened PipelineInvariant
  import opened PipelineRuns
  import opened DeliveryGuarantees

  /** The sending half of the bounded channel. */
  class TpuClientNextSender {
    const capacity: nat
    const stats: Statistics
    var queue: seq<Bytes>
    var open: bool

    constructor (capacity: nat, stats: Statistics)
      ensures this.capacity == capacity && this.stats == stats && queue == [] && open
    {
      this.capacity, this.stats, queue, open := capacity, stats, [], true;
    }

    predicate HasRoom()
      reads this
    {
      open && |queue| < capacity
    }

    method TrySendTransaction(message: Bytes) returns (sent: bool)
      modifies this`queue
      ensures !sent <==> !old(open) || |old(queue)| >= capacity
      ensures queue == if sent then old(queue) + [message] else old(queue)
    {
      sent := open && |queue| < capacity;
      if sent {
        queue := queue + [message];
      }
    }

    method SendTransaction(payload: TpuClientPayload)
      requires stats.Valid()
      modifies this`queue, stats`totals, stats`exact
      ensures stats.Valid()
      ensures queue == if old(open) && |old(queue)| < capacity then old(queue) + [payload.encoded] else old(queue)
      ensures var c := old(stats.totals);
              stats.totals ==
              if old(open) && |old(queue)| < capacity then c.(tpuEnqueued := Wrap(c.tpuEnqueued + 1))
              else c.(tpuDropped := Wrap(c.tpuDropped + 1))
      ensures stats.totals == old(stats.totals).Bump(if old(open) && |old(queue)| < capacity then TpuEnqueued else TpuDropped, 1)
    {
      var sent := TrySendTransaction(payload.encoded);
      if !sent {
        stats.Add(TpuDropped, 1);
      } else {
        stats.Add(TpuEnqueued, 1);
      }
    }

    /** One tick of the flush task; a refused send is ignored. */
    method FlushTick()
      modifies this`queue
      ensures open && capacity >= 1 ==> queue != []
      ensures queue == if old(open) && |old(queue)| < capacity then old(queue) + [[]] else old(queue)
    {
      var _ := TrySendTransaction(FLUSH);
    }

    /** Consecutive sends into an open channel from which nothing is taken: as many are accepted, the
        first ones, as there is room for, and all others are dropped and counted. */
    method SendConsecutively(payloads: seq<TpuClientPayload>)
      requires stats.Valid() && open && |queue| <= capacity
      modifies this`queue, stats`totals, stats`exact
      ensures stats.Valid()
      ensures var n, room := |payloads|, capacity - |old(queue)|;
              var accepted := if n < room then n else room;
              var c := old(stats.totals);
              && queue == old(queue) + EncodingsOf(payloads[..accepted])
              && stats.totals == c.(tpuEnqueued := Wrap(c.tpuEnqueued + accepted), tpuDropped := Wrap(c.tpuDropped + (n - accepted)))
    {
      hide Wrap, WrapOf;
      ghost var room, c := capacity - |queue|, stats.totals;
      SmallCounter(stats, TpuEnqueued);
      SmallCounter(stats, TpuDropped);
      var i := 0;
      while i < |payloads|
        invariant 0 <= i <= |payloads| && stats.Valid()
        invariant var accepted := if i < room then i else room;
                  && queue == old(queue) + EncodingsOf(payloads[..accepted])
                  && stats.totals == c.(tpuEnqueued := Wrap(c.tpuEnqueued + accepted), tpuDropped := Wrap(c.tpuDropped + (i - accepted)))
      {
        ghost var accepted := if i < room then i else room;
        WrapTwice(c.tpuEnqueued + accepted, 1);
        WrapTwice(c.tpuDropped + (i - accepted), 1);
        if i < room {
          assert EncodingsOf(payloads[..i + 1]) == EncodingsOf(payloads[..i]) + [payloads[i].encoded];
        }
        SendTransaction(payloads[i]);
        i := i + 1;
      }
    }
  }

  function EncodingsOf(payloads: seq<TpuClientPayload>): (r: seq<Bytes>)
    ensures |r| == |payloads|
    ensures forall i :: 0 <= i < |payloads| ==> r[i] == payloads[i].encoded
  {
    seq(|payloads|, i requires 0 <= i < |payloads| => payloads[i].encoded)
  }

  // An atomic holds a wrapped value.
  lemma SmallCounter(stats: Statistics, c: Counter)
    requires stats.Valid()
    ensures Wrap(stats.totals.Get(c)) == stats.totals.Get(c)
  {
    WrapTwice(stats.exact.Get(c), 0);
  }

  // ----- A handler's moves, run on their own -----

  datatype Solo = Solo(handler: HandlerState, counters: Snapshot)

  /** The effect of a handler's moves; hasRoom is the channel's answer to its single send. */
  function Play(solo: Solo, moves: seq<Move>, hasRoom: bool): Option<Solo>
  {
    if moves == [] then Some(solo)
    else
      var before := Play(solo, Init(moves), hasRoom);
      if before.None? || !CanMove(before.value.handler, Last(moves)) then None
      else Some(PlayMove(before.value, Last(moves), hasRoom))
  }

  function PlayMove(solo: Solo, move: Move, hasRoom: bool): Solo
    requires CanMove(solo.handler, move)
  {
    var counter := CounterOf(solo.handler, move);
    Solo(solo.handler.(pc := PcAfter(solo.handler, move, hasRoom)),
         if counter.Some? then solo.counters.Bump(counter.value, 1) else solo.counters)
  }

  lemma PlayNext(solo: Solo, moves: seq<Move>, all: seq<Move>, hasRoom: bool)
    requires all != [] && Init(all) == moves
    requires Play(solo, moves, hasRoom).Some? && CanMove(Play(solo, moves, hasRoom).value.handler, Last(all))
    ensures Play(solo, all, hasRoom) == Some(PlayMove(Play(solo, moves, hasRoom).value, Last(all), hasRoom))
  {
  }

  datatype TransactionPacket = TransactionPacket(wireTransaction: Bytes, mevProtect: bool, maxRetry: Option<nat>)

  function QuicMoves(data: Option<Bytes>, decode: Bytes -> Option<TransactionPacket>): seq<Move>
  {
    if data.None? then [ReadFails]
    else
      match decode(data.value)
      case None => [CountQuic, DecodeFails]
      case Some(packet) =>
        [CountQuic, DecodeSucceeds(Request(packet.wireTransaction, packet.mevProtect)), CountFlag, TrySend, CountFate]
  }

  // A counter after at most one increment.
  function Counted(n: nat, counts: bool): nat
  {
    if counts then Wrap(n + 1) else n
  }

  /** The counters by name, and what is queued, over the bytes read and what they decode to. */
  ghost predicate QuicOutcome(data: Option<Bytes>, packet: Option<TransactionPacket>, hasRoom: bool,
                              before: Snapshot, after: Snapshot, queued: seq<Bytes>)
  {
    var valid := data.Some? && packet.Some?;
    && after == before.(
         quicReceived := Counted(before.quicReceived, data.Some?),
         quicInvalid := Counted(before.quicInvalid, data.Some? && packet.None?),
         mevProtectedReceived := Counted(before.mevProtectedReceived, valid && packet.value.mevProtect),
         tpuEnqueued := Counted(before.tpuEnqueued, valid && hasRoom),
         tpuDropped := Counted(before.tpuDropped, valid && !hasRoom))
    && queued == if valid && hasRoom then [packet.value.wireTransaction + [if packet.value.mevProtect then 1 else 0]] else []
  }

  lemma QuicEndMeaning(counters: Snapshot, data: Option<Bytes>, decode: Bytes -> Option<TransactionPacket>, hasRoom: bool)
    ensures var end := QuicEnd(counters, data, decode, hasRoom);
            QuicOutcome(data, if data.Some? then decode(data.value) else None, hasRoom,
                        counters, end.counters, SentBy(end.handler))
  {
  }

  /** A request read from a QUIC stream; data is None when reading failed or timed out. */
  method HandleUniStream(data: Option<Bytes>, decode: Bytes -> Option<TransactionPacket>, sender: TpuClientNextSender)
    requires sender.stats.Valid()
    modifies sender`queue, sender.stats`totals, sender.stats`exact
    ensures sender.stats.Valid()
    ensures var end := QuicEnd(old(sender.stats.totals), data, decode, old(sender.HasRoom()));
            && sender.stats.totals == end.counters
            && sender.queue == old(sender.queue) + SentBy(end.handler)
            && QuicOutcome(data, if data.Some? then decode(data.value) else None,
                           old(sender.open) && |old(sender.queue)| < sender.capacity,
                           old(sender.stats.totals), sender.stats.totals, SentBy(end.handler))
  {
    hide Snapshot.Bump, Snapshot.With, Wrap, WrapOf, QuicOutcome;
    QuicEndMeaning(sender.stats.totals, data, decode, sender.HasRoom());
    if data.None? {
      return;
    }
    sender.stats.Add(QuicReceived, 1);
    var packet := decode(data.value);
    if packet.None? {
      sender.stats.Add(QuicInvalid, 1);
      return;
    }
    if packet.value.mevProtect {
      sender.stats.Add(MevProtectedReceived, 1);
    }
    var payload := TpuPayload.New(packet.value.wireTransaction, packet.value.mevProtect);
    sender.SendTransaction(payload);
  }

  function SentBy(handler: HandlerState): seq<Bytes>
  {
    match Delivered(handler)
    case None => []
    case Some(request) => [Encode(request.wire, request.mevProtect)]
  }

  function QuicEnd(counters: Snapshot, data: Option<Bytes>, decode: Bytes -> Option<TransactionPacket>, hasRoom: bool): Solo
  {
    if data.None? then Solo(HandlerState(Quic, Finished(Unread)), counters)
    else
      var received := counters.Bump(QuicReceived, 1);
      match decode(data.value)
      case None => Solo(HandlerState(Quic, Finished(Invalid(false))), received.Bump(QuicInvalid, 1))
      case Some(packet) => Submitted(Quic, received, Request(packet.wireTransaction, packet.mevProtect), hasRoom)
  }

  lemma QuicPlay(solo: Solo, data: Option<Bytes>, decode: Bytes -> Option<TransactionPacket>, hasRoom: bool)
    requires solo.handler == HandlerState(Quic, Reading)
    ensures Play(solo, QuicMoves(data, decode), hasRoom) == Some(QuicEnd(solo.counters, data, decode, hasRoom))
  {
    if data.None? {
      PlayNext(solo, [], [ReadFails], hasRoom);
    } else {
      var one := [CountQuic];
      PlayNext(solo, [], one, hasRoom);
      match decode(data.value)
      case None =>
        PlayNext(solo, one, [CountQuic, DecodeFails], hasRoom);
      case Some(packet) =>
        var decoded := DecodeSucceeds(Request(packet.wireTransaction, packet.mevProtect));
        var two := [CountQuic, decoded];
        PlayNext(solo, one, two, hasRoom);
        var three := [CountQuic, decoded, CountFlag];
        PlayNext(solo, two, three, hasRoom);
        var four := [CountQuic, decoded, CountFlag, TrySend];
        PlayNext(solo, three, four, hasRoom);
        PlayNext(solo, four, [CountQuic, decoded, CountFlag, TrySend, CountFate], hasRoom);
    }
  }

  // The end of a handler whose request was valid, from the counters before its flag is counted.
  function Submitted(kind: Kind, counters: Snapshot, request: Request, hasRoom: bool): Solo
  {
    var flagged := if request.mevProtect then counters.Bump(MevProtectedReceived, 1) else counters;
    if hasRoom then Solo(HandlerState(kind, Finished(Enqueued(request))), flagged.Bump(TpuEnqueued, 1))
    else Solo(HandlerState(kind, Finished(Dropped(request))), flagged.Bump(TpuDropped, 1))
  }

  // ----- JSON-RPC -----

  // The requested encoding; only the default one matters here.
  datatype UiEncoding = Base64 | OtherEncoding(name: string)

  datatype BinaryEncoding = BinaryBase58 | BinaryBase64

  /** The library calls of a request: the binary form of an encoding, the decoder, and the parser
      that finds the signatures. */
  datatype Decoder = Decoder(
    intoBinary: UiEncoding -> Option<BinaryEncoding>,
    decode: (string, BinaryEncoding) -> Option<Bytes>,
    signatures: Bytes -> Option<seq<Bytes>>)

  datatype Valid = Valid(wire: Bytes, signature: Bytes)

  /** The first check a request fails, or its wire bytes and first signature. */
  function Check(decoder: Decoder, txn: string, encoding: Option<UiEncoding>): Result<Valid, Rejection>
  {
    var binary := (decoder.intoBinary)(if encoding.Some? then encoding.value else Base64);
    if binary.None? then Err(UnsupportedEncoding) else
    var wire := (decoder.decode)(txn, binary.value);
    if wire.None? then Err(CannotDecode) else
    var signatures := (decoder.signatures)(wire.value);
    if signatures.None? then Err(CannotDeserialize) else
    if signatures.value == [] then Err(NoSignatures) else
    Ok(Valid(wire.value, signatures.value[0]))
  }

  function ReplyTo(checked: Result<Valid, Rejection>): Result<Bytes, Rejection>
  {
    match checked
    case Err(reason) => Err(reason)
    case Ok(valid) => Ok(valid.signature)
  }

  function RpcMoves(checked: Result<Valid, Rejection>): seq<Move>
  {
    match checked
    case Err(reason) => [CountRpc, CountFlag, Reject(reason)]
    case Ok(valid) => [CountRpc, CountFlag, Validate(valid.wire), TrySend, CountFate]
  }

  /** The reply, the counters by name, and what is queued, over the results of the library calls: each
      check is reached when those before it have passed, and the first to fail decides. */
  ghost predicate RpcOutcome(decoder: Decoder, txn: string, encoding: Option<UiEncoding>, flag: bool, hasRoom: bool,
                             before: Snapshot, after: Snapshot, queued: seq<Bytes>, reply: Result<Bytes, Rejection>)
  {
    var binary := (decoder.intoBinary)(if encoding.Some? then encoding.value else Base64);
    var wire := if binary.Some? then (decoder.decode)(txn, binary.value) else None;
    var signatures := if wire.Some? then (decoder.signatures)(wire.value) else None;
    && (reply == Err(UnsupportedEncoding) <==> binary.None?)
    && (reply == Err(CannotDecode) <==> binary.Some? && wire.None?)
    && (reply == Err(CannotDeserialize) <==> wire.Some? && signatures.None?)
    && (reply == Err(NoSignatures) <==> signatures == Some([]))
    && (reply.Ok? <==> signatures.Some? && signatures.value != [])
    && (reply.Ok? ==> reply.value == signatures.value[0])
    && after == before.(
         jsonRpcReceived := Wrap(before.jsonRpcReceived + 1),
         mevProtectedReceived := Counted(before.mevProtectedReceived, flag),
         jsonRpcInvalid := Counted(before.jsonRpcInvalid, reply.Err?),
         tpuEnqueued := Counted(before.tpuEnqueued, reply.Ok? && hasRoom),
         tpuDropped := Counted(before.tpuDropped, reply.Ok? && !hasRoom))
    && queued == if reply.Ok? && hasRoom then [wire.value + [if flag then 1 else 0]] else []
  }

  lemma RpcEndMeaning(decoder: Decoder, txn: string, encoding: Option<UiEncoding>, flag: bool, hasRoom: bool, counters: Snapshot)
    ensures var checked := Check(decoder, txn, encoding);
            var end := RpcEnd(counters, flag, checked, hasRoom);
            RpcOutcome(decoder, txn, encoding, flag, hasRoom, counters, end.counters, SentBy(end.handler), ReplyTo(checked))
  {
  }

  method SendTransaction(decoder: Decoder, txn: string, encoding: Option<UiEncoding>, mevProtect: Option<bool>,
                         sender: TpuClientNextSender)
    returns (reply: Result<Bytes, Rejection>)
    requires sender.stats.Valid()
    modifies sender`queue, sender.stats`totals, sender.stats`exact
    ensures sender.stats.Valid()
    ensures var flag := mevProtect.Some? && mevProtect.value;
            var checked := Check(decoder, txn, encoding);
            var end := RpcEnd(old(sender.stats.totals), flag, checked, old(sender.HasRoom()));
            && sender.stats.totals == end.counters
            && sender.queue == old(sender.queue) + SentBy(end.handler)
            && reply == ReplyTo(checked)
            && RpcOutcome(decoder, txn, encoding, flag, old(sender.open) && |old(sender.queue)| < sender.capacity,
                          old(sender.stats.totals), sender.stats.totals, SentBy(end.handler), reply)
  {
    hide Snapshot.Bump, Snapshot.With, Wrap, WrapOf, RpcOutcome;
    RpcEndMeaning(decoder, txn, encoding, mevProtect.Some? && mevProtect.value, sender.HasRoom(), sender.stats.totals);
    var flag := if mevProtect.Some? then mevProtect.value else false;
    sender.stats.Add(JsonRpcReceived, 1);
    if flag {
      sender.stats.Add(MevProtectedReceived, 1);
    }
    var binaryEncoding := (decoder.intoBinary)(if encoding.Some? then encoding.value else Base64);
    if binaryEncoding.None? {
      sender.stats.Add(JsonRpcInvalid, 1);
      return Err(UnsupportedEncoding);
    }
    var wireTransaction := (decoder.decode)(txn, binaryEncoding.value);
    if wireTransaction.None? {
      sender.stats.Add(JsonRpcInvalid, 1);
      return Err(CannotDecode);
    }
    var signatures := (decoder.signatures)(wireTransaction.value);
    if signatures.None? {
      sender.stats.Add(JsonRpcInvalid, 1);
      return Err(CannotDeserialize);
    }
    if signatures.value == [] {
      sender.stats.Add(JsonRpcInvalid, 1);
      return Err(NoSignatures);
    }
    var payload := TpuPayload.New(wireTransaction.value, flag);
    sender.SendTransaction(payload);
    reply := Ok(signatures.value[0]);
  }

  function RpcEnd(counters: Snapshot, flag: bool, checked: Result<Valid, Rejection>, hasRoom: bool): Solo
  {
    var received := counters.Bump(JsonRpcReceived, 1);
    match checked
    case Err(_) =>
      Solo(HandlerState(JsonRpc, Finished(Invalid(flag))),
           (if flag then received.Bump(MevProtectedReceived, 1) else received).Bump(JsonRpcInvalid, 1))
    case Ok(valid) => Submitted(JsonRpc, received, Request(valid.wire, flag), hasRoom)
  }

  lemma RpcPlay(solo: Solo, flag: bool, checked: Result<Valid, Rejection>, hasRoom: bool)
    requires solo.handler == HandlerState(JsonRpc, RpcEntered(flag))
    ensures Play(solo, RpcMoves(checked), hasRoom) == Some(RpcEnd(solo.counters, flag, checked, hasRoom))
  {
    var one, two := [CountRpc], [CountRpc, CountFlag];
    PlayNext(solo, [], one, hasRoom);
    PlayNext(solo, one, two, hasRoom);
    match checked
    case Err(reason) =>
      PlayNext(solo, two, [CountRpc, CountFlag, Reject(reason)], hasRoom);
    case Ok(valid) =>
      var three := [CountRpc, CountFlag, Validate(valid.wire)];
      PlayNext(solo, two, three, hasRoom);
      var four := [CountRpc, CountFlag, Validate(valid.wire), TrySend];
      PlayNext(solo, three, four, hasRoom);
      PlayNext(solo, four, [CountRpc, CountFlag, Validate(valid.wire), TrySend, CountFate], hasRoom);
  }

  // ----- The link to the machine -----

  function ActionsOf(h: nat, moves: seq<Move>): (r: seq<Action>)
    ensures |r| == |moves|
    ensures forall i :: 0 <= i < |moves| ==> r[i] == Advance(h, moves[i])
  {
    seq(|moves|, i requires 0 <= i < |moves| => Advance(h, moves[i]))
  }

  // The send is behind a handler at this place.
  predicate PastSend(pc: Pc)
  {
    pc.Accepted? || pc.Refused? || pc.Finished?
  }

  /** A handler that runs its moves undisturbed in the machine ends with the program counter and
      counters of Play, and adds to the queue exactly what it delivered. */
  lemma {:induction false} PlayIsMachineRun(env: Env, s: State, h: nat, moves: seq<Move>)
    requires h < |s.handlers| && !PastSend(s.handlers[h].pc)
    requires Play(Solo(s.handlers[h], s.counters), moves, HasRoom(env, s.channel)).Some?
    ensures var solo := Play(Solo(s.handlers[h], s.counters), moves, HasRoom(env, s.channel)).value;
            var t := Exec(env, s, ActionsOf(h, moves));
            && t.Some? && h < |t.value.handlers|
            && t.value.handlers[h] == solo.handler && t.value.counters == solo.counters
            && t.value.channel.queue == s.channel.queue + Queued(h, solo.handler)
            && (!PastSend(solo.handler.pc) ==> t.value.channel == s.channel)
  {
    if moves != [] {
      var before := Init(moves);
      PlayIsMachineRun(env, s, h, before);
      assert Init(ActionsOf(h, moves)) == ActionsOf(h, before);
      var t := Exec(env, s, ActionsOf(h, before)).value;
      MachineMove(env, s, t, h, Last(moves));
    }
  }

  function Queued(h: nat, handler: HandlerState): seq<Entry>
  {
    match Delivered(handler)
    case None => []
    case Some(request) => [EntryOf(h, request)]
  }

  lemma MachineMove(env: Env, s: State, t: State, h: nat, move: Move)
    requires h < |t.handlers| && CanMove(t.handlers[h], move)
    requires t.channel.queue == s.channel.queue + Queued(h, t.handlers[h])
    requires !PastSend(t.handlers[h].pc) ==> t.channel == s.channel
    ensures var u := AfterMove(env, t, h, move);
            var solo := PlayMove(Solo(t.handlers[h], t.counters), move, HasRoom(env, s.channel));
            && u.handlers[h] == solo.handler && u.counters == solo.counters
            && u.channel.queue == s.channel.queue + Queued(h, solo.handler)
            && (!PastSend(solo.handler.pc) ==> u.channel == s.channel)
  {
    match move
    case ReadFails =>
    case CountQuic =>
    case DecodeFails =>
    case DecodeSucceeds(_) =>
    case CountRpc =>
    case CountFlag =>
    case Reject(_) =>
    case Validate(_) =>
    case TrySend =>
    case CountFate =>
  }

  /** The QUIC program run undisturbed from state s ends in the machine with the program's end state,
      counters and queue. */
  lemma QuicInMachine(env: Env, s: State, h: nat, data: Option<Bytes>, decode: Bytes -> Option<TransactionPacket>)
    requires h < |s.handlers| && s.handlers[h] == HandlerState(Quic, Reading)
    ensures var end := QuicEnd(s.counters, data, decode, HasRoom(env, s.channel));
            RunsTo(env, s, h, QuicMoves(data, decode), end)
  {
    QuicPlay(Solo(s.handlers[h], s.counters), data, decode, HasRoom(env, s.channel));
    PlayIsMachineRun(env, s, h, QuicMoves(data, decode));
  }

  /** The same for the JSON-RPC program. */
  lemma RpcInMachine(env: Env, s: State, h: nat, flag: bool, checked: Result<Valid, Rejection>)
    requires h < |s.handlers| && s.handlers[h] == HandlerState(JsonRpc, RpcEntered(flag))
    ensures var end := RpcEnd(s.counters, flag, checked, HasRoom(env, s.channel));
            RunsTo(env, s, h, RpcMoves(checked), end)
  {
    RpcPlay(Solo(s.handlers[h], s.counters), flag, checked, HasRoom(env, s.channel));
    PlayIsMachineRun(env, s, h, RpcMoves(checked));
  }

  // These moves of handler h are a run from s, with this end.
  ghost predicate RunsTo(env: Env, s: State, h: nat, moves: seq<Move>, end: Solo)
  {
    var t := Exec(env, s, ActionsOf(h, moves));
    && t.Some? && h < |t.value.handlers|
    && t.value.handlers[h] == end.handler && t.value.counters == end.counters
    && t.value.channel.queue == s.channel.queue + Queued(h, end.handler)
  }

  // ----- Handlers among other threads -----

  /** The moves of handler h in a run. */
  function MovesOf(h: nat, actions: seq<Action>): seq<Move>
  {
    if actions == [] then []
    else
      MovesOf(h, Init(actions)) + if Last(actions).Advance? && Last(actions).h == h then [Last(actions).move] else []
  }

  /** What the channel answered to its send, if it made one. */
  function RoomAtSend(env: Env, s: State, h: nat, actions: seq<Action>): Option<bool>
    requires Exec(env, s, actions).Some?
  {
    if actions == [] then None
    else if Last(actions) == Advance(h, TrySend) then Some(HasRoom(env, Exec(env, s, Init(actions)).value.channel))
    else RoomAtSend(env, s, h, Init(actions))
  }

  predicate SendSucceeds(env: Env, s: State, h: nat, actions: seq<Action>)
    requires Exec(env, s, actions).Some?
  {
    RoomAtSend(env, s, h, actions).Some? && RoomAtSend(env, s, h, actions).value
  }

  // Other threads leave a handler alone.
  lemma HandlerStep(env: Env, s: State, h: nat, a: Action)
    requires h < |s.handlers| && Enabled(s, a)
    ensures var t := Next(env, s, a);
            && h < |t.handlers|
            && (PastSend(s.handlers[h].pc) ==> PastSend(t.handlers[h].pc))
            && if a.Advance? && a.h == h then
                 t.handlers[h] == s.handlers[h].(pc := PcAfter(s.handlers[h], a.move, HasRoom(env, s.channel)))
               else t.handlers[h] == s.handlers[h]
  {
  }

  lemma {:induction false} SentIsPast(env: Env, s: State, h: nat, actions: seq<Action>)
    requires h < |s.handlers| && Exec(env, s, actions).Some?
    ensures h < |Exec(env, s, actions).value.handlers|
    ensures RoomAtSend(env, s, h, actions).Some? ==> PastSend(Exec(env, s, actions).value.handlers[h].pc)
  {
    if actions != [] {
      SentIsPast(env, s, h, Init(actions));
      HandlerStep(env, Exec(env, s, Init(actions)).value, h, Last(actions));
    }
  }

  lemma SameAnswer(handler: HandlerState, move: Move, a: bool, b: bool)
    requires CanMove(handler, move) && (move == TrySend ==> a == b)
    ensures PcAfter(handler, move, a) == PcAfter(handler, move, b)
  {
  }

  /** In every interleaving a handler is where its own moves take it, given the channel's answer at
      the moment of its send. */
  lemma {:induction false} InterleavedPlay(env: Env, s: State, h: nat, actions: seq<Action>, counters: Snapshot, hasRoom: bool)
    requires h < |s.handlers| && Exec(env, s, actions).Some?
    requires RoomAtSend(env, s, h, actions) == None || RoomAtSend(env, s, h, actions) == Some(hasRoom)
    ensures var t := Exec(env, s, actions).value;
            var solo := Play(Solo(s.handlers[h], counters), MovesOf(h, actions), hasRoom);
            h < |t.handlers| && solo.Some? && solo.value.handler == t.handlers[h]
  {
    if actions != [] {
      var before := Exec(env, s, Init(actions)).value;
      SentIsPast(env, s, h, Init(actions));
      InterleavedPlay(env, s, h, Init(actions), counters, hasRoom);
      HandlerStep(env, before, h, Last(actions));
      if Last(actions).Advance? && Last(actions).h == h {
        assert Init(MovesOf(h, actions)) == MovesOf(h, Init(actions));
        PlayNext(Solo(s.handlers[h], counters), MovesOf(h, Init(actions)), MovesOf(h, actions), hasRoom);
        SameAnswer(before.handlers[h], Last(actions).move, HasRoom(env, before.channel), hasRoom);
      } else {
        assert MovesOf(h, actions) == MovesOf(h, Init(actions));
      }
    }
  }

  /** A program that starts on counters at zero has counted what its handler contributes. */
  lemma {:induction false} PlayCountsContribution(handler: HandlerState, moves: seq<Move>, hasRoom: bool)
    requires WellFormed(handler) && forall c: Counter :: Contribution(handler, c) == 0
    requires Play(Solo(handler, ZERO), moves, hasRoom).Some?
    ensures var end := Play(Solo(handler, ZERO), moves, hasRoom).value;
            WellFormed(end.handler) && forall c: Counter :: end.counters.Get(c) == Contribution(end.handler, c)
  {
    if moves == [] {
      assert forall c: Counter :: ZERO.Get(c) == 0;
    } else {
      PlayCountsContribution(handler, Init(moves), hasRoom);
      MoveCounts(Play(Solo(handler, ZERO), Init(moves), hasRoom).value, Last(moves), hasRoom);
    }
  }

  lemma MoveCounts(solo: Solo, move: Move, hasRoom: bool)
    requires WellFormed(solo.handler) && CanMove(solo.handler, move)
    requires forall c: Counter :: solo.counters.Get(c) == Contribution(solo.handler, c)
    ensures var after := PlayMove(solo, move, hasRoom);
            WellFormed(after.handler) && forall c: Counter :: after.counters.Get(c) == Contribution(after.handler, c)
  {
    hide Contribution;
    ContributionStep(solo.handler, move, hasRoom);
    var after, counter := PlayMove(solo, move, hasRoom), CounterOf(solo.handler, move);
    forall c: Counter
      ensures after.counters.Get(c) == solo.counters.Get(c) + One(counter == Some(c))
    {
      FewCounts(solo.handler, c);
    }
  }

  lemma FewCounts(handler: HandlerState, c: Counter)
    ensures Contribution(handler, c) <= 3
  {
  }

  /** The end of a program as seen in the machine: the handler ends like the program, it has
      contributed to every counter what the program counts, and its payload has been accepted by
      the channel, once, exactly if the program's send succeeded. */
  ghost predicate EndsLike(t: State, h: nat, end: Solo)
  {
    && h < |t.handlers| && t.handlers[h] == end.handler
    && (forall c: Counter :: Contribution(t.handlers[h], c) == end.counters.Get(c))
    && Occurrences(h, t.channel.accepted) == |SentBy(end.handler)|
    && forall e :: e in t.channel.accepted && e.origin == Handler(h) ==> SentBy(end.handler) == [e.encoded]
  }

  lemma InterleavedEnd(env: Env, s: State, h: nat, actions: seq<Action>)
    requires Reachable(env, s) && h < |s.handlers| && Exec(env, s, actions).Some?
    requires WellFormed(s.handlers[h]) && forall c: Counter :: Contribution(s.handlers[h], c) == 0
    ensures var end := Play(Solo(s.handlers[h], ZERO), MovesOf(h, actions), SendSucceeds(env, s, h, actions));
            end.Some? && EndsLike(Exec(env, s, actions).value, h, end.value)
  {
    hide Exec, Contribution, WellFormed;
    var t, hasRoom := Exec(env, s, actions).value, SendSucceeds(env, s, h, actions);
    InterleavedPlay(env, s, h, actions, ZERO, hasRoom);
    PlayCountsContribution(s.handlers[h], MovesOf(h, actions), hasRoom);
    ReachableExec(env, s, actions);
    OriginsOf(env, t);
    assert forall e :: e in t.channel.accepted ==> Genuine(t.handlers, e);
  }

  /** In every interleaving with any other threads, a QUIC request ends like its program. */
  lemma QuicInterleaved(env: Env, s: State, h: nat, actions: seq<Action>, data: Option<Bytes>, decode: Bytes -> Option<TransactionPacket>)
    requires Reachable(env, s) && h < |s.handlers| && s.handlers[h] == HandlerState(Quic, Reading)
    requires Exec(env, s, actions).Some? && MovesOf(h, actions) == QuicMoves(data, decode)
    ensures EndsLike(Exec(env, s, actions).value, h, QuicEnd(ZERO, data, decode, SendSucceeds(env, s, h, actions)))
  {
    hide Exec, EndsLike;
    InterleavedEnd(env, s, h, actions);
    QuicPlay(Solo(s.handlers[h], ZERO), data, decode, SendSucceeds(env, s, h, actions));
  }

  /** And so does a JSON-RPC request. */
  lemma RpcInterleaved(env: Env, s: State, h: nat, actions: seq<Action>, flag: bool, checked: Result<Valid, Rejection>)
    requires Reachable(env, s) && h < |s.handlers| && s.handlers[h] == HandlerState(JsonRpc, RpcEntered(flag))
    requires Exec(env, s, actions).Some? && MovesOf(h, actions) == RpcMoves(checked)
    ensures EndsLike(Exec(env, s, actions).value, h, RpcEnd(ZERO, flag, checked, SendSucceeds(env, s, h, actions)))
  {
    hide Exec, EndsLike;
    InterleavedEnd(env, s, h, actions);
    RpcPlay(Solo(s.handlers[h], ZERO), flag, checked, SendSucceeds(env, s, h, actions));
  }
}
