/** The counters' conservation laws, under every interleaving of any number of handlers. */
module Accounting {
  import opened Prelude
  import opened HoldAndRelease
  import opened TransactionStats
  import opened Pipeline
  import opened PipelineInvariant
  import opened DeliveryGuarantees

  /** Counted as received, and its fate not counted yet. */
  predicate InFlight(handler: HandlerState)
  {
    !handler.pc.Reading? && !handler.pc.RpcEntered? && !handler.pc.Finished?
  }

  function CountIf(p: HandlerState -> bool, handlers: seq<HandlerState>): nat
  {
    if handlers == [] then 0 else CountIf(p, Init(handlers)) + One(p(Last(handlers)))
  }

  lemma CountersOf(env: Env, s: State)
    requires Reachable(env, s)
    ensures CountersInv(s.counters, s.handlers, s.delivery)
  {
    InvReachable(env, s);
  }

  /** The value of one counter. */
  lemma CounterValue(env: Env, s: State, c: Counter)
    requires Reachable(env, s)
    ensures Expected(s.handlers, s.delivery, c) >= 0
    ensures s.counters.Get(c) == Wrap(Expected(s.handlers, s.delivery, c))
  {
    CountersOf(env, s);
  }

  // The balance of one handler.
  lemma HandlerBalance(handler: HandlerState)
    requires WellFormed(handler)
    ensures Contribution(handler, QuicReceived) + Contribution(handler, JsonRpcReceived) ==
            Contribution(handler, QuicInvalid) + Contribution(handler, JsonRpcInvalid) +
            Contribution(handler, TpuEnqueued) + Contribution(handler, TpuDropped) + One(InFlight(handler))
    ensures Contribution(handler, QuicReceived) + Contribution(handler, JsonRpcReceived) <= 1
  {
    match handler.pc
    case Finished(fate) =>
      match fate {
        case Unread =>
        case Invalid(_) =>
        case Enqueued(_) =>
        case Dropped(_) =>
      }
    case _ =>
  }

  lemma {:induction false} TalliesBalance(handlers: seq<HandlerState>)
    requires forall h :: 0 <= h < |handlers| ==> WellFormed(handlers[h])
    ensures Tally(handlers, QuicReceived) + Tally(handlers, JsonRpcReceived) ==
            Tally(handlers, QuicInvalid) + Tally(handlers, JsonRpcInvalid) +
            Tally(handlers, TpuEnqueued) + Tally(handlers, TpuDropped) + CountIf(InFlight, handlers)
    ensures Tally(handlers, QuicReceived) + Tally(handlers, JsonRpcReceived) <= |handlers|
  {
    if handlers != [] {
      TalliesBalance(Init(handlers));
      HandlerBalance(Last(handlers));
    }
  }

  lemma WrapOfSum(a: nat, b: nat)
    ensures Wrap(Wrap(a) + Wrap(b)) == Wrap(a + b)
  {
    WrapTwice(a, Wrap(b));
    WrapTwice(b, a);
  }

  lemma WrapOfFive(a: nat, b: nat, c: nat, d: nat, e: nat)
    ensures Wrap(Wrap(a) + Wrap(b) + Wrap(c) + Wrap(d) + e) == Wrap(a + b + c + d + e)
  {
    hide Wrap;
    WrapTwice(a, Wrap(b) + Wrap(c) + Wrap(d) + e);
    WrapTwice(b, a + Wrap(c) + Wrap(d) + e);
    WrapTwice(c, a + b + Wrap(d) + e);
    WrapTwice(d, a + b + c + e);
  }

  /** Received equals invalid plus enqueued plus dropped plus in flight, modulo 2^64 at all times,
      and exactly as long as fewer than 2^64 handlers have been started. */
  lemma RequestsAreAccountedFor(env: Env, s: State)
    requires Reachable(env, s)
    ensures var received := s.counters.quicReceived + s.counters.jsonRpcReceived;
            var settled := s.counters.quicInvalid + s.counters.jsonRpcInvalid + s.counters.tpuEnqueued + s.counters.tpuDropped;
            && Wrap(received) == Wrap(settled + CountIf(InFlight, s.handlers))
            && (|s.handlers| < U64_RANGE ==> received == settled + CountIf(InFlight, s.handlers))
  {
    hide Exec, Wrap, CountIf, Tally;
    CounterValue(env, s, QuicReceived);
    CounterValue(env, s, JsonRpcReceived);
    CounterValue(env, s, QuicInvalid);
    CounterValue(env, s, JsonRpcInvalid);
    CounterValue(env, s, TpuEnqueued);
    CounterValue(env, s, TpuDropped);
    AllWellFormed(env, s);
    TalliesBalance(s.handlers);
    WrappedBalance(Tally(s.handlers, QuicReceived), Tally(s.handlers, JsonRpcReceived),
                   Tally(s.handlers, QuicInvalid), Tally(s.handlers, JsonRpcInvalid),
                   Tally(s.handlers, TpuEnqueued), Tally(s.handlers, TpuDropped), CountIf(InFlight, s.handlers), |s.handlers|);
  }

  lemma AllWellFormed(env: Env, s: State)
    requires Reachable(env, s)
    ensures forall h :: 0 <= h < |s.handlers| ==> WellFormed(s.handlers[h])
  {
    CountersOf(env, s);
  }

  lemma WrappedBalance(quic: nat, rpc: nat, quicBad: nat, rpcBad: nat, enqueued: nat, dropped: nat, inFlight: nat, bound: nat)
    requires quic + rpc == quicBad + rpcBad + enqueued + dropped + inFlight && quic + rpc <= bound
    ensures Wrap(Wrap(quic) + Wrap(rpc)) == Wrap(Wrap(quicBad) + Wrap(rpcBad) + Wrap(enqueued) + Wrap(dropped) + inFlight)
    ensures bound < U64_RANGE ==>
              Wrap(quic) + Wrap(rpc) == Wrap(quicBad) + Wrap(rpcBad) + Wrap(enqueued) + Wrap(dropped) + inFlight
  {
    WrapOfSum(quic, rpc);
    WrapOfFive(quicBad, rpcBad, enqueued, dropped, inFlight);
    SmallNumbersFit([quic, rpc, quicBad, rpcBad, enqueued, dropped], bound);
    if bound < U64_RANGE {
      var numbers := [quic, rpc, quicBad, rpcBad, enqueued, dropped];
      assert Wrap(numbers[0]) == quic && Wrap(numbers[1]) == rpc && Wrap(numbers[2]) == quicBad;
      assert Wrap(numbers[3]) == rpcBad && Wrap(numbers[4]) == enqueued && Wrap(numbers[5]) == dropped;
    }
  }

  lemma SmallNumbersFit(numbers: seq<nat>, bound: nat)
    requires forall i :: 0 <= i < |numbers| ==> numbers[i] <= bound
    ensures bound < U64_RANGE ==> forall i :: 0 <= i < |numbers| ==> Wrap(numbers[i]) == numbers[i]
  {
  }

  // ----- The enqueued counter and the channel -----

  predicate WasDelivered(handler: HandlerState)
  {
    Delivered(handler).Some?
  }

  // Delivered, with TPU_ENQUEUED not incremented yet.
  predicate AwaitsCount(handler: HandlerState)
  {
    handler.pc.Accepted?
  }

  function OccurrencesBelow(n: nat, entries: seq<Entry>): nat
  {
    if n == 0 then 0 else OccurrencesBelow(n - 1, entries) + Occurrences(n - 1, entries)
  }

  lemma {:induction false} BelowSnoc(n: nat, entries: seq<Entry>, e: Entry)
    ensures OccurrencesBelow(n, entries + [e]) == OccurrencesBelow(n, entries) + One(e.origin.Handler? && e.origin.h < n)
  {
    if n > 0 {
      BelowSnoc(n - 1, entries, e);
      OccurrencesSnoc(n - 1, entries, e);
    }
  }

  lemma {:induction false} NothingBelow(n: nat)
    ensures OccurrencesBelow(n, []) == 0
  {
    if n > 0 {
      NothingBelow(n - 1);
    }
  }

  lemma {:induction false} PayloadsByOrigin(n: nat, entries: seq<Entry>)
    requires forall e :: e in entries ==> (IsPayload(e) <==> e.origin.Handler? && e.origin.h < n)
    ensures |Filter(IsPayload, entries)| == OccurrencesBelow(n, entries)
  {
    if entries == [] {
      NothingBelow(n);
    } else {
      PayloadsByOrigin(n, Init(entries));
      assert entries == Init(entries) + [Last(entries)];
      BelowSnoc(n, Init(entries), Last(entries));
      FilterSnoc(IsPayload, Init(entries), Last(entries));
    }
  }

  lemma {:induction false} DeliveriesByHandler(handlers: seq<HandlerState>, entries: seq<Entry>, n: nat)
    requires n <= |handlers| && OriginInv(handlers, entries)
    ensures OccurrencesBelow(n, entries) == CountIf(WasDelivered, handlers[..n])
  {
    if n > 0 {
      DeliveriesByHandler(handlers, entries, n - 1);
      assert Init(handlers[..n]) == handlers[..n - 1];
    }
  }

  lemma {:induction false} DeliveriesCounted(handlers: seq<HandlerState>)
    ensures CountIf(WasDelivered, handlers) == Tally(handlers, TpuEnqueued) + CountIf(AwaitsCount, handlers)
  {
    if handlers != [] {
      DeliveriesCounted(Init(handlers));
    }
  }

  /** TPU_ENQUEUED is the number of payloads the channel has accepted, short only of the handlers
      between their send and their count. */
  lemma EnqueuedCountsAccepted(env: Env, s: State)
    requires Reachable(env, s)
    ensures Wrap(|Filter(IsPayload, s.channel.accepted)|) ==
            Wrap(s.counters.tpuEnqueued + CountIf(AwaitsCount, s.handlers))
  {
    hide Exec;
    OriginsOf(env, s);
    PayloadsByHandler(s.handlers, s.channel.accepted);
    DeliveriesCounted(s.handlers);
    CounterValue(env, s, TpuEnqueued);
    WrapTwice(Tally(s.handlers, TpuEnqueued), CountIf(AwaitsCount, s.handlers));
  }

  lemma PayloadsByHandler(handlers: seq<HandlerState>, accepted: seq<Entry>)
    requires OriginInv(handlers, accepted)
    ensures |Filter(IsPayload, accepted)| == CountIf(WasDelivered, handlers)
  {
    forall e | e in accepted
      ensures IsPayload(e) <==> e.origin.Handler? && e.origin.h < |handlers|
    {
      GenuinePayloads(handlers, e);
    }
    PayloadsByOrigin(|handlers|, accepted);
    DeliveriesByHandler(handlers, accepted, |handlers|);
    assert handlers[..|handlers|] == handlers;
  }

  /** The counter against the places a payload can be in: enqueued, with those about to be counted,
      is released plus held plus still ahead. */
  lemma EnqueuedAreSomewhere(env: Env, s: State)
    requires Reachable(env, s)
    ensures Wrap(s.counters.tpuEnqueued + CountIf(AwaitsCount, s.handlers)) ==
            Wrap(|ReleasedBy(s.delivery)| + |s.delivery.buffer| + |Filter(IsPayload, Ahead(s))|)
  {
    hide Exec, Wrap, Filter, CountIf;
    EnqueuedCountsAccepted(env, s);
    ConservationThroughPipeline(env, s);
    SizesAddUp(Filter(IsPayload, s.channel.accepted), ReleasedBy(s.delivery), s.delivery.buffer, Filter(IsPayload, Ahead(s)));
  }

  lemma SizesAddUp<T>(all: seq<T>, a: seq<T>, b: seq<T>, c: seq<T>)
    requires multiset(all) == multiset(a) + multiset(b) + multiset(c)
    ensures |all| == |a| + |b| + |c|
  {
    assert |multiset(all)| == |multiset(a)| + |multiset(b)| + |multiset(c)|;
  }

  // ----- What each counter counts -----

  predicate ReadFromStream(handler: HandlerState)
  {
    handler.kind == Quic && !handler.pc.Reading? && handler.pc != Finished(Unread)
  }

  predicate CalledByRpc(handler: HandlerState)
  {
    handler.kind == JsonRpc && !handler.pc.RpcEntered?
  }

  predicate RejectedBy(kind: Kind, handler: HandlerState)
  {
    handler.kind == kind && handler.pc.Finished? && handler.pc.fate.Invalid?
  }

  /** Its protection flag has been counted. */
  predicate CountedAsProtected(handler: HandlerState)
  {
    match handler.pc
    case RpcChecking(flag) => flag
    case Sending(request) => request.mevProtect
    case Accepted(request) => request.mevProtect
    case Refused(request) => request.mevProtect
    case Finished(Invalid(flagCounted)) => flagCounted
    case Finished(Enqueued(request)) => request.mevProtect
    case Finished(Dropped(request)) => request.mevProtect
    case _ => false
  }

  predicate EndedEnqueued(handler: HandlerState)
  {
    handler.pc.Finished? && handler.pc.fate.Enqueued?
  }

  predicate EndedDropped(handler: HandlerState)
  {
    handler.pc.Finished? && handler.pc.fate.Dropped?
  }

  lemma ContributionMeaning(handler: HandlerState)
    requires WellFormed(handler)
    ensures Contribution(handler, QuicReceived) == One(ReadFromStream(handler))
    ensures Contribution(handler, JsonRpcReceived) == One(CalledByRpc(handler))
    ensures Contribution(handler, QuicInvalid) == One(RejectedBy(Quic, handler))
    ensures Contribution(handler, JsonRpcInvalid) == One(RejectedBy(JsonRpc, handler))
    ensures Contribution(handler, MevProtectedReceived) == One(CountedAsProtected(handler))
    ensures Contribution(handler, TpuEnqueued) == One(EndedEnqueued(handler))
    ensures Contribution(handler, TpuDropped) == One(EndedDropped(handler))
  {
  }

  lemma {:induction false} TallyMeaning(handlers: seq<HandlerState>)
    requires forall h :: 0 <= h < |handlers| ==> WellFormed(handlers[h])
    ensures Tally(handlers, QuicReceived) == CountIf(ReadFromStream, handlers)
    ensures Tally(handlers, JsonRpcReceived) == CountIf(CalledByRpc, handlers)
    ensures Tally(handlers, QuicInvalid) == CountIf(handler => RejectedBy(Quic, handler), handlers)
    ensures Tally(handlers, JsonRpcInvalid) == CountIf(handler => RejectedBy(JsonRpc, handler), handlers)
    ensures Tally(handlers, MevProtectedReceived) == CountIf(CountedAsProtected, handlers)
    ensures Tally(handlers, TpuEnqueued) == CountIf(EndedEnqueued, handlers)
    ensures Tally(handlers, TpuDropped) == CountIf(EndedDropped, handlers)
  {
    if handlers != [] {
      TallyMeaning(Init(handlers));
      ContributionMeaning(Last(handlers));
    }
  }

  /** In every reachable state each counter, by name, is the number of handlers, or of calls, at or
      past the place that counts, in the atomics' wrapping arithmetic. */
  lemma CountersCountTheirEvents(env: Env, s: State)
    requires Reachable(env, s)
    ensures s.counters.quicReceived == Wrap(CountIf(ReadFromStream, s.handlers))
    ensures s.counters.jsonRpcReceived == Wrap(CountIf(CalledByRpc, s.handlers))
    ensures s.counters.quicInvalid == Wrap(CountIf(handler => RejectedBy(Quic, handler), s.handlers))
    ensures s.counters.jsonRpcInvalid == Wrap(CountIf(handler => RejectedBy(JsonRpc, handler), s.handlers))
    ensures s.counters.mevProtectedReceived == Wrap(CountIf(CountedAsProtected, s.handlers))
    ensures s.counters.tpuEnqueued == Wrap(CountIf(EndedEnqueued, s.handlers))
    ensures s.counters.tpuDropped == Wrap(CountIf(EndedDropped, s.handlers))
  {
    hide Exec, Wrap, CountIf, Tally;
    AllWellFormed(env, s);
    TallyMeaning(s.handlers);
    CounterValue(env, s, QuicReceived);
    CounterValue(env, s, JsonRpcReceived);
    CounterValue(env, s, QuicInvalid);
    CounterValue(env, s, JsonRpcInvalid);
    CounterValue(env, s, MevProtectedReceived);
    CounterValue(env, s, TpuEnqueued);
    CounterValue(env, s, TpuDropped);
  }

  // ----- The buffer counters -----

  /** Buffered counts the blocked calls with a protected payload, released those of them that have
      left the buffer again. */
  lemma BufferCountersCountPayloads(env: Env, s: State)
    requires Reachable(env, s)
    ensures var held := |HeldCalls(HoldCalls(s.delivery.calls))|;
            && |s.delivery.buffer| <= held
            && s.counters.mevBuffered == Wrap(held)
            && s.counters.mevReleased == Wrap(held - |s.delivery.buffer|)
  {
    hide Exec, Wrap, AllKept, HeldCalls;
    CounterValue(env, s, MevBuffered);
    CounterValue(env, s, MevReleased);
    KeptCount(HoldCalls(s.delivery.calls));
  }

  /** Buffered minus released is the buffer length in the counters' arithmetic, and the stored size
      is the buffer length. */
  lemma BufferIsAccountedFor(env: Env, s: State)
    requires Reachable(env, s)
    ensures (s.counters.mevBuffered - s.counters.mevReleased) % U64_RANGE == |s.delivery.buffer| % U64_RANGE
    ensures s.delivery.mevBufferSize == |s.delivery.buffer|
  {
    hide Exec, Wrap, AllKept, Buffer;
    CounterValue(env, s, MevBuffered);
    CounterValue(env, s, MevReleased);
    HoldOf(env, s);
    var kept := |AllKept(HoldCalls(s.delivery.calls))|;
    WrappedDifference(kept, kept - |s.delivery.buffer|, |s.delivery.buffer|);
  }

  /** An unblocked call leaves nothing in the buffer. */
  lemma UnblockedCallEmptiesBuffer(env: Env, s: State)
    requires Reachable(env, s) && s.delivery.calls != [] && !Last(s.delivery.calls).blocked
    ensures s.delivery.buffer == []
  {
    hide Exec;
    HoldOf(env, s);
    OutputOfLast(s.delivery.calls);
  }
}
