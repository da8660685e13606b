/** What the pipeline guarantees in every reachable state, about blocked leaders, order,
    conservation and the payloads themselves.
 */
module DeliveryGuarantees {
  import opened Prelude
  import opened TpuPayload
  import opened HoldAndRelease
  import opened ReleaseSchedule
  import opened FanOut
  import opened TransactionStats
  import opened Pipeline
  import opened PipelineInvariant
  import opened PipelineRuns
  import Broadcaster
  import Shield

  /** All payloads handed to the send loop so far, in order. */
  function ReleasedBy(d: Delivery): seq<Entry>
  {
    Released(HoldCalls(d.calls))
  }

  /** What call k handed to the send loop. */
  function OutputOf(calls: seq<CallRecord>, k: nat): seq<Entry>
    requires k < |calls|
  {
    LastOutput(calls[..k + 1])
  }

  lemma OutputOfLast(calls: seq<CallRecord>)
    requires calls != []
    ensures OutputOf(calls, |calls| - 1) == LastOutput(calls)
    ensures Released(HoldCalls(calls)) == Released(HoldCalls(Init(calls))) + LastOutput(calls)
    ensures Buffer(HoldCalls(calls)) == Prepare(Buffer(HoldCalls(Init(calls))), HoldCall(Last(calls))).buffer
  {
    assert calls[..|calls|] == calls;
    assert calls == Init(calls) + [Last(calls)];
    CallsSnoc(Init(calls), Last(calls));
    Snoc(HoldCalls(Init(calls)), HoldCall(Last(calls)));
  }

  lemma OutputOfPrefix(calls: seq<CallRecord>, n: nat, k: nat)
    requires k < n <= |calls|
    ensures OutputOf(calls[..n], k) == OutputOf(calls, k)
  {
    assert calls[..n][..k + 1] == calls[..k + 1];
  }

  // The parts of the invariant the guarantees rest on.

  lemma ChannelOf(env: Env, s: State)
    requires Reachable(env, s)
    ensures s.channel.accepted == EntriesOf(s.delivery.calls) + Ahead(s)
  {
    InvReachable(env, s);
  }

  lemma OriginsOf(env: Env, s: State)
    requires Reachable(env, s)
    ensures OriginInv(s.handlers, s.channel.accepted)
  {
    InvReachable(env, s);
  }

  lemma HoldOf(env: Env, s: State)
    requires Reachable(env, s)
    ensures HoldInv(s.delivery)
  {
    InvReachable(env, s);
  }

  lemma AttemptsOf(env: Env, s: State)
    requires Reachable(env, s)
    ensures s.delivery.attempts <= Plan(s.delivery.calls)
    ensures s.delivery.calls != [] ==> Plan(Init(s.delivery.calls)) <= s.delivery.attempts
    ensures !s.delivery.consumer.SendingOut? ==> s.delivery.attempts == Plan(s.delivery.calls)
  {
    InvReachable(env, s);
    AttemptsArePlanned(s.delivery);
  }

  lemma AttemptsArePlanned(d: Delivery)
    requires AttemptsInv(d)
    ensures d.attempts <= Plan(d.calls)
  {
    if d.consumer.SendingOut? {
      var sends, cursor := d.consumer.sends, d.consumer.cursor;
      assert Marked(|d.calls| - 1, sends[..cursor]) == Marked(|d.calls| - 1, sends)[..cursor];
    }
  }

  /** The payloads not prepared yet: in the consumer's hand, then in the queue. */
  function Ahead(s: State): seq<Entry>
  {
    InHand(s.delivery.consumer) + s.channel.queue
  }

  // ----- Attempts belong to calls -----

  ghost predicate Belongs(calls: seq<CallRecord>, a: Attempt)
  {
    && a.call < |calls|
    && a.send.tx in OutputOf(calls, a.call)
    && a.send.position < |calls[a.call].leaders|
    && a.send.leader == calls[a.call].leaders[a.send.position]
  }

  lemma BelongsGrows(calls: seq<CallRecord>, n: nat, a: Attempt)
    requires n <= |calls| && Belongs(calls[..n], a)
    ensures Belongs(calls, a)
  {
    OutputOfPrefix(calls, n, a.call);
  }

  lemma LastBelongs(calls: seq<CallRecord>, n: nat)
    requires calls != [] && n < |LastSends(calls)|
    ensures Belongs(calls, Attempt(|calls| - 1, LastSends(calls)[n]))
  {
    OutputOfLast(calls);
    Broadcaster.SendOrigin(LastOutput(calls), Last(calls).leaders, n);
  }

  lemma {:induction false} PlanBelongs(calls: seq<CallRecord>, n: nat)
    requires n < |Plan(calls)|
    ensures Belongs(calls, Plan(calls)[n])
  {
    var before := Plan(Init(calls));
    if n < |before| {
      PlanBelongs(Init(calls), n);
      BelongsGrows(calls, |calls| - 1, before[n]);
    } else {
      LastBelongs(calls, n - |before|);
    }
  }

  lemma AttemptBelongs(env: Env, s: State, n: nat)
    requires Reachable(env, s) && n < |s.delivery.attempts|
    ensures Belongs(s.delivery.calls, s.delivery.attempts[n])
  {
    AttemptsOf(env, s);
    assert s.delivery.attempts[n] == Plan(s.delivery.calls)[n];
    PlanBelongs(s.delivery.calls, n);
  }

  // ----- Blocked leaders -----

  lemma RecordOfCall(env: Env, s: State, k: nat)
    requires Reachable(env, s) && k < |s.delivery.calls|
    ensures RecordInv(s.blocked.versions, s.delivery.calls[k])
  {
    InvReachable(env, s);
  }

  // A blocked call hands over at most its own payload, and that one is unprotected.
  lemma BlockedCallOutput(calls: seq<CallRecord>, k: nat, e: Entry)
    requires k < |calls| && calls[k].blocked && e in OutputOf(calls, k)
    ensures e == calls[k].entry && !IsProtected(e)
  {
    assert Last(calls[..k + 1]) == calls[k];
    assert OutputOf(calls, k) == Own(HoldCall(calls[k]));
  }

  /** In every interleaving with the refresher, a protected transaction is only ever tried at
      addresses outside the snapshot loaded for that call, and the snapshot was the current set
      at a moment between the start of the call and the release of the transaction. */
  lemma ProtectedAttemptsAvoidSnapshot(env: Env, s: State, n: nat)
    requires Reachable(env, s) && n < |s.delivery.attempts|
    ensures var a := s.delivery.attempts[n];
            && a.call < |s.delivery.calls|
            && var call := s.delivery.calls[a.call];
               && call.since <= call.version <= call.prepared < |s.blocked.versions|
               && a.send.leader in call.leaders
               && (IsProtected(a.send.tx) ==> a.send.leader !in s.blocked.versions[call.version])
               && (a.send.leader in s.blocked.versions[call.version] ==> a.send.tx == call.entry)
  {
    AttemptBelongs(env, s, n);
    var a := s.delivery.attempts[n];
    var call := s.delivery.calls[a.call];
    RecordOfCall(env, s, a.call);
    if call.blocked {
      BlockedCallOutput(s.delivery.calls, a.call, a.send.tx);
    }
  }

  /** Every stored set but the initial empty one consists of exactly the addresses that the
      replies of its refresh deny. */
  lemma StoredSetMeaning(env: Env, s: State, v: nat)
    requires Reachable(env, s) && v < |s.blocked.versions|
    ensures |s.blocked.refreshes| == |s.blocked.versions| - 1
    ensures s.blocked.current == Last(s.blocked.versions)
    ensures v == 0 ==> s.blocked.versions[v] == {}
    ensures v > 0 ==>
              && Shield.GoodRefresh(s.blocked.refreshes[v - 1])
              && forall address :: address in s.blocked.versions[v] <==>
                                   Shield.Denies(env.text, s.blocked.refreshes[v - 1], address)
  {
    InvReachable(env, s);
    if v > 0 {
      var replies := s.blocked.refreshes[v - 1];
      assert StoredBy(env, replies, s.blocked.versions[v]);
      Shield.RefreshMeaning(env.text, replies);
    }
  }

  /** From account bytes to attempts: unless no refresh had succeeded yet, a protected attempt
      avoids every node whose identity stands in the policy its call was checked against. */
  lemma ProtectedAttemptsAvoidDenied(env: Env, s: State, n: nat)
    requires Reachable(env, s) && n < |s.delivery.attempts|
    requires IsProtected(s.delivery.attempts[n].send.tx)
    ensures var a := s.delivery.attempts[n];
            && a.call < |s.delivery.calls|
            && var v := s.delivery.calls[a.call].version;
               && v <= |s.blocked.refreshes|
               && (v > 0 ==>
                     && Shield.GoodRefresh(s.blocked.refreshes[v - 1])
                     && !Shield.Denies(env.text, s.blocked.refreshes[v - 1], a.send.leader))
  {
    ProtectedAttemptsAvoidSnapshot(env, s, n);
    StoredSetMeaning(env, s, s.delivery.calls[s.delivery.attempts[n].call].version);
  }

  /** A refresh stores a new set, and enters the history, if and only if it is good; RPC errors,
      time-outs, Allow policies, unknown kinds and short accounts leave the stored set as it is.
      Only an empty account ends the refresher. */
  lemma RefreshStoresOrKeeps(env: Env, s: State, replies: Shield.Replies)
    requires Enabled(s, Refresh(replies))
    ensures var after := Next(env, s, Refresh(replies)).blocked;
            && (after.refresherAlive <==> !Shield.Panics(replies))
            && if Shield.GoodRefresh(replies) then
                 && after.versions == s.blocked.versions + [after.current]
                 && after.refreshes == s.blocked.refreshes + [replies]
                 && forall address :: address in after.current <==> Shield.Denies(env.text, replies, address)
               else
                 after == s.blocked.(refresherAlive := after.refresherAlive)
  {
    Shield.RefreshMeaning(env.text, replies);
    Shield.PanicCondition(env.text, replies);
  }

  /** Once the refresher has been cancelled the current set stays in every continuation. */
  lemma {:induction false} StoppedStoresNothing(env: Env, s: State, actions: seq<Action>)
    requires Exec(env, Next(env, s, StopRefresher), actions).Some?
    ensures var t := Exec(env, Next(env, s, StopRefresher), actions).value;
            t.blocked == s.blocked.(refresherAlive := false)
  {
    if actions != [] {
      StoppedStoresNothing(env, s, Init(actions));
    }
  }

  /** The replies of the good refreshes among these actions, in order. */
  ghost function GoodReplies(actions: seq<Action>): seq<Shield.Replies>
  {
    if actions == [] then []
    else
      var a := Last(actions);
      GoodReplies(Init(actions)) + if a.Refresh? && Shield.GoodRefresh(a.replies) then [a.replies] else []
  }

  lemma {:induction false} RefreshesOfRun(env: Env, actions: seq<Action>)
    requires Exec(env, START, actions).Some?
    ensures Exec(env, START, actions).value.blocked.refreshes == GoodReplies(actions)
  {
    if actions != [] {
      RefreshesOfRun(env, Init(actions));
      var before := Exec(env, START, Init(actions)).value;
      if Last(actions).Refresh? {
        RefreshStoresOrKeeps(env, before, Last(actions).replies);
      }
    }
  }

  /** After every run the blocked set is empty if no refresh was good, and otherwise exactly what
      the policy bytes and the node list of the latest good one deny. */
  lemma LatestRefreshDecides(env: Env, actions: seq<Action>)
    requires Exec(env, START, actions).Some?
    ensures var current, good := Exec(env, START, actions).value.blocked.current, GoodReplies(actions);
            if good == [] then current == {}
            else
              && Shield.GoodRefresh(Last(good))
              && forall address :: address in current <==> Shield.Denies(env.text, Last(good), address)
  {
    var s := Exec(env, START, actions).value;
    assert Reachable(env, s);
    RefreshesOfRun(env, actions);
    CurrentSetMeaning(env, s);
  }

  lemma CurrentSetMeaning(env: Env, s: State)
    requires Reachable(env, s)
    ensures if s.blocked.refreshes == [] then s.blocked.current == {}
            else
              && Shield.GoodRefresh(Last(s.blocked.refreshes))
              && forall address :: address in s.blocked.current <==> Shield.Denies(env.text, Last(s.blocked.refreshes), address)
  {
    hide Exec, Shield.Denies, Shield.GoodRefresh;
    CurrentIsLast(env, s);
    StoredSetMeaning(env, s, |s.blocked.versions| - 1);
  }

  lemma CurrentIsLast(env: Env, s: State)
    requires Reachable(env, s)
    ensures s.blocked.versions != [] && s.blocked.current == Last(s.blocked.versions)
  {
    InvReachable(env, s);
  }

  // ----- Order and conservation -----

  lemma {:induction false} ValuesAreEntries(calls: seq<CallRecord>)
    ensures Values(HoldCalls(calls)) == Filter(IsPayload, EntriesOf(calls))
    ensures Filter(IsProtected, Values(HoldCalls(calls))) == Filter(IsProtected, EntriesOf(calls))
    ensures Filter(Not(IsProtected), Values(HoldCalls(calls))) == Filter(IsPlain, EntriesOf(calls))
  {
    if calls != [] {
      var before, record := Init(calls), Last(calls);
      ValuesAreEntries(before);
      assert calls == before + [record];
      CallsSnoc(before, record);
      Snoc(HoldCalls(before), HoldCall(record));
      ValueOfRecord(record, Values(HoldCalls(before)), EntriesOf(before));
    }
  }

  lemma ValueOfRecord(record: CallRecord, values: seq<Entry>, entries: seq<Entry>)
    requires values == Filter(IsPayload, entries)
    requires Filter(IsProtected, values) == Filter(IsProtected, entries)
    requires Filter(Not(IsProtected), values) == Filter(IsPlain, entries)
    ensures var values' := values + Own(HoldCall(record)) + Kept(HoldCall(record));
            && values' == Filter(IsPayload, entries + [record.entry])
            && Filter(IsProtected, values') == Filter(IsProtected, entries + [record.entry])
            && Filter(Not(IsProtected), values') == Filter(IsPlain, entries + [record.entry])
  {
    var e := record.entry;
    var call := HoldCall(record);
    FilterSnoc(IsPayload, entries, e);
    FilterSnoc(IsProtected, entries, e);
    FilterSnoc(IsPlain, entries, e);
    if IsPayload(e) {
      assert values + Own(call) + Kept(call) == values + [e];
      FilterSnoc(IsProtected, values, e);
      FilterSnoc(Not(IsProtected), values, e);
    } else {
      assert values + Own(call) + Kept(call) == values;
    }
  }

  lemma FilterSnoc<T>(p: T -> bool, s: seq<T>, x: T)
    ensures Filter(p, s + [x]) == Filter(p, s) + if p(x) then [x] else []
  {
    assert Init(s + [x]) == s;
  }

  /** Both classes of payload are FIFO through channel and buffer: the accepted protected ones are
      the released, then the held, then those still ahead; no plain one is ever held. */
  lemma FifoThroughPipeline(env: Env, s: State)
    requires Reachable(env, s)
    ensures Filter(IsProtected, s.channel.accepted) ==
            Filter(IsProtected, ReleasedBy(s.delivery)) + s.delivery.buffer + Filter(IsProtected, Ahead(s))
    ensures Filter(IsPlain, s.channel.accepted) ==
            Filter(Not(IsProtected), ReleasedBy(s.delivery)) + Filter(IsPlain, Ahead(s))
  {
    ChannelOf(env, s);
    HoldOf(env, s);
    FifoOfCalls(s.delivery.calls);
    FilterConcat(IsProtected, EntriesOf(s.delivery.calls), Ahead(s));
    FilterConcat(IsPlain, EntriesOf(s.delivery.calls), Ahead(s));
  }

  lemma FifoOfCalls(calls: seq<CallRecord>)
    ensures Filter(IsProtected, EntriesOf(calls)) ==
            Filter(IsProtected, Released(HoldCalls(calls))) + Buffer(HoldCalls(calls))
    ensures Filter(IsPlain, EntriesOf(calls)) == Filter(Not(IsProtected), Released(HoldCalls(calls)))
  {
    ValuesAreEntries(calls);
    assert FlagsAre(HoldCalls(calls), IsProtected);
    FifoPerClass(HoldCalls(calls), IsProtected);
  }

  /** The payload of call c gets out before that of the earlier call a if and only if c's is plain,
      a's is protected, and from a to c every call's fan-out met the snapshot loaded for it. */
  lemma OvertakingInPipeline(env: Env, s: State, a: nat, c: nat)
    requires Reachable(env, s) && a < c < |s.delivery.calls|
    requires IsPayload(s.delivery.calls[a].entry) && IsPayload(s.delivery.calls[c].entry)
    ensures forall k :: 0 <= k < |s.delivery.calls| ==> s.delivery.calls[k].version < |s.blocked.versions|
    ensures OutFirst(Departures(HoldCalls(s.delivery.calls)), c, a) <==>
            && IsProtected(s.delivery.calls[a].entry)
            && IsPlain(s.delivery.calls[c].entry)
            && forall k :: a <= k <= c ==>
                 Broadcaster.HasBlockedSendTarget(s.delivery.calls[k].leaders, s.blocked.versions[s.delivery.calls[k].version])
  {
    hide Exec, OutFirst, Departures;
    var calls := s.delivery.calls;
    forall k: nat | k < |calls|
      ensures RecordInv(s.blocked.versions, calls[k])
      ensures HoldCalls(calls)[k].blocked == calls[k].blocked
    {
      RecordOfCall(env, s, k);
    }
    OnlyHeldPayloadsAreOvertaken(HoldCalls(calls), a, c);
  }

  /** Every accepted payload is in exactly one place, with multiplicity. */
  lemma ConservationThroughPipeline(env: Env, s: State)
    requires Reachable(env, s)
    ensures multiset(Filter(IsPayload, s.channel.accepted)) ==
            multiset(ReleasedBy(s.delivery)) + multiset(s.delivery.buffer) + multiset(Filter(IsPayload, Ahead(s)))
  {
    ChannelOf(env, s);
    HoldOf(env, s);
    var calls := s.delivery.calls;
    FilterConcat(IsPayload, EntriesOf(calls), Ahead(s));
    ValuesAreEntries(calls);
    Conservation(HoldCalls(calls));
  }

  // ----- Exactly once -----

  lemma {:induction false} OccurrencesConcat(h: nat, a: seq<Entry>, b: seq<Entry>)
    ensures Occurrences(h, a + b) == Occurrences(h, a) + Occurrences(h, b)
  {
    if b == [] {
      assert a + b == a;
    } else {
      assert Init(a + b) == a + Init(b);
      OccurrencesConcat(h, a, Init(b));
    }
  }

  lemma {:induction false} OccurrencesOfPayloads(h: nat, entries: seq<Entry>)
    requires forall e :: e in entries && !IsPayload(e) ==> e.origin == FlushTask
    ensures Occurrences(h, Filter(IsPayload, entries)) == Occurrences(h, entries)
  {
    if entries != [] {
      OccurrencesOfPayloads(h, Init(entries));
      OccurrencesConcat(h, Filter(IsPayload, Init(entries)), if IsPayload(Last(entries)) then [Last(entries)] else []);
    }
  }

  lemma {:induction false} OccurrencesSplit(h: nat, calls: seq<Call<Entry>>)
    ensures Occurrences(h, Values(calls)) == Occurrences(h, Released(calls)) + Occurrences(h, Buffer(calls))
  {
    if calls != [] {
      var before, call := Init(calls), Last(calls);
      OccurrencesSplit(h, before);
      assert calls == before + [call];
      Snoc(before, call);
      OccurrencesConcat(h, Values(before) + Own(call), Kept(call));
      OccurrencesConcat(h, Values(before), Own(call));
      OccurrencesConcat(h, Released(before), Prepare(Buffer(before), call).ready);
      OccurrencesConcat(h, Buffer(before), Own(call));
      OccurrencesConcat(h, Buffer(before), Kept(call));
    }
  }

  lemma GenuinePayloads(handlers: seq<HandlerState>, e: Entry)
    requires Genuine(handlers, e)
    ensures IsPayload(e) <==> e.origin.Handler?
  {
    if e.origin.Handler? {
      var request := Delivered(handlers[e.origin.h]).value;
      NoPayloadIsFlush(request.wire, request.mevProtect);
    }
  }

  lemma OccurrencesOfCalls(h: nat, calls: seq<CallRecord>, handlers: seq<HandlerState>)
    requires forall e :: e in EntriesOf(calls) ==> Genuine(handlers, e)
    ensures Occurrences(h, EntriesOf(calls)) ==
            Occurrences(h, Released(HoldCalls(calls))) + Occurrences(h, Buffer(HoldCalls(calls)))
  {
    forall e | e in EntriesOf(calls) && !IsPayload(e)
      ensures e.origin == FlushTask
    {
      GenuinePayloads(handlers, e);
    }
    OccurrencesOfPayloads(h, EntriesOf(calls));
    ValuesAreEntries(calls);
    OccurrencesSplit(h, HoldCalls(calls));
  }

  /** The payload of a handler whose send succeeded is in the channel (or in the consumer's hand),
      in the buffer, or released, and in only one of them; that of any other handler is nowhere. */
  lemma InExactlyOnePlace(env: Env, s: State, h: nat)
    requires Reachable(env, s)
    ensures Occurrences(h, Ahead(s)) + Occurrences(h, s.delivery.buffer) + Occurrences(h, ReleasedBy(s.delivery)) ==
            One(h < |s.handlers| && Delivered(s.handlers[h]).Some?)
  {
    ChannelOf(env, s);
    OriginsOf(env, s);
    HoldOf(env, s);
    OccurrencesConcat(h, EntriesOf(s.delivery.calls), Ahead(s));
    OccurrencesOfCalls(h, s.delivery.calls, s.handlers);
  }

  /** How often the payload of handler h was tried at a fan-out position. */
  function Tries(h: nat, position: nat, attempts: seq<Attempt>): nat
  {
    if attempts == [] then 0
    else
      Tries(h, position, Init(attempts)) +
      One(Last(attempts).send.tx.origin == Handler(h) && Last(attempts).send.position == position)
  }

  lemma {:induction false} TriesConcat(h: nat, position: nat, a: seq<Attempt>, b: seq<Attempt>)
    ensures Tries(h, position, a + b) == Tries(h, position, a) + Tries(h, position, b)
  {
    if b == [] {
      assert a + b == a;
    } else {
      assert Init(a + b) == a + Init(b);
      TriesConcat(h, position, a, Init(b));
    }
  }

  lemma {:induction false} TriesOfSends(h: nat, position: nat, call: nat, sends: seq<Send<Entry>>)
    ensures Tries(h, position, Marked(call, sends)) == Occurrences(h, SeenBy(sends, position))
  {
    if sends != [] {
      TriesOfSends(h, position, call, Init(sends));
      assert Init(Marked(call, sends)) == Marked(call, Init(sends));
      OccurrencesConcat(h, SeenBy(Init(sends), position), if Last(sends).position == position then [Last(sends).tx] else []);
    }
  }

  lemma TriesOfCall(h: nat, position: nat, calls: seq<CallRecord>)
    requires calls != []
    ensures Tries(h, position, Plan(calls)) == Tries(h, position, Plan(Init(calls))) +
            (if position < |Last(calls).leaders| then Occurrences(h, LastOutput(calls)) else 0)
  {
    TriesConcat(h, position, Plan(Init(calls)), Marked(|calls| - 1, LastSends(calls)));
    TriesOfSends(h, position, |calls| - 1, LastSends(calls));
    EveryLeaderSeesAll(LastOutput(calls), Last(calls).leaders, position);
  }

  /** Call k released the payload of handler h, and it alone accounts for all its attempts. */
  ghost predicate TriedOnlyBy(calls: seq<CallRecord>, h: nat, k: nat)
  {
    && k < |calls|
    && Occurrences(h, OutputOf(calls, k)) == 1
    && forall position: nat :: Tries(h, position, Plan(calls)) == One(position < |calls[k].leaders|)
  }

  lemma TriedOnlyByLater(h: nat, calls: seq<CallRecord>, k: nat)
    requires calls != [] && TriedOnlyBy(Init(calls), h, k) && Occurrences(h, LastOutput(calls)) == 0
    ensures TriedOnlyBy(calls, h, k)
  {
    hide Tries, Plan, LastOutput, Occurrences;
    OutputOfPrefix(calls, |calls| - 1, k);
    forall position: nat
      ensures Tries(h, position, Plan(calls)) == One(position < |calls[k].leaders|)
    {
      TriesOfCall(h, position, calls);
    }
  }

  lemma TriedOnlyByLast(h: nat, calls: seq<CallRecord>)
    requires calls != [] && Occurrences(h, LastOutput(calls)) == 1
    requires forall position: nat :: Tries(h, position, Plan(Init(calls))) == 0
    ensures TriedOnlyBy(calls, h, |calls| - 1)
  {
    OutputOfLast(calls);
    forall position: nat
      ensures Tries(h, position, Plan(calls)) == One(position < |Last(calls).leaders|)
    {
      TriesOfCall(h, position, calls);
    }
  }

  lemma {:induction false} TriesOfRun(h: nat, calls: seq<CallRecord>)
    requires Occurrences(h, Released(HoldCalls(calls))) <= 1
    ensures Occurrences(h, Released(HoldCalls(calls))) == 0 ==> forall position: nat :: Tries(h, position, Plan(calls)) == 0
    ensures Occurrences(h, Released(HoldCalls(calls))) == 1 ==> exists k: nat :: TriedOnlyBy(calls, h, k)
  {
    if calls != [] {
      OutputOfLast(calls);
      OccurrencesConcat(h, Released(HoldCalls(Init(calls))), LastOutput(calls));
      TriesOfRun(h, Init(calls));
      if Occurrences(h, Released(HoldCalls(Init(calls)))) == 1 {
        var k: nat :| TriedOnlyBy(Init(calls), h, k);
        TriedOnlyByLater(h, calls, k);
      } else if Occurrences(h, LastOutput(calls)) == 1 {
        TriedOnlyByLast(h, calls);
      } else {
        forall position: nat
          ensures Tries(h, position, Plan(calls)) == 0
        {
          TriesOfCall(h, position, calls);
        }
      }
    }
  }

  lemma TriesOfPrefix(h: nat, position: nat, a: seq<Attempt>, b: seq<Attempt>)
    requires a <= b
    ensures Tries(h, position, a) <= Tries(h, position, b)
  {
    assert b == a + b[|a|..];
    TriesConcat(h, position, a, b[|a|..]);
  }

  // A payload is in the output of at most one call.

  lemma {:induction false} OutputIsCounted(h: nat, calls: seq<CallRecord>, k: nat)
    requires k < |calls|
    ensures Occurrences(h, OutputOf(calls, k)) <= Occurrences(h, Released(HoldCalls(calls)))
    ensures k < |calls| - 1 ==>
              Occurrences(h, OutputOf(calls, k)) + Occurrences(h, LastOutput(calls)) <= Occurrences(h, Released(HoldCalls(calls)))
  {
    OutputOfLast(calls);
    OccurrencesConcat(h, Released(HoldCalls(Init(calls))), LastOutput(calls));
    if k < |calls| - 1 {
      OutputOfPrefix(calls, |calls| - 1, k);
      OutputIsCounted(h, Init(calls), k);
    }
  }

  lemma OutputsAreDisjoint(h: nat, calls: seq<CallRecord>, j: nat, k: nat)
    requires j < k < |calls| && Occurrences(h, Released(HoldCalls(calls))) <= 1
    ensures Occurrences(h, OutputOf(calls, j)) + Occurrences(h, OutputOf(calls, k)) <= 1
  {
    hide Occurrences, Released, LastOutput;
    var window := calls[..k + 1];
    OutputIsCounted(h, window, j);
    OutputOfPrefix(calls, k + 1, j);
    ReleasedGrows(HoldCalls(calls), k + 1);
    assert HoldCalls(calls)[..k + 1] == HoldCalls(window);
    var rest := Released(HoldCalls(calls))[|Released(HoldCalls(window))|..];
    assert Released(HoldCalls(calls)) == Released(HoldCalls(window)) + rest;
    OccurrencesConcat(h, Released(HoldCalls(window)), rest);
  }

  lemma {:induction false} MembersOccur(h: nat, entries: seq<Entry>, e: Entry)
    requires e in entries && e.origin == Handler(h)
    ensures Occurrences(h, entries) >= 1
  {
    if e in Init(entries) {
      MembersOccur(h, Init(entries), e);
    }
  }

  /** The send loop of call k has ended. */
  predicate IsComplete(d: Delivery, k: nat)
  {
    k < |d.calls| && !(k == |d.calls| - 1 && d.consumer.SendingOut?)
  }

  /** Call k alone released the payload of handler h, made every attempt on it, and once complete
      has made exactly one at each position of its fan-out. */
  ghost predicate DeliveredBy(d: Delivery, h: nat, k: nat)
  {
    && k < |d.calls| && Occurrences(h, OutputOf(d.calls, k)) == 1
    && (forall j :: 0 <= j < |d.calls| && j != k ==> Occurrences(h, OutputOf(d.calls, j)) == 0)
    && (forall n :: 0 <= n < |d.attempts| && d.attempts[n].send.tx.origin == Handler(h) ==> d.attempts[n].call == k)
    && (IsComplete(d, k) ==>
          forall position: nat :: Tries(h, position, d.attempts) == One(position < |d.calls[k].leaders|))
  }

  lemma OnlyOutput(h: nat, calls: seq<CallRecord>, k: nat)
    requires k < |calls| && Occurrences(h, OutputOf(calls, k)) == 1 && Occurrences(h, Released(HoldCalls(calls))) <= 1
    ensures forall j :: 0 <= j < |calls| && j != k ==> Occurrences(h, OutputOf(calls, j)) == 0
  {
    forall j | 0 <= j < |calls| && j != k
      ensures Occurrences(h, OutputOf(calls, j)) == 0
    {
      if j < k { OutputsAreDisjoint(h, calls, j, k); } else { OutputsAreDisjoint(h, calls, k, j); }
    }
  }

  lemma OnlyAttempts(env: Env, s: State, h: nat, k: nat)
    requires Reachable(env, s)
    requires forall j :: 0 <= j < |s.delivery.calls| && j != k ==> Occurrences(h, OutputOf(s.delivery.calls, j)) == 0
    ensures forall n :: 0 <= n < |s.delivery.attempts| && s.delivery.attempts[n].send.tx.origin == Handler(h) ==>
                      s.delivery.attempts[n].call == k
  {
    hide Exec;
    forall n | 0 <= n < |s.delivery.attempts| && s.delivery.attempts[n].send.tx.origin == Handler(h)
      ensures s.delivery.attempts[n].call == k
    {
      var a := s.delivery.attempts[n];
      AttemptBelongs(env, s, n);
      MembersOccur(h, OutputOf(s.delivery.calls, a.call), a.send.tx);
    }
  }

  // An earlier call's attempts are complete while a later one is sending.
  lemma TriesOfEarlierCall(h: nat, calls: seq<CallRecord>, attempts: seq<Attempt>, k: nat)
    requires k < |calls| - 1 && TriedOnlyBy(calls, h, k) && Occurrences(h, LastOutput(calls)) == 0
    requires Plan(Init(calls)) <= attempts <= Plan(calls)
    ensures forall position: nat :: Tries(h, position, attempts) == One(position < |calls[k].leaders|)
  {
    forall position: nat
      ensures Tries(h, position, attempts) == One(position < |calls[k].leaders|)
    {
      TriesOfCall(h, position, calls);
      TriesOfPrefix(h, position, Plan(Init(calls)), attempts);
      TriesOfPrefix(h, position, attempts, Plan(calls));
    }
  }

  /** In every reachable state, no payload was tried twice at a fan-out position, and one that was
      not released was never tried.  A released one was tried by a single call, the one that
      released it, and as soon as that call is complete exactly once at each position of its
      fan-out, whatever later calls are doing. */
  lemma AttemptedExactlyOnce(env: Env, s: State, h: nat)
    requires Reachable(env, s)
    ensures forall position: nat :: Tries(h, position, s.delivery.attempts) <= 1
    ensures Occurrences(h, ReleasedBy(s.delivery)) == 0 ==>
              forall position: nat :: Tries(h, position, s.delivery.attempts) == 0
    ensures Occurrences(h, ReleasedBy(s.delivery)) != 0 ==> exists k: nat :: DeliveredBy(s.delivery, h, k)
  {
    hide Exec, Tries, Plan, Occurrences, LastOutput;
    InExactlyOnePlace(env, s, h);
    AttemptsOf(env, s);
    var calls := s.delivery.calls;
    TriesOfRun(h, calls);
    forall position: nat
      ensures Tries(h, position, s.delivery.attempts) <= Tries(h, position, Plan(calls)) <= 1
    {
      TriesOfPrefix(h, position, s.delivery.attempts, Plan(calls));
    }
    if Occurrences(h, ReleasedBy(s.delivery)) != 0 {
      var k: nat :| TriedOnlyBy(calls, h, k);
      OnlyOutput(h, calls, k);
      OnlyAttempts(env, s, h, k);
      if k < |calls| - 1 {
        OutputOfLast(calls);
        TriesOfEarlierCall(h, calls, s.delivery.attempts, k);
      }
      assert DeliveredBy(s.delivery, h, k);
    }
  }

  /** A call has attempted something if and only if it released something and its fan-out is not
      empty, and, while its own send loop runs, its first send is done.  An empty fan-out is never
      blocked and still empties the buffer. */
  lemma EmptyFanOutLosesPayloads(env: Env, s: State, k: nat)
    requires Reachable(env, s) && k < |s.delivery.calls|
    ensures HasAttempt(s.delivery.attempts, k) <==>
            && OutputOf(s.delivery.calls, k) != [] && s.delivery.calls[k].leaders != []
            && (IsComplete(s.delivery, k) || s.delivery.consumer.cursor > 0)
    ensures s.delivery.calls[k].leaders == [] ==>
              !s.delivery.calls[k].blocked && Buffer(HoldCalls(s.delivery.calls[..k + 1])) == []
  {
    hide Exec;
    InvReachable(env, s);
    if s.delivery.consumer.SendingOut? {
      AttemptsWhileSending(s.delivery, k);
    } else {
      PlanHasCall(s.delivery.calls, k);
    }
    var window := s.delivery.calls[..k + 1];
    OutputOfLast(window);
  }

  lemma AttemptsWhileSending(d: Delivery, k: nat)
    requires AttemptsInv(d) && d.consumer.SendingOut? && k < |d.calls|
    ensures HasAttempt(d.attempts, k) <==>
            && OutputOf(d.calls, k) != [] && d.calls[k].leaders != []
            && (k < |d.calls| - 1 || d.consumer.cursor > 0)
  {
    var begun := Marked(|d.calls| - 1, d.consumer.sends[..d.consumer.cursor]);
    HasAttemptConcat(Plan(Init(d.calls)), begun, k);
    if k < |d.calls| - 1 {
      PlanHasCall(Init(d.calls), k);
      OutputOfPrefix(d.calls, |d.calls| - 1, k);
    } else {
      EarlierCallsOnly(Init(d.calls));
      OutputOfLast(d.calls);
      LastHasAttempt(d.calls, k);
      if d.consumer.cursor > 0 {
        assert begun[0].call == k;
        assert Marked(|d.calls| - 1, LastSends(d.calls))[0].call == k;
      }
    }
  }

  /** It does happen: a protected transaction that a handler enqueued is released to an empty
      fan-out and tried nowhere, and by LostForGood it never will be. */
  lemma LostPayloadIsReachable(env: Env)
    requires env.capacity >= 1
    ensures exists s ::
              && Reachable(env, s) && s.delivery.consumer.Idle?
              && |s.delivery.calls| == 1 && s.delivery.calls[0].leaders == []
              && |s.handlers| == 1 && Delivered(s.handlers[0]) == Some(Request([], true))
              && DeliveredBy(s.delivery, 0, 0) && s.delivery.attempts == []
  {
    hide Exec, Encode;
    ProtectedQueueIsReachable(env);
    var entry := EntryOf(0, Request([], true));
    var s :| ProtectedQueued(env, s);
    var sending := UndisturbedCall(env, s, []);
    RoundTrip([], true);
    NoSends([entry]);
    assert sending.delivery.consumer == SendingOut([], 0);
    ReachableNext(env, sending, LeaveCall);
    var end := Next(env, sending, LeaveCall);
    LostByOnlyCall(end.delivery, entry);
  }

  /** A payload released to an empty fan-out is tried in no continuation of the run. */
  lemma LostForGood(env: Env, s: State, h: nat, k: nat, actions: seq<Action>)
    requires Reachable(env, s) && DeliveredBy(s.delivery, h, k) && s.delivery.calls[k].leaders == []
    requires Exec(env, s, actions).Some?
    ensures var t := Exec(env, s, actions).value;
            forall n :: 0 <= n < |t.delivery.attempts| ==> t.delivery.attempts[n].send.tx.origin != Handler(h)
  {
    hide Exec, Occurrences, LastOutput;
    var t := Exec(env, s, actions).value;
    ReachableExec(env, s, actions);
    ExecGrows(env, s, actions);
    OutputOfPrefix(t.delivery.calls, |s.delivery.calls|, k);
    assert t.delivery.calls[..|s.delivery.calls|] == s.delivery.calls;
    InExactlyOnePlace(env, t, h);
    OnlyOutput(h, t.delivery.calls, k);
    OnlyAttempts(env, t, h, k);
    forall n | 0 <= n < |t.delivery.attempts|
      ensures t.delivery.attempts[n].send.tx.origin != Handler(h)
    {
      AttemptBelongs(env, t, n);
    }
  }

  lemma NoSends(txs: seq<Entry>)
    ensures Sends(txs, []) == []
  {
    SendsLength(txs, []);
  }

  /** The state in which a call entered from here, with no other step in between, starts its sends. */
  lemma UndisturbedCall(env: Env, s: State, leaders: seq<SocketAddr>) returns (t: State)
    requires Reachable(env, s) && s.delivery.consumer.Idle? && s.channel.queue != []
    ensures Reachable(env, t) && t.handlers == s.handlers && t.blocked == s.blocked
    ensures var v := Latest(s.blocked.versions);
            var blocked := Broadcaster.HasBlockedSendTarget(leaders, s.blocked.current);
            t.delivery == DeliveryAfterPrepare(s.delivery, CallRecord(s.channel.queue[0], leaders, v, v, v, blocked))
  {
    hide Exec, DeliveryAfterPrepare, CountersAfterPrepare;
    ReachableNext(env, s, EnterCall(leaders));
    var entered := Next(env, s, EnterCall(leaders));
    ReachableNext(env, entered, LoadBlocked);
    var loaded := Next(env, entered, LoadBlocked);
    ReachableNext(env, loaded, PrepareCall);
    t := Next(env, loaded, PrepareCall);
    SameDelivery(s.delivery, loaded.delivery, RecordOf(loaded.delivery.consumer, Latest(s.blocked.versions)));
  }

  lemma SameDelivery(d: Delivery, e: Delivery, record: CallRecord)
    requires d == e.(consumer := d.consumer)
    ensures DeliveryAfterPrepare(d, record) == DeliveryAfterPrepare(e, record)
  {
  }

  lemma LostByOnlyCall(d: Delivery, entry: Entry)
    requires |d.calls| == 1 && HoldCall(d.calls[0]) == Call(Some(Item(entry, true)), false)
    requires entry.origin == Handler(0) && d.attempts == [] && d.calls[0].leaders == []
    ensures DeliveredBy(d, 0, 0)
  {
    assert d.calls[..1] == d.calls && Init(d.calls) == [];
    assert HoldCalls([]) == [];
    assert OutputOf(d.calls, 0) == [entry];
    OccurrencesSnoc(0, [], entry);
    assert [] + [entry] == [entry];
  }

  // A protected JSON-RPC transaction is alone in the queue, and nothing else has happened.
  ghost predicate ProtectedQueued(env: Env, s: State)
  {
    && Reachable(env, s) && s.channel.queue == [EntryOf(0, Request([], true))]
    && |s.handlers| == 1 && Delivered(s.handlers[0]) == Some(Request([], true))
    && s.delivery == START.delivery && s.blocked == START.blocked
  }

  lemma ProtectedRequestIsReachable(env: Env) returns (s: State)
    ensures Reachable(env, s)
    ensures s.handlers == [HandlerState(JsonRpc, RpcChecking(true))]
    ensures s.channel == START.channel && s.delivery == START.delivery && s.blocked == START.blocked
  {
    hide Exec, Wrap, Snapshot.Bump;
    StartIsReachable(env);
    ReachableNext(env, START, AcceptRpc(true));
    var entered := Next(env, START, AcceptRpc(true));
    ReachableNext(env, entered, Advance(0, CountRpc));
    var counted := Next(env, entered, Advance(0, CountRpc));
    ReachableNext(env, counted, Advance(0, CountFlag));
    s := Next(env, counted, Advance(0, CountFlag));
  }

  lemma ProtectedQueueIsReachable(env: Env)
    requires env.capacity >= 1
    ensures exists s :: ProtectedQueued(env, s)
  {
    hide Exec, Encode, Wrap, Snapshot.Bump;
    var checking := ProtectedRequestIsReachable(env);
    ReachableNext(env, checking, Advance(0, Validate([])));
    var sending := Next(env, checking, Advance(0, Validate([])));
    ReachableNext(env, sending, Advance(0, TrySend));
    assert ProtectedQueued(env, Next(env, sending, Advance(0, TrySend)));
  }

  ghost predicate HasAttempt(attempts: seq<Attempt>, k: nat)
  {
    exists n :: 0 <= n < |attempts| && attempts[n].call == k
  }

  lemma HasAttemptConcat(a: seq<Attempt>, b: seq<Attempt>, k: nat)
    ensures HasAttempt(a + b, k) <==> HasAttempt(a, k) || HasAttempt(b, k)
  {
    if n :| 0 <= n < |a| && a[n].call == k {
      assert (a + b)[n].call == k;
    }
    if n :| 0 <= n < |b| && b[n].call == k {
      assert (a + b)[|a| + n].call == k;
    }
  }

  lemma LastHasAttempt(calls: seq<CallRecord>, k: nat)
    requires calls != []
    ensures HasAttempt(Marked(|calls| - 1, LastSends(calls)), k) <==>
            k == |calls| - 1 && LastOutput(calls) != [] && Last(calls).leaders != []
  {
    SendsLength(LastOutput(calls), Last(calls).leaders);
    EmptyProduct(|LastOutput(calls)|, |Last(calls).leaders|);
    if LastSends(calls) != [] {
      assert Marked(|calls| - 1, LastSends(calls))[0].call == |calls| - 1;
    }
  }

  lemma {:induction false} PlanHasCall(calls: seq<CallRecord>, k: nat)
    requires k < |calls|
    ensures HasAttempt(Plan(calls), k) <==> OutputOf(calls, k) != [] && calls[k].leaders != []
  {
    HasAttemptConcat(Plan(Init(calls)), Marked(|calls| - 1, LastSends(calls)), k);
    LastHasAttempt(calls, k);
    if k < |calls| - 1 {
      PlanHasCall(Init(calls), k);
      OutputOfPrefix(calls, |calls| - 1, k);
    } else {
      OutputOfLast(calls);
      EarlierCallsOnly(Init(calls));
    }
  }

  lemma EarlierCallsOnly(calls: seq<CallRecord>)
    ensures forall n :: 0 <= n < |Plan(calls)| ==> Plan(calls)[n].call < |calls|
  {
    forall n | 0 <= n < |Plan(calls)|
      ensures Plan(calls)[n].call < |calls|
    {
      PlanBelongs(calls, n);
    }
  }

  lemma EmptyProduct(a: nat, b: nat)
    ensures a * b == 0 <==> a == 0 || b == 0
  {
  }

  // ----- Payload identity -----

  lemma {:induction false} ReleasedWereAccepted(calls: seq<CallRecord>, e: Entry)
    requires e in Released(HoldCalls(calls)) || e in Buffer(HoldCalls(calls))
    ensures e in EntriesOf(calls) && IsPayload(e)
  {
    var before, record := Init(calls), Last(calls);
    assert calls == before + [record];
    CallsSnoc(before, record);
    Snoc(HoldCalls(before), HoldCall(record));
    if e in Released(HoldCalls(before)) || e in Buffer(HoldCalls(before)) {
      ReleasedWereAccepted(before, e);
    }
  }

  lemma OutputIsReleased(calls: seq<CallRecord>, k: nat, e: Entry)
    requires k < |calls| && e in OutputOf(calls, k)
    ensures e in EntriesOf(calls) && IsPayload(e)
  {
    var window := calls[..k + 1];
    OutputOfLast(window);
    assert e in Released(HoldCalls(window));
    ReleasedWereAccepted(window, e);
    var i :| 0 <= i < |EntriesOf(window)| && EntriesOf(window)[i] == e;
    assert EntriesOf(calls)[i] == e;
  }

  /** Whatever is sent is, byte for byte, the transaction some handler enqueued, and the flag that
      decided its buffering is that handler's flag; a flush message is never sent. */
  lemma SentBytesAreSubmittedBytes(env: Env, s: State, n: nat)
    requires Reachable(env, s) && n < |s.delivery.attempts|
    ensures var e := s.delivery.attempts[n].send.tx;
            && e.origin.Handler? && e.origin.h < |s.handlers|
            && Delivered(s.handlers[e.origin.h]).Some?
            && var request := Delivered(s.handlers[e.origin.h]).value;
               && e.encoded != []
               && TpuClientPayload(e.encoded).WireTransaction() == request.wire
               && IsProtected(e) == request.mevProtect
  {
    ChannelOf(env, s);
    OriginsOf(env, s);
    AttemptBelongs(env, s, n);
    var a := s.delivery.attempts[n];
    OutputIsReleased(s.delivery.calls, a.call, a.send.tx);
    assert a.send.tx in s.channel.accepted;
    GenuinePayloads(s.handlers, a.send.tx);
    var request := Delivered(s.handlers[a.send.tx.origin.h]).value;
    RoundTrip(request.wire, request.mevProtect);
  }
}
