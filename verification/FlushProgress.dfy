/** Progress: the flush task keeps the channel non-empty, so held transactions leave with the
    first unblocked call, and everything accepted leaves within the queue's length of calls.
 */
module FlushProgress {
  import opened Prelude
  import opened HoldAndRelease
  import opened Pipeline
  import opened PipelineInvariant
  import opened PipelineRuns
  import opened DeliveryGuarantees
  import Broadcaster

  // ----- Held payloads leave with the first unblocked call -----

  lemma {:induction false} HeldStays<T>(calls: seq<Call<T>>, from: nat, until: nat)
    requires from <= until <= |calls| && forall i :: from <= i < until ==> calls[i].blocked
    ensures Buffer(calls[..from]) <= Buffer(calls[..until])
    decreases until
  {
    if from < until {
      HeldStays(calls, from, until - 1);
      assert calls[..until] == calls[..until - 1] + [calls[until - 1]];
      Snoc(calls[..until - 1], calls[until - 1]);
    }
  }

  lemma LeavesAtFirstUnblocked<T>(calls: seq<Call<T>>, from: nat)
    requires from <= |calls| && NextUnblocked(calls, from) < |calls|
    ensures var k := NextUnblocked(calls, from);
            && Buffer(calls[..from]) <= Output(calls, k)
            && Buffer(calls[..k + 1]) == []
            && forall x :: x in Buffer(calls[..from]) ==> x in Released(calls)
  {
    var k := NextUnblocked(calls, from);
    HeldStays(calls, from, k);
    assert calls[..k + 1] == calls[..k] + [calls[k]];
    Snoc(calls[..k], calls[k]);
    ReleasedGrows(calls, k + 1);
    forall x | x in Buffer(calls[..from])
      ensures x in Released(calls)
    {
      assert x in Output(calls, k);
      assert x in Released(calls[..k + 1]);
    }
  }

  // A run that ends unblocked has released everything.
  lemma NothingHeldBack<T>(calls: seq<Call<T>>, until: nat)
    requires 0 < until <= |calls| && !calls[until - 1].blocked
    ensures forall x :: x in Values(calls[..until]) ==> x in Released(calls)
  {
    assert calls[..until] == calls[..until - 1] + [calls[until - 1]];
    Snoc(calls[..until - 1], calls[until - 1]);
    Conservation(calls[..until]);
    ReleasedGrows(calls, until);
    forall x | x in Values(calls[..until])
      ensures x in Released(calls)
    {
      assert x in multiset(Values(calls[..until]));
      assert x in multiset(Released(calls[..until]));
    }
  }

  // ----- The flush theorem -----

  /** With an open channel, a flush tick leaves a message in the queue, even when it is refused
      because the queue is full. */
  lemma FlushTickLeavesMessage(env: Env, s: State)
    requires s.channel.open && env.capacity >= 1
    ensures var t := Next(env, s, FlushTick);
            && t.channel.queue != []
            && s.channel.queue <= t.channel.queue
            && t.delivery == s.delivery
  {
  }

  lemma PrefixOfCalls(calls: seq<CallRecord>, n: nat)
    requires n <= |calls|
    ensures HoldCalls(calls)[..n] == HoldCalls(calls[..n])
    ensures EntriesOf(calls)[..n] == EntriesOf(calls[..n])
  {
  }

  /** The calls between t and a later u take the messages that were ahead at t, in order. */
  ghost predicate AheadIsTaken(t: State, u: State)
  {
    forall i :: 0 <= i < |Ahead(t)| && |t.delivery.calls| + i < |u.delivery.calls| ==>
      u.delivery.calls[|t.delivery.calls| + i].entry == Ahead(t)[i]
  }

  /** What was held at t leaves, ahead of anything else, with the first unblocked call after t. */
  ghost predicate HeldLeaves(t: State, u: State)
  {
    && |t.delivery.calls| <= |u.delivery.calls|
    && var k := NextUnblocked(HoldCalls(u.delivery.calls), |t.delivery.calls|);
       k < |u.delivery.calls| ==>
         && t.delivery.buffer <= Output(HoldCalls(u.delivery.calls), k)
         && Buffer(HoldCalls(u.delivery.calls)[..k + 1]) == []
         && forall e :: e in t.delivery.buffer ==> e in ReleasedBy(u.delivery)
  }

  /** Once any call from the one that takes the last message ahead at t on turns out unblocked,
      every payload accepted up to t has left. */
  ghost predicate AcceptedLeaves(t: State, u: State)
  {
    var m := |t.delivery.calls| + |Ahead(t)|;
    forall j :: 0 <= j < |u.delivery.calls| && m <= j + 1 && !u.delivery.calls[j].blocked ==>
      forall e :: e in t.channel.accepted && IsPayload(e) ==> e in ReleasedBy(u.delivery)
  }

  lemma NextCallsTakeAhead(env: Env, t: State, u: State)
    requires Reachable(env, t) && Reachable(env, u) && Grows(t, u)
    ensures AheadIsTaken(t, u)
    ensures |u.delivery.calls| >= |t.delivery.calls| + |Ahead(t)| ==>
              t.channel.accepted == EntriesOf(u.delivery.calls[..|t.delivery.calls| + |Ahead(t)|])
  {
    hide Exec;
    ChannelOf(env, t);
    ChannelOf(env, u);
    var n := |t.delivery.calls|;
    forall i | 0 <= i < |Ahead(t)| && n + i < |u.delivery.calls|
      ensures u.delivery.calls[n + i].entry == Ahead(t)[i]
    {
      assert u.channel.accepted[n + i] == EntriesOf(u.delivery.calls)[n + i];
      assert t.channel.accepted[n + i] == Ahead(t)[i];
    }
    if |u.delivery.calls| >= n + |Ahead(t)| {
      PrefixOfCalls(u.delivery.calls, n + |Ahead(t)|);
      assert u.channel.accepted[..n + |Ahead(t)|] == EntriesOf(u.delivery.calls)[..n + |Ahead(t)|];
      assert t.channel.accepted == u.channel.accepted[..n + |Ahead(t)|];
    }
  }

  lemma HeldLeavesFirst(t: State, u: State)
    requires t.delivery.buffer == Buffer(HoldCalls(t.delivery.calls)) && Grows(t, u)
    ensures HeldLeaves(t, u)
  {
    hide Buffer, Released, Output, NextUnblocked;
    var n := |t.delivery.calls|;
    PrefixOfCalls(u.delivery.calls, n);
    assert u.delivery.calls[..n] == t.delivery.calls;
    if NextUnblocked(HoldCalls(u.delivery.calls), n) < |u.delivery.calls| {
      LeavesAtFirstUnblocked(HoldCalls(u.delivery.calls), n);
    }
  }

  lemma AcceptedLeavesInTime(env: Env, t: State, u: State)
    requires Reachable(env, t) && Reachable(env, u) && Grows(t, u)
    ensures AcceptedLeaves(t, u)
  {
    hide Exec;
    var calls, m := u.delivery.calls, |t.delivery.calls| + |Ahead(t)|;
    NextCallsTakeAhead(env, t, u);
    forall j | 0 <= j < |calls| && m <= j + 1 && !calls[j].blocked
      ensures forall e :: e in t.channel.accepted && IsPayload(e) ==> e in ReleasedBy(u.delivery)
    {
      AcceptedLeft(calls, m, j + 1);
    }
  }

  /** From any reachable state with an open channel, after a flush tick and any further run: the
      queue was not empty after the tick; the next calls take exactly the messages then ahead;
      what was held leaves with the first unblocked call; and once the call that takes the last
      message then ahead, or any later one, turns out unblocked, everything accepted up to the
      tick has left. */
  lemma FlushedPayloadsLeave(env: Env, s: State, rest: seq<Action>)
    requires Reachable(env, s) && s.channel.open && env.capacity >= 1
    requires Exec(env, Next(env, s, FlushTick), rest).Some?
    ensures var t := Next(env, s, FlushTick);
            var u := Exec(env, t, rest).value;
            Ahead(t) != [] && AheadIsTaken(t, u) && HeldLeaves(t, u) && AcceptedLeaves(t, u)
  {
    hide Exec, AheadIsTaken, HeldLeaves, AcceptedLeaves;
    var t := Next(env, s, FlushTick);
    FlushTickLeavesMessage(env, s);
    ExecOne(env, s, FlushTick);
    ReachableExec(env, s, [FlushTick]);
    ReachableExec(env, t, rest);
    ExecGrows(env, t, rest);
    var u := Exec(env, t, rest).value;
    NextCallsTakeAhead(env, t, u);
    HoldOf(env, t);
    HeldLeavesFirst(t, u);
    AcceptedLeavesInTime(env, t, u);
  }

  lemma AcceptedLeft(calls: seq<CallRecord>, m: nat, j: nat)
    requires m <= j <= |calls| && 0 < j && !calls[j - 1].blocked
    ensures forall e :: e in EntriesOf(calls[..m]) && IsPayload(e) ==> e in Released(HoldCalls(calls))
  {
    NothingHeldBack(HoldCalls(calls), j);
    PrefixOfCalls(calls, j);
    ValuesAreEntries(calls[..j]);
    forall e | e in EntriesOf(calls[..m]) && IsPayload(e)
      ensures e in Released(HoldCalls(calls))
    {
      var i :| 0 <= i < m && EntriesOf(calls[..m])[i] == e;
      assert EntriesOf(calls[..j])[i] == e;
      FilterKeeps(IsPayload, EntriesOf(calls[..j]), e);
    }
  }

  lemma {:induction false} FilterKeeps<T>(p: T -> bool, s: seq<T>, x: T)
    requires x in s && p(x)
    ensures x in Filter(p, s)
  {
    if x in Init(s) {
      FilterKeeps(p, Init(s), x);
    }
  }

  // ----- The consumer is never stuck -----

  ghost predicate ConsumerReaches(env: Env, s: State, actions: seq<Action>, t: State)
  {
    Exec(env, s, actions) == Some(t) && forall i :: 0 <= i < |actions| ==> IsConsumerStep(actions[i])
  }

  lemma ReachesItself(env: Env, s: State)
    ensures ConsumerReaches(env, s, [], s)
  {
  }

  lemma ConsumerThen(env: Env, s: State, a: Action, rest: seq<Action>, t: State)
    requires Enabled(s, a) && IsConsumerStep(a) && ConsumerReaches(env, Next(env, s, a), rest, t)
    ensures ConsumerReaches(env, s, [a] + rest, t)
  {
    ExecOne(env, s, a);
    ExecConcat(env, s, [a], rest);
  }

  ghost predicate SameSurroundings(s: State, t: State)
  {
    t.channel == s.channel && t.blocked == s.blocked && t.handlers == s.handlers
  }

  lemma {:induction false} FinishSending(env: Env, s: State)
    requires s.delivery.consumer.SendingOut?
    ensures exists actions, t :: ConsumerReaches(env, s, actions, t) && SameSurroundings(s, t) && t.delivery.consumer.Idle?
    decreases |s.delivery.consumer.sends| - s.delivery.consumer.cursor
  {
    if s.delivery.consumer.cursor < |s.delivery.consumer.sends| {
      var next := Next(env, s, SendNext);
      FinishSending(env, next);
      var rest, t :| ConsumerReaches(env, next, rest, t) && SameSurroundings(next, t) && t.delivery.consumer.Idle?;
      ConsumerThen(env, s, SendNext, rest, t);
    } else {
      ExecOne(env, s, LeaveCall);
      assert ConsumerReaches(env, s, [LeaveCall], Next(env, s, LeaveCall));
    }
  }

  lemma FinishCall(env: Env, s: State)
    ensures exists actions, t :: ConsumerReaches(env, s, actions, t) && SameSurroundings(s, t) && t.delivery.consumer.Idle?
    decreases match s.delivery.consumer case Entered(_, _, _) => 2 case Loaded(_, _, _, _, _) => 1 case _ => 0
  {
    match s.delivery.consumer
    case Idle =>
      assert ConsumerReaches(env, s, [], s);
    case SendingOut(_, _) =>
      FinishSending(env, s);
    case Entered(_, _, _) =>
      var next := Next(env, s, LoadBlocked);
      FinishCall(env, next);
      var rest, t :| ConsumerReaches(env, next, rest, t) && SameSurroundings(next, t) && t.delivery.consumer.Idle?;
      ConsumerThen(env, s, LoadBlocked, rest, t);
    case Loaded(_, _, _, _, _) =>
      var next := Next(env, s, PrepareCall);
      FinishCall(env, next);
      var rest, t :| ConsumerReaches(env, next, rest, t) && SameSurroundings(next, t) && t.delivery.consumer.Idle?;
      ConsumerThen(env, s, PrepareCall, rest, t);
  }

  lemma DrainFromIdle(env: Env, s: State, leaders: seq<SocketAddr>)
    requires s.delivery.consumer.Idle? && s.channel.queue != []
    requires !Broadcaster.HasBlockedSendTarget(leaders, s.blocked.current)
    ensures exists actions, u :: ConsumerReaches(env, s, actions, u) && u.delivery.buffer == []
  {
    hide Exec;
    var entered := Next(env, s, EnterCall(leaders));
    var loaded := Next(env, entered, LoadBlocked);
    var u := Next(env, loaded, PrepareCall);
    ReachesItself(env, u);
    ConsumerThen(env, loaded, PrepareCall, [], u);
    ConsumerThen(env, entered, LoadBlocked, [PrepareCall] + [], u);
    ConsumerThen(env, s, EnterCall(leaders), [LoadBlocked] + ([PrepareCall] + []), u);
  }

  /** After a flush tick the consumer can, by its own steps alone and wherever it stands, reach a
      call that empties the buffer, given a fan-out the current set does not block. */
  lemma ConsumerCanDrain(env: Env, s: State, leaders: seq<SocketAddr>)
    requires s.channel.open && env.capacity >= 1
    requires !Broadcaster.HasBlockedSendTarget(leaders, s.blocked.current)
    ensures exists actions, u :: ConsumerReaches(env, Next(env, s, FlushTick), actions, u) && u.delivery.buffer == []
  {
    var t := Next(env, s, FlushTick);
    FlushTickLeavesMessage(env, s);
    FinishCall(env, t);
    var actions, idle :| ConsumerReaches(env, t, actions, idle) && SameSurroundings(t, idle) && idle.delivery.consumer.Idle?;
    DrainFromIdle(env, idle, leaders);
    var last, u :| ConsumerReaches(env, idle, last, u) && u.delivery.buffer == [];
    ExecConcat(env, t, actions, last);
    assert ConsumerReaches(env, t, actions + last, u);
  }
}
