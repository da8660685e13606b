/** The snapshot of blocked leaders: a call decides on a set that is current inside the call.  The
    guarantee for protected transactions is about that set, not about the one that is current when
    an attempt is made.
 */
module StaleSnapshots {
  import opened Prelude
  import opened TpuPayload
  import opened FanOut
  import opened Pipeline
  import opened PipelineInvariant
  import opened PipelineRuns
  import opened DeliveryGuarantees
  import Broadcaster
  import Shield

  /** The next send of this state. */
  function NextSend(s: State): Send<Entry>
    requires Enabled(s, SendNext)
  {
    s.delivery.consumer.sends[s.delivery.consumer.cursor]
  }

  /** The next step of the consumer tries a protected transaction at a leader that is blocked now. */
  predicate IsStaleSend(s: State)
  {
    Enabled(s, SendNext) && IsProtected(NextSend(s).tx) && NextSend(s).leader in s.blocked.current
  }

  // ----- The snapshot is taken inside the call -----

  /** At some point of this run the current set was the given one. */
  ghost predicate WasCurrent(env: Env, s: State, actions: seq<Action>, leaders: set<SocketAddr>)
  {
    exists i :: 0 <= i <= |actions| && CurrentAt(env, s, actions, i, leaders)
  }

  ghost predicate CurrentAt(env: Env, s: State, actions: seq<Action>, i: nat, leaders: set<SocketAddr>)
    requires i <= |actions|
  {
    Exec(env, s, actions[..i]).Some? && Exec(env, s, actions[..i]).value.blocked.current == leaders
  }

  lemma WasCurrentMore(env: Env, s: State, actions: seq<Action>, leaders: set<SocketAddr>)
    requires actions != [] && WasCurrent(env, s, Init(actions), leaders)
    ensures WasCurrent(env, s, actions, leaders)
  {
    var i :| 0 <= i <= |Init(actions)| && CurrentAt(env, s, Init(actions), i, leaders);
    assert Init(actions)[..i] == actions[..i];
    assert CurrentAt(env, s, actions, i, leaders);
  }

  lemma WasCurrentBefore(env: Env, s: State, actions: seq<Action>)
    requires actions != [] && Exec(env, s, Init(actions)).Some?
    ensures WasCurrent(env, s, actions, Exec(env, s, Init(actions)).value.blocked.current)
  {
    assert CurrentAt(env, s, actions, |actions| - 1, Exec(env, s, Init(actions)).value.blocked.current);
  }

  /** The call of this entry and fan-out was decided by the given set. */
  ghost predicate DecidedBy(record: CallRecord, entry: Entry, leaders: seq<SocketAddr>, snapshot: set<SocketAddr>)
  {
    && record.entry == entry && record.leaders == leaders
    && (record.blocked <==> exists j :: 0 <= j < |leaders| && leaders[j] in snapshot)
  }

  /** Where the call that was entered last is, after a run from its entry on. */
  ghost predicate CallUnderWay(env: Env, s: State, actions: seq<Action>, t: State, entry: Entry, leaders: seq<SocketAddr>)
  {
    var n, c := |s.delivery.calls|, t.delivery.consumer;
    if t.delivery.calls == s.delivery.calls then
      || (c.Entered? && c.entry == entry && c.leaders == leaders)
      || (c.Loaded? && c.entry == entry && c.leaders == leaders && WasCurrent(env, s, actions, c.snapshot))
    else
      && n < |t.delivery.calls|
      && exists snapshot :: WasCurrent(env, s, actions, snapshot) && DecidedBy(t.delivery.calls[n], entry, leaders, snapshot)
  }

  lemma CallStep(env: Env, s: State, actions: seq<Action>, entry: Entry, leaders: seq<SocketAddr>)
    requires actions != [] && Exec(env, s, actions).Some?
    requires var before := Exec(env, s, Init(actions)).value;
             Grows(s, before) && CallUnderWay(env, s, Init(actions), before, entry, leaders)
    ensures CallUnderWay(env, s, actions, Exec(env, s, actions).value, entry, leaders)
  {
    hide WasCurrent;
    var before, a := Exec(env, s, Init(actions)).value, Last(actions);
    var n := |s.delivery.calls|;
    if before.delivery.calls == s.delivery.calls {
      if before.delivery.consumer.Loaded? {
        WasCurrentMore(env, s, actions, before.delivery.consumer.snapshot);
        if a.PrepareCall? {
          assert DecidedBy(RecordOf(before.delivery.consumer, Latest(before.blocked.versions)), entry, leaders,
                           before.delivery.consumer.snapshot);
        }
      } else if a.LoadBlocked? {
        WasCurrentBefore(env, s, actions);
      }
    } else {
      var snapshot :| WasCurrent(env, s, Init(actions), snapshot) && DecidedBy(before.delivery.calls[n], entry, leaders, snapshot);
      WasCurrentMore(env, s, actions, snapshot);
      NextGrows(env, before, a);
    }
  }

  lemma {:induction false} CallIsUnderWay(env: Env, s: State, actions: seq<Action>, entry: Entry, leaders: seq<SocketAddr>)
    requires s.delivery.consumer.Entered? && s.delivery.consumer.entry == entry && s.delivery.consumer.leaders == leaders
    requires Exec(env, s, actions).Some?
    ensures CallUnderWay(env, s, actions, Exec(env, s, actions).value, entry, leaders)
  {
    hide CallUnderWay;
    if actions == [] {
      JustEntered(env, s, entry, leaders);
    } else {
      CallIsUnderWay(env, s, Init(actions), entry, leaders);
      ExecGrows(env, s, Init(actions));
      CallStep(env, s, actions, entry, leaders);
    }
  }

  lemma JustEntered(env: Env, s: State, entry: Entry, leaders: seq<SocketAddr>)
    requires s.delivery.consumer.Entered? && s.delivery.consumer.entry == entry && s.delivery.consumer.leaders == leaders
    ensures CallUnderWay(env, s, [], s, entry, leaders)
  {
  }

  /** From the entry of a call on, in every run: the record of that call takes the message at the head
      of the queue and the given fan-out, and it is blocked exactly if the fan-out meets a set that
      was current at a moment of the run after the call was entered and before it was prepared. */
  lemma SnapshotIsTakenInside(env: Env, s: State, leaders: seq<SocketAddr>, actions: seq<Action>)
    requires Enabled(s, EnterCall(leaders))
    requires Exec(env, Next(env, s, EnterCall(leaders)), actions).Some?
    requires Exec(env, Next(env, s, EnterCall(leaders)), actions).value.delivery.calls != s.delivery.calls
    ensures var entered := Next(env, s, EnterCall(leaders));
            var t := Exec(env, entered, actions).value;
            var n := |s.delivery.calls|;
            && n < |t.delivery.calls|
            && exists snapshot ::
                 && WasCurrent(env, entered, UntilPrepared(actions), snapshot)
                 && DecidedBy(t.delivery.calls[n], s.channel.queue[0], leaders, snapshot)
  {
    hide Exec, WasCurrent, DecidedBy;
    DecidedInside(env, Next(env, s, EnterCall(leaders)), actions, s.channel.queue[0], leaders);
  }

  lemma DecidedInside(env: Env, s: State, actions: seq<Action>, entry: Entry, leaders: seq<SocketAddr>)
    requires s.delivery.consumer.Entered? && s.delivery.consumer.entry == entry && s.delivery.consumer.leaders == leaders
    requires Exec(env, s, actions).Some? && Exec(env, s, actions).value.delivery.calls != s.delivery.calls
    ensures var t, n := Exec(env, s, actions).value, |s.delivery.calls|;
            && n < |t.delivery.calls|
            && exists snapshot ::
                 && WasCurrent(env, s, UntilPrepared(actions), snapshot)
                 && DecidedBy(t.delivery.calls[n], entry, leaders, snapshot)
  {
    hide Exec, CallUnderWay, WasCurrent, DecidedBy;
    var first := UntilPrepared(actions);
    FirstPrepare(env, s, actions);
    var prepared := Exec(env, s, first).value;
    CallIsUnderWay(env, s, first, entry, leaders);
    ExecPrefix(env, s, actions, |first|);
    assert actions[..|first|] == first;
    ExecGrows(env, prepared, actions[|first|..]);
    CallIsDecided(env, s, first, prepared, entry, leaders);
  }

  lemma CallIsDecided(env: Env, s: State, actions: seq<Action>, t: State, entry: Entry, leaders: seq<SocketAddr>)
    requires CallUnderWay(env, s, actions, t, entry, leaders) && t.delivery.calls != s.delivery.calls
    ensures |s.delivery.calls| < |t.delivery.calls|
    ensures exists snapshot ::
              WasCurrent(env, s, actions, snapshot) && DecidedBy(t.delivery.calls[|s.delivery.calls|], entry, leaders, snapshot)
  {
  }

  /** The actions up to and with the first that prepares a call. */
  function UntilPrepared(actions: seq<Action>): (first: seq<Action>)
    ensures first <= actions
  {
    if actions == [] then []
    else if actions[0].PrepareCall? then [actions[0]]
    else [actions[0]] + UntilPrepared(actions[1..])
  }

  lemma {:induction false} NoPrepareNoCall(env: Env, s: State, actions: seq<Action>)
    requires Exec(env, s, actions).Some? && forall i :: 0 <= i < |actions| ==> !actions[i].PrepareCall?
    ensures Exec(env, s, actions).value.delivery.calls == s.delivery.calls
  {
    if actions != [] {
      NoPrepareNoCall(env, s, Init(actions));
      assert Last(actions) == actions[|actions| - 1];
    }
  }

  lemma {:induction false} FirstPrepareIndex(actions: seq<Action>)
    ensures var first := UntilPrepared(actions);
            && (forall i :: 0 <= i < |first| - 1 ==> !first[i].PrepareCall?)
            && ((first != [] && Last(first).PrepareCall?) || (first == actions && forall i :: 0 <= i < |first| ==> !first[i].PrepareCall?))
  {
    if actions != [] && !actions[0].PrepareCall? {
      FirstPrepareIndex(actions[1..]);
    }
  }

  // Up to its first preparation a run that makes a call has made one.
  lemma FirstPrepare(env: Env, s: State, actions: seq<Action>)
    requires Exec(env, s, actions).Some? && Exec(env, s, actions).value.delivery.calls != s.delivery.calls
    ensures Exec(env, s, UntilPrepared(actions)).Some?
    ensures Exec(env, s, UntilPrepared(actions)).value.delivery.calls != s.delivery.calls
  {
    var first := UntilPrepared(actions);
    FirstPrepareIndex(actions);
    ExecPrefix(env, s, actions, |first|);
    assert actions[..|first|] == first;
    if first != [] && Last(first).PrepareCall? {
      NoPrepareNoCall(env, s, Init(first));
    } else {
      NoPrepareNoCall(env, s, actions);
    }
  }

  // ----- The next send and its call -----

  lemma SendsOfCall(env: Env, s: State)
    requires Reachable(env, s) && s.delivery.consumer.SendingOut?
    ensures s.delivery.calls != [] && s.delivery.consumer.sends == LastSends(s.delivery.calls)
    ensures s.blocked.versions != [] && Last(s.blocked.versions) == s.blocked.current
    ensures RecordInv(s.blocked.versions, Last(s.delivery.calls))
  {
    InvReachable(env, s);
  }

  lemma ProtectedOutputMeansUnblocked(calls: seq<CallRecord>, e: Entry)
    requires calls != [] && e in LastOutput(calls) && IsProtected(e)
    ensures !Last(calls).blocked
  {
    OutputOfLast(calls);
    if Last(calls).blocked {
      BlockedCallOutput(calls, |calls| - 1, e);
    }
  }

  /** A stale send needs a store since its call loaded the snapshot. */
  lemma FreshSnapshotAvoidsCurrent(env: Env, s: State)
    requires Reachable(env, s) && IsStaleSend(s)
    ensures s.delivery.calls != [] && Last(s.delivery.calls).version < |s.blocked.versions| - 1
  {
    hide Exec;
    SendsOfCall(env, s);
    var calls := s.delivery.calls;
    Broadcaster.SendOrigin(LastOutput(calls), Last(calls).leaders, s.delivery.consumer.cursor);
    ProtectedOutputMeansUnblocked(calls, NextSend(s).tx);
  }

  // ----- A whole send loop -----

  /** Step i of a run is the send at this place of a send loop. */
  ghost predicate SendsAtStep(env: Env, s: State, actions: seq<Action>, i: nat, sends: seq<Send<Entry>>, cursor: nat)
  {
    && i < |actions| && actions[i] == SendNext
    && Exec(env, s, actions[..i]).Some?
    && Exec(env, s, actions[..i]).value.delivery.consumer == SendingOut(sends, cursor)
  }

  ghost predicate SendsDuring(env: Env, s: State, actions: seq<Action>, sends: seq<Send<Entry>>, cursor: nat)
  {
    exists i: nat :: SendsAtStep(env, s, actions, i, sends, cursor)
  }

  /** Some step of the run is a stale send. */
  ghost predicate SendsStale(env: Env, s: State, actions: seq<Action>)
  {
    exists i :: 0 <= i < |actions| && StaleAtStep(env, s, actions, i)
  }

  ghost predicate StaleAtStep(env: Env, s: State, actions: seq<Action>, i: nat)
    requires i < |actions|
  {
    && actions[i] == SendNext
    && Exec(env, s, actions[..i]).Some? && IsStaleSend(Exec(env, s, actions[..i]).value)
  }

  lemma SendsDuringMore(env: Env, s: State, actions: seq<Action>, sends: seq<Send<Entry>>, cursor: nat)
    requires actions != [] && SendsDuring(env, s, Init(actions), sends, cursor)
    ensures SendsDuring(env, s, actions, sends, cursor)
  {
    var i: nat :| SendsAtStep(env, s, Init(actions), i, sends, cursor);
    assert Init(actions)[..i] == actions[..i];
    assert SendsAtStep(env, s, actions, i, sends, cursor);
  }

  lemma SendsDuringLast(env: Env, s: State, actions: seq<Action>, sends: seq<Send<Entry>>, cursor: nat)
    requires actions != [] && Last(actions) == SendNext && Exec(env, s, Init(actions)).Some?
    requires Exec(env, s, Init(actions)).value.delivery.consumer == SendingOut(sends, cursor)
    ensures SendsDuring(env, s, actions, sends, cursor)
  {
    assert SendsAtStep(env, s, actions, |actions| - 1, sends, cursor);
  }

  /** How far the send loop that s is at the start of has come in t. */
  function Progress(t: State, sends: seq<Send<Entry>>): nat
  {
    if t.delivery.consumer.SendingOut? then t.delivery.consumer.cursor else |sends|
  }

  /** Until the next call is prepared, a run makes the sends of the loop it started in, one by one. */
  lemma {:induction false} LoopIsWorkedOff(env: Env, s: State, actions: seq<Action>, sends: seq<Send<Entry>>)
    requires s.delivery.consumer == SendingOut(sends, 0)
    requires Exec(env, s, actions).Some? && Exec(env, s, actions).value.delivery.calls == s.delivery.calls
    ensures var t := Exec(env, s, actions).value;
            && (t.delivery.consumer.SendingOut? ==> t.delivery.consumer.sends == sends)
            && Progress(t, sends) <= |sends|
            && forall n: nat :: n < Progress(t, sends) ==> SendsDuring(env, s, actions, sends, n)
  {
    if actions != [] {
      var before := Exec(env, s, Init(actions)).value;
      ExecGrows(env, s, Init(actions));
      NextGrows(env, before, Last(actions));
      LoopIsWorkedOff(env, s, Init(actions), sends);
      LoopStep(before, Last(actions), Next(env, before, Last(actions)), env, sends);
      forall n: nat | n < Progress(Next(env, before, Last(actions)), sends)
        ensures SendsDuring(env, s, actions, sends, n)
      {
        if n < Progress(before, sends) {
          SendsDuringMore(env, s, actions, sends, n);
        } else {
          SendsDuringLast(env, s, actions, sends, n);
        }
      }
    }
  }

  lemma LoopStep(s: State, a: Action, t: State, env: Env, sends: seq<Send<Entry>>)
    requires Enabled(s, a) && t == Next(env, s, a) && t.delivery.calls == s.delivery.calls
    requires s.delivery.consumer.SendingOut? ==> s.delivery.consumer.sends == sends
    requires Progress(s, sends) <= |sends|
    ensures t.delivery.consumer.SendingOut? ==> t.delivery.consumer.sends == sends
    ensures Progress(t, sends) == Progress(s, sends) ||
            (a == SendNext && s.delivery.consumer == SendingOut(sends, Progress(s, sends)) && Progress(t, sends) == Progress(s, sends) + 1)
  {
  }

  // While nothing is stored the current set stays.
  lemma CurrentStays(env: Env, s: State, actions: seq<Action>, i: nat)
    requires Reachable(env, s) && i <= |actions| && Exec(env, s, actions).Some?
    requires Exec(env, s, actions).value.blocked.versions == s.blocked.versions
    requires Exec(env, s, actions).value.delivery.calls == s.delivery.calls
    ensures Exec(env, s, actions[..i]).Some?
    ensures Exec(env, s, actions[..i]).value.blocked.current == s.blocked.current
    ensures Exec(env, s, actions[..i]).value.delivery.calls == s.delivery.calls
    ensures Reachable(env, Exec(env, s, actions[..i]).value)
  {
    ExecPrefix(env, s, actions, i);
    var t := Exec(env, s, actions[..i]).value;
    ExecGrows(env, s, actions[..i]);
    ExecGrows(env, t, actions[i..]);
    ReachableExec(env, s, actions[..i]);
    CurrentIsLast(env, s);
    CurrentIsLast(env, t);
  }

  /** The exact condition.  Take any run from the start of a send loop with a protected payload to
      the end of that loop, during which other threads do anything but store a set.  It makes a
      stale send if and only if the fan-out of the call meets the set that is current at its start. */
  lemma StaleSendCondition(env: Env, s: State, actions: seq<Action>, e: Entry)
    requires Reachable(env, s) && s.delivery.consumer.SendingOut? && s.delivery.consumer.cursor == 0
    requires s.delivery.calls != [] && e in LastOutput(s.delivery.calls) && IsProtected(e)
    requires Exec(env, s, actions).Some?
    requires var t := Exec(env, s, actions).value;
             && t.delivery.calls == s.delivery.calls && IsComplete(t.delivery, |t.delivery.calls| - 1)
             && t.blocked.versions == s.blocked.versions
    ensures SendsStale(env, s, actions) <==>
            Broadcaster.HasBlockedSendTarget(Last(s.delivery.calls).leaders, s.blocked.current)
  {
    hide Exec, Next, Enabled, LastOutput, IsStaleSend;
    var calls, sends := s.delivery.calls, s.delivery.consumer.sends;
    SendsOfCall(env, s);
    if Broadcaster.HasBlockedSendTarget(Last(calls).leaders, s.blocked.current) {
      var n := BlockedSend(LastOutput(calls), Last(calls).leaders, s.blocked.current, e);
      LoopIsWorkedOff(env, s, actions, sends);
      assert SendsDuring(env, s, actions, sends, n);
      var i: nat :| SendsAtStep(env, s, actions, i, sends, n);
      CurrentStays(env, s, actions, i);
      StaleAt(Exec(env, s, actions[..i]).value, n);
      assert StaleAtStep(env, s, actions, i);
    }
    if i :| 0 <= i < |actions| && StaleAtStep(env, s, actions, i) {
      CurrentStays(env, s, actions, i);
      StaleSendMeetsCurrent(env, Exec(env, s, actions[..i]).value);
    }
  }

  lemma BlockedSend(txs: seq<Entry>, leaders: seq<SocketAddr>, blocked: set<SocketAddr>, e: Entry) returns (n: nat)
    requires e in txs && Broadcaster.HasBlockedSendTarget(leaders, blocked)
    ensures n < |Sends(txs, leaders)| && Sends(txs, leaders)[n].tx == e && Sends(txs, leaders)[n].leader in blocked
  {
    var i :| 0 <= i < |txs| && txs[i] == e;
    var j :| 0 <= j < |leaders| && leaders[j] in blocked;
    SendsAt(txs, leaders, i, j);
    n := i * |leaders| + j;
  }

  lemma StaleAt(t: State, n: nat)
    requires t.delivery.consumer.SendingOut? && t.delivery.consumer.cursor == n < |t.delivery.consumer.sends|
    requires IsProtected(t.delivery.consumer.sends[n].tx) && t.delivery.consumer.sends[n].leader in t.blocked.current
    ensures IsStaleSend(t)
  {
  }

  lemma StaleSendMeetsCurrent(env: Env, t: State)
    requires Reachable(env, t) && IsStaleSend(t)
    ensures t.delivery.calls != []
    ensures Broadcaster.HasBlockedSendTarget(Last(t.delivery.calls).leaders, t.blocked.current)
  {
    hide Exec;
    SendsOfCall(env, t);
    Broadcaster.SendOrigin(LastOutput(t.delivery.calls), Last(t.delivery.calls).leaders, t.delivery.consumer.cursor);
  }

  // ----- It happens -----

  // A protected transaction gets on its way to a leader, as nothing is blocked yet.
  lemma ProtectedSendIsReachable(env: Env, leader: SocketAddr) returns (s: State)
    requires env.capacity >= 1
    ensures Reachable(env, s) && s.blocked == START.blocked && Enabled(s, SendNext)
    ensures NextSend(s).leader == leader && IsProtected(NextSend(s).tx)
  {
    hide Exec;
    ProtectedQueueIsReachable(env);
    var entry := EntryOf(0, Request([], true));
    var queued :| ProtectedQueued(env, queued);
    s := UndisturbedCall(env, queued, [leader]);
    RoundTrip([], true);
    assert s.delivery.consumer.sends == Sends([entry], [leader]);
    SendsAt([entry], [leader], 0, 0);
  }

  /** A good refresh that denies this node. */
  lemma DenyingReplies(text: Shield.Pubkey -> string, key: Shield.Pubkey, leader: SocketAddr) returns (replies: Shield.Replies)
    ensures Shield.GoodRefresh(replies) && Shield.Denies(text, replies, leader)
  {
    var data: Bytes := [0, 0, 0, 0, 0, 0, 0] + key;
    replies := Shield.Replies(Ok([Shield.NodeInfo(text(key), Some(leader))]), Ok(data), false);
    assert Shield.HeaderLen(data) == Shield.POLICY_LEN;
    assert Shield.StandsAt(data, Shield.POLICY_LEN, 0, key);
    assert Shield.Lists(data, key);
    assert replies.nodes.value[0] == Shield.NodeInfo(text(key), Some(leader));
  }

  /** A concrete run: a refresh stores a set between the snapshot and the attempt, and then a
      protected transaction is tried at a leader while that leader is in the current set. */
  lemma StaleAttemptHappens(env: Env, key: Shield.Pubkey, leader: SocketAddr)
    requires env.capacity >= 1
    ensures exists s :: Reachable(env, s) && IsStaleSend(s) && NextSend(s).leader == leader
  {
    hide Exec;
    var s := ProtectedSendIsReachable(env, leader);
    var replies := DenyingReplies(env.text, key, leader);
    RefreshStoresOrKeeps(env, s, replies);
    ReachableNext(env, s, Refresh(replies));
    var t := Next(env, s, Refresh(replies));
    assert Reachable(env, t) && IsStaleSend(t) && NextSend(t).leader == leader;
  }
}
