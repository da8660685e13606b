/** What the bounded channel accepts, in terms of its capacity, its queue and whether it is open. */
module ChannelLaws {
  import opened Prelude
  import opened Pipeline

  /** A handler's send is refused if and only if the channel is closed or its queue already holds
      `capacity` messages; an accepted message goes to the end of the queue, a refused one nowhere. */
  lemma SendIsRefused(env: Env, s: State, h: nat)
    requires Enabled(s, Advance(h, TrySend))
    ensures var t := Next(env, s, Advance(h, TrySend));
            var request := s.handlers[h].pc.request;
            if !s.channel.open || |s.channel.queue| >= env.capacity then
              t.handlers[h].pc == Refused(request) && t.channel == s.channel
            else
              && t.handlers[h].pc == Accepted(request)
              && t.channel.queue ==
                 s.channel.queue + [Entry(Handler(h), request.wire + [if request.mevProtect then 1 else 0])]
  {
  }

  /** The flush task's send likewise, with the empty message. */
  lemma FlushIsRefused(env: Env, s: State)
    ensures var t := Next(env, s, FlushTick);
            if !s.channel.open || |s.channel.queue| >= env.capacity then t == s
            else t.channel.queue == s.channel.queue + [Entry(FlushTask, [])]
  {
  }

  predicate IsSend(a: Action)
  {
    a == FlushTick || (a.Advance? && a.move == TrySend)
  }

  /** How many sends a run makes. */
  function SendCount(actions: seq<Action>): nat
  {
    if actions == [] then 0 else SendCount(Init(actions)) + if IsSend(Last(actions)) then 1 else 0
  }

  function Min(a: nat, b: nat): nat
  {
    if a < b then a else b
  }

  /** While the channel stays open and the consumer takes nothing, n sends among any other steps are
      accepted exactly as far as the capacity goes: n sends into an empty queue leave
      min(n, capacity) messages. */
  lemma {:induction false} SendsFillTheQueue(env: Env, s: State, actions: seq<Action>)
    requires s.channel.open && |s.channel.queue| <= env.capacity && Exec(env, s, actions).Some?
    requires forall i :: 0 <= i < |actions| ==> !actions[i].EnterCall? && !actions[i].CloseChannel?
    ensures var t := Exec(env, s, actions).value;
            && t.channel.open
            && s.channel.queue <= t.channel.queue
            && |t.channel.queue| == Min(|s.channel.queue| + SendCount(actions), env.capacity)
            && |t.channel.accepted| - |s.channel.accepted| == |t.channel.queue| - |s.channel.queue|
  {
    hide Next, Enabled;
    if actions != [] {
      SendsFillTheQueue(env, s, Init(actions));
      var before := Exec(env, s, Init(actions)).value;
      assert Last(actions) == actions[|actions| - 1];
      QueueStep(env, before, Last(actions));
    }
  }

  lemma QueueStep(env: Env, s: State, a: Action)
    requires Enabled(s, a) && !a.EnterCall? && !a.CloseChannel?
    ensures var t := Next(env, s, a);
            && t.channel.open == s.channel.open
            && if IsSend(a) && HasRoom(env, s.channel) then
                 && |t.channel.queue| == |s.channel.queue| + 1 && s.channel.queue <= t.channel.queue
                 && |t.channel.accepted| == |s.channel.accepted| + 1
               else t.channel == s.channel
  {
  }

  /** A closed channel accepts nothing in any continuation. */
  lemma {:induction false} ClosedAcceptsNothing(env: Env, s: State, actions: seq<Action>)
    requires Exec(env, Next(env, s, CloseChannel), actions).Some?
    ensures var t := Exec(env, Next(env, s, CloseChannel), actions).value;
            !t.channel.open && t.channel.accepted == s.channel.accepted && |t.channel.queue| <= |s.channel.queue|
  {
    if actions != [] {
      ClosedAcceptsNothing(env, s, Init(actions));
    }
  }
}
