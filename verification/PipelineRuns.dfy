/** Composing runs of the pipeline, and what every run only adds to. */
module PipelineRuns {
  import opened Prelude
  import opened Pipeline

  lemma {:induction false} ExecConcat(env: Env, s: State, first: seq<Action>, second: seq<Action>)
    requires Exec(env, s, first).Some?
    ensures Exec(env, s, first + second) == Exec(env, Exec(env, s, first).value, second)
  {
    if second == [] {
      assert first + second == first;
    } else {
      ExecConcat(env, s, first, Init(second));
      assert Init(first + second) == first + Init(second);
    }
  }

  lemma ExecPrefix(env: Env, s: State, actions: seq<Action>, i: nat)
    requires Exec(env, s, actions).Some? && i <= |actions|
    ensures Exec(env, s, actions[..i]).Some?
    ensures Exec(env, Exec(env, s, actions[..i]).value, actions[i..]) == Exec(env, s, actions)
  {
    SomePrefix(env, s, actions, i);
    ExecConcat(env, s, actions[..i], actions[i..]);
    assert actions[..i] + actions[i..] == actions;
  }

  lemma {:induction false} SomePrefix(env: Env, s: State, actions: seq<Action>, i: nat)
    requires Exec(env, s, actions).Some? && i <= |actions|
    ensures Exec(env, s, actions[..i]).Some?
    decreases |actions|
  {
    if i == |actions| {
      assert actions[..i] == actions;
    } else {
      SomePrefix(env, s, Init(actions), i);
      assert Init(actions)[..i] == actions[..i];
    }
  }

  lemma ExecOne(env: Env, s: State, a: Action)
    requires Enabled(s, a)
    ensures Exec(env, s, [a]) == Some(Next(env, s, a))
  {
    assert Init([a]) == [];
  }

  /** A step of the consumer's thread. */
  predicate IsConsumerStep(a: Action)
  {
    a.EnterCall? || a.LoadBlocked? || a.PrepareCall? || a.SendNext? || a.LeaveCall?
  }

  lemma StartIsReachable(env: Env)
    ensures Reachable(env, START)
  {
    assert Exec(env, START, []) == Some(START);
  }

  lemma ReachableExec(env: Env, s: State, actions: seq<Action>)
    requires Reachable(env, s) && Exec(env, s, actions).Some?
    ensures Reachable(env, Exec(env, s, actions).value)
  {
    var first :| Exec(env, START, first) == Some(s);
    ExecConcat(env, START, first, actions);
  }

  lemma ReachableNext(env: Env, s: State, a: Action)
    requires Reachable(env, s) && Enabled(s, a)
    ensures Reachable(env, Next(env, s, a))
  {
    ExecOne(env, s, a);
    ReachableExec(env, s, [a]);
  }

  /** No history loses or changes what is in it. */
  ghost predicate Grows(s: State, t: State)
  {
    && s.delivery.calls <= t.delivery.calls
    && s.delivery.attempts <= t.delivery.attempts
    && s.channel.accepted <= t.channel.accepted
    && s.blocked.versions <= t.blocked.versions
  }

  lemma NextGrows(env: Env, s: State, a: Action)
    requires Enabled(s, a)
    ensures Grows(s, Next(env, s, a))
  {
  }

  lemma {:induction false} ExecGrows(env: Env, s: State, actions: seq<Action>)
    requires Exec(env, s, actions).Some?
    ensures Grows(s, Exec(env, s, actions).value)
  {
    if actions != [] {
      ExecGrows(env, s, Init(actions));
      NextGrows(env, Exec(env, s, Init(actions)).value, Last(actions));
    }
  }
}
