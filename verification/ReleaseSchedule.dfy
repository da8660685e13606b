/** Where each payload of a run ends up, payload by payload.

    Payloads are identified by the index of the call that brought them.  Leaves says, from the
    blocked flags alone, which call emits a payload.  The lemmas show that the buffering of
    HoldAndRelease realises exactly this schedule, and derive the one kind of overtaking that
    can occur.
 */
module ReleaseSchedule {
  import opened Prelude
  import opened HoldAndRelease

  function Stamp<T>(call: Call<T>, index: nat): Call<nat>
  {
    Call(if call.item.Some? then Some(Item(index, call.item.value.mevProtected)) else None, call.blocked)
  }

  /** The same run with each payload replaced by the index of its call. */
  function Indexed<T>(calls: seq<Call<T>>): (r: seq<Call<nat>>)
    ensures |r| == |calls|
    ensures forall i :: 0 <= i < |calls| ==> r[i] == Stamp(calls[i], i)
  {
    if calls == [] then [] else Indexed(Init(calls)) + [Stamp(Last(calls), |calls| - 1)]
  }

  function Departures<T>(calls: seq<Call<T>>): seq<nat>
  {
    Released(Indexed(calls))
  }

  function Waiting<T>(calls: seq<Call<T>>): seq<nat>
  {
    Buffer(Indexed(calls))
  }

  /** The call that emits the payload of call a, or |calls| if it is still held. */
  function Leaves<T>(calls: seq<Call<T>>, a: nat): (k: nat)
    requires a < |calls|
    ensures a <= k <= |calls|
  {
    if calls[a].Held() then NextUnblocked(calls, a) else a
  }

  ghost predicate Before<T>(calls: seq<Call<T>>, a: nat, c: nat)
    requires a < |calls| && c < |calls|
  {
    Leaves(calls, a) < Leaves(calls, c) || (Leaves(calls, a) == Leaves(calls, c) && a < c)
  }

  ghost predicate Carries<T>(calls: seq<Call<T>>, a: nat)
  {
    a < |calls| && calls[a].item.Some?
  }

  ghost predicate DeparturesFollow<T>(calls: seq<Call<T>>, out: seq<nat>)
  {
    && (forall p :: 0 <= p < |out| ==> Carries(calls, out[p]) && Leaves(calls, out[p]) < |calls|)
    && (forall p, q :: 0 <= p < q < |out| ==> Before(calls, out[p], out[q]))
    && (forall a: nat :: Carries(calls, a) && Leaves(calls, a) < |calls| ==> a in out)
  }

  ghost predicate WaitingFollows<T>(calls: seq<Call<T>>, held: seq<nat>)
  {
    && (forall p :: 0 <= p < |held| ==> Carries(calls, held[p]) && Leaves(calls, held[p]) == |calls|)
    && (forall p, q :: 0 <= p < q < |held| ==> held[p] < held[q])
    && (forall a: nat :: Carries(calls, a) && Leaves(calls, a) == |calls| ==> a in held)
  }

  lemma {:induction false} NextUnblockedSnoc<T>(calls: seq<Call<T>>, call: Call<T>, from: nat)
    requires from <= |calls|
    ensures NextUnblocked(calls + [call], from) ==
            if NextUnblocked(calls, from) < |calls| then NextUnblocked(calls, from)
            else if call.blocked then |calls| + 1 else |calls|
    decreases |calls| - from
  {
    var all := calls + [call];
    if from == |calls| {
      assert all[from] == call;
    } else {
      assert all[from] == calls[from];
      if calls[from].blocked {
        NextUnblockedSnoc(calls, call, from + 1);
      }
    }
  }

  lemma LeavesSnoc<T>(calls: seq<Call<T>>, call: Call<T>, a: nat)
    requires a < |calls|
    ensures Leaves(calls + [call], a) ==
            if Leaves(calls, a) < |calls| then Leaves(calls, a)
            else if call.blocked then |calls| + 1 else |calls|
  {
    NextUnblockedSnoc(calls, call, a);
    assert (calls + [call])[a] == calls[a];
  }

  lemma AllLeavesSnoc<T>(calls: seq<Call<T>>, call: Call<T>)
    ensures forall a: nat :: a < |calls| ==> (calls + [call])[a] == calls[a]
    ensures forall a: nat :: a < |calls| && Leaves(calls, a) < |calls| ==> Leaves(calls + [call], a) == Leaves(calls, a)
    ensures forall a: nat :: a < |calls| && Leaves(calls, a) == |calls| ==>
              Leaves(calls + [call], a) == if call.blocked then |calls| + 1 else |calls|
    ensures (calls + [call])[|calls|] == call
    ensures Leaves(calls + [call], |calls|) == if call.Held() then |calls| + 1 else |calls|
  {
    forall a: nat | a < |calls|
      ensures Leaves(calls, a) < |calls| ==> Leaves(calls + [call], a) == Leaves(calls, a)
      ensures Leaves(calls, a) == |calls| ==>
                Leaves(calls + [call], a) == if call.blocked then |calls| + 1 else |calls|
    {
      LeavesSnoc(calls, call, a);
    }
  }

  // What the next call emits leaves at that call, in arrival order.
  lemma ReadyLeavesNow<T>(calls: seq<Call<T>>, call: Call<T>, held: seq<nat>)
    requires WaitingFollows(calls, held)
    ensures var ready := Prepare(held, Stamp(call, |calls|)).ready;
            && (forall p :: 0 <= p < |ready| ==>
                  Carries(calls + [call], ready[p]) && Leaves(calls + [call], ready[p]) == |calls|)
            && (forall p, q :: 0 <= p < q < |ready| ==> ready[p] < ready[q])
  {
    AllLeavesSnoc(calls, call);
    var stamped := Stamp(call, |calls|);
    assert stamped.Held() == call.Held() && stamped.Passed() == call.Passed();
  }

  // What has left before has left.
  lemma DeparturesStay<T>(calls: seq<Call<T>>, call: Call<T>, out: seq<nat>)
    requires DeparturesFollow(calls, out)
    ensures forall p :: 0 <= p < |out| ==>
              && out[p] < |calls| && Carries(calls + [call], out[p])
              && Leaves(calls + [call], out[p]) == Leaves(calls, out[p]) < |calls|
  {
    AllLeavesSnoc(calls, call);
  }

  lemma DeparturesStep<T>(calls: seq<Call<T>>, call: Call<T>, out: seq<nat>, held: seq<nat>)
    requires DeparturesFollow(calls, out) && WaitingFollows(calls, held)
    ensures DeparturesFollow(calls + [call], out + Prepare(held, Stamp(call, |calls|)).ready)
  {
    hide Leaves, Prepare, WaitingFollows;
    var all, ready := calls + [call], Prepare(held, Stamp(call, |calls|)).ready;
    ReadyLeavesNow(calls, call, held);
    DeparturesStay(calls, call, out);
    var out' := out + ready;
    forall p, q | 0 <= p < q < |out'|
      ensures Carries(all, out'[p]) && Carries(all, out'[q]) && Before(all, out'[p], out'[q])
    {
      if q < |out| {
        assert Before(calls, out[p], out[q]);
      } else if |out| <= p {
        assert ready[p - |out|] < ready[q - |out|];
      }
    }
    forall a: nat | Carries(all, a) && Leaves(all, a) < |all|
      ensures a in out'
    {
      EveryDeparture(calls, call, out, held, a);
    }
  }

  lemma EveryDeparture<T>(calls: seq<Call<T>>, call: Call<T>, out: seq<nat>, held: seq<nat>, a: nat)
    requires DeparturesFollow(calls, out) && WaitingFollows(calls, held)
    requires Carries(calls + [call], a) && Leaves(calls + [call], a) <= |calls|
    ensures a in out || a in Prepare(held, Stamp(call, |calls|)).ready
  {
    var n, stamped := |calls|, Stamp(call, |calls|);
    AllLeavesSnoc(calls, call);
    if a == n {
      assert a in Own(stamped);
    } else {
      assert Carries(calls, a);
      if Leaves(calls, a) == n {
        assert a in held;
      }
    }
  }

  lemma WaitingStep<T>(calls: seq<Call<T>>, call: Call<T>, held: seq<nat>)
    requires WaitingFollows(calls, held)
    ensures WaitingFollows(calls + [call], Prepare(held, Stamp(call, |calls|)).buffer)
  {
    var all, n, stamped := calls + [call], |calls|, Stamp(call, |calls|);
    var held' := Prepare(held, stamped).buffer;
    AllLeavesSnoc(calls, call);
    forall a: nat | Carries(all, a) && Leaves(all, a) == n + 1
      ensures a in held'
    {
      if a == n {
        assert a in Kept(stamped);
      } else {
        assert Carries(calls, a);
      }
    }
  }

  /** The buffer realises the schedule: payload a leaves at call Leaves(a), payloads of one call
      leave in arrival order, and exactly the payloads no call has emitted are held. */
  lemma {:induction false} RunsFollowSchedule<T>(calls: seq<Call<T>>)
    ensures DeparturesFollow(calls, Departures(calls))
    ensures WaitingFollows(calls, Waiting(calls))
  {
    if calls != [] {
      var before, call := Init(calls), Last(calls);
      RunsFollowSchedule(before);
      DeparturesStep(before, call, Departures(before), Waiting(before));
      WaitingStep(before, call, Waiting(before));
      assert calls == before + [call];
      Snoc(Indexed(before), Stamp(call, |before|));
    }
  }

  /** The payload each index stands for. */
  ghost predicate StandsFor<T>(calls: seq<Call<T>>, indexes: seq<nat>, payloads: seq<T>)
  {
    && |indexes| == |payloads|
    && forall p :: 0 <= p < |indexes| ==>
         Carries(calls, indexes[p]) && calls[indexes[p]].item.value.value == payloads[p]
  }

  /** Indexed runs lose nothing: every run is its indexed run with the payloads put back. */
  lemma {:induction false} PayloadsOfIndexes<T>(calls: seq<Call<T>>)
    ensures StandsFor(calls, Departures(calls), Released(calls))
    ensures StandsFor(calls, Waiting(calls), Buffer(calls))
  {
    if calls != [] {
      var before, call := Init(calls), Last(calls);
      PayloadsOfIndexes(before);
      assert calls == before + [call];
      Snoc(before, call);
      Snoc(Indexed(before), Stamp(call, |before|));
      StandsForStep(before, call, Departures(before), Released(before), Waiting(before), Buffer(before));
    }
  }

  lemma StandsForStep<T>(calls: seq<Call<T>>, call: Call<T>, out: seq<nat>, released: seq<T>, held: seq<nat>, buffer: seq<T>)
    requires StandsFor(calls, out, released) && StandsFor(calls, held, buffer)
    ensures var indexes := Prepare(held, Stamp(call, |calls|));
            var payloads := Prepare(buffer, call);
            && StandsFor(calls + [call], out + indexes.ready, released + payloads.ready)
            && StandsFor(calls + [call], indexes.buffer, payloads.buffer)
  {
    var all, stamped := calls + [call], Stamp(call, |calls|);
    assert stamped.Held() == call.Held() && stamped.Passed() == call.Passed();
    assert all[|calls|] == call;
    assert StandsFor(all, out, released) && StandsFor(all, held, buffer);
    assert StandsFor(all, Own(stamped), Own(call)) && StandsFor(all, Kept(stamped), Kept(call));
    StandsForConcat(all, held, buffer, Own(stamped), Own(call));
    StandsForConcat(all, held, buffer, Kept(stamped), Kept(call));
    StandsForConcat(all, out, released, Prepare(held, stamped).ready, Prepare(buffer, call).ready);
  }

  lemma StandsForConcat<T>(calls: seq<Call<T>>, a: seq<nat>, x: seq<T>, b: seq<nat>, y: seq<T>)
    requires StandsFor(calls, a, x) && StandsFor(calls, b, y)
    ensures StandsFor(calls, a + b, x + y)
  {
  }

  /** Payload c is out at a moment payload a is not out yet. */
  ghost predicate OutFirst(out: seq<nat>, c: nat, a: nat)
  {
    exists p :: 0 <= p < |out| && out[p] == c && a !in out[..p]
  }

  /** A later payload gets out before an earlier one if and only if the later one is unprotected,
      the earlier one is protected, and no call from the earlier to the later was unblocked. */
  lemma OnlyHeldPayloadsAreOvertaken<T>(calls: seq<Call<T>>, a: nat, c: nat)
    requires a < c && Carries(calls, a) && Carries(calls, c)
    ensures OutFirst(Departures(calls), c, a) <==>
            && calls[a].item.value.mevProtected
            && !calls[c].item.value.mevProtected
            && forall k :: a <= k <= c ==> calls[k].blocked
  {
    RunsFollowSchedule(calls);
    OvertakingCondition(calls, a, c);
    if Before(calls, a, c) {
      InOrder(calls, Departures(calls), a, c);
    } else {
      OutOfOrder(calls, Departures(calls), a, c);
    }
  }

  lemma InOrder<T>(calls: seq<Call<T>>, out: seq<nat>, a: nat, c: nat)
    requires Carries(calls, a) && Carries(calls, c) && DeparturesFollow(calls, out)
    requires a != c && Before(calls, a, c)
    ensures !OutFirst(out, c, a)
  {
    forall p | 0 <= p < |out| && out[p] == c
      ensures a in out[..p]
    {
      var q :| 0 <= q < |out| && out[q] == a;
      assert q < p;
      assert out[..p][q] == a;
    }
  }

  lemma OutOfOrder<T>(calls: seq<Call<T>>, out: seq<nat>, a: nat, c: nat)
    requires Carries(calls, a) && Carries(calls, c) && DeparturesFollow(calls, out)
    requires Leaves(calls, c) < Leaves(calls, a)
    ensures OutFirst(out, c, a)
  {
    var p :| 0 <= p < |out| && out[p] == c;
    assert forall q :: 0 <= q < p ==> Before(calls, out[q], out[p]);
  }

  lemma OvertakingCondition<T>(calls: seq<Call<T>>, a: nat, c: nat)
    requires a < c && Carries(calls, a) && Carries(calls, c)
    ensures !Before(calls, a, c) <==>
            && calls[a].item.value.mevProtected
            && !calls[c].item.value.mevProtected
            && forall k :: a <= k <= c ==> calls[k].blocked
  {
    var k := NextUnblocked(calls, a);
    if calls[a].Held() && c < k && calls[c].Held() {
      SameWindow(calls, a, c);
    }
  }

  // Payloads held in the same window leave together.
  lemma {:induction false} SameWindow<T>(calls: seq<Call<T>>, a: nat, c: nat)
    requires a <= c < |calls| && c < NextUnblocked(calls, a)
    ensures NextUnblocked(calls, a) == NextUnblocked(calls, c)
    decreases c - a
  {
    if a < c {
      SameWindow(calls, a + 1, c);
    }
  }
}
