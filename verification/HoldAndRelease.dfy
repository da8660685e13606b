/** The hold-and-release discipline of the MEV-protected broadcaster, over whole runs.

    Prepare is one call of prepare_transactions on abstract payloads.  A run is the sequence
    of its calls, each with the payload it decoded (none for a flush message) and whether its
    fan-out was blocked.  The module relates the step-by-step buffer to two buffer-free
    descriptions of a run: windows that end at unblocked calls, and the call at which each
    single payload leaves.
 */
module HoldAndRelease {
  import opened Prelude

  datatype Item<+T> = Item(value: T, mevProtected: bool)

  datatype Call<+T> = Call(item: Option<Item<T>>, blocked: bool)
  {
    predicate Held() {
      blocked && item.Some? && item.value.mevProtected
    }

    predicate Passed() {
      item.Some? && !Held()
    }
  }

  datatype Prepared<+T> = Prepared(ready: seq<T>, buffer: seq<T>)

  // The payload a call passes on in the same call, if any.
  function Own<T>(call: Call<T>): seq<T>
  {
    if call.Passed() then [call.item.value.value] else []
  }

  // The payload a call puts into the buffer, if any.
  function Kept<T>(call: Call<T>): seq<T>
  {
    if call.Held() then [call.item.value.value] else []
  }

  function Prepare<T>(buffer: seq<T>, call: Call<T>): Prepared<T>
  {
    if call.blocked then Prepared(Own(call), buffer + Kept(call))
    else Prepared(buffer + Own(call), [])
  }

  datatype Run<+T> = Run(released: seq<T>, buffer: seq<T>)

  /** The effect of one call on the outputs so far and the buffer. */
  function Advance<T>(run: Run<T>, call: Call<T>): Run<T>
  {
    var prepared := Prepare(run.buffer, call);
    Run(run.released + prepared.ready, prepared.buffer)
  }

  /** A whole run, from an empty buffer. */
  function RunOf<T>(calls: seq<Call<T>>): Run<T>
  {
    if calls == [] then Run([], []) else Advance(RunOf(Init(calls)), Last(calls))
  }

  function Buffer<T>(calls: seq<Call<T>>): seq<T>
  {
    RunOf(calls).buffer
  }

  /** The concatenated outputs of a run. */
  function Released<T>(calls: seq<Call<T>>): seq<T>
  {
    RunOf(calls).released
  }

  /** What the call at index k of a run hands to the fan-out loop. */
  function Output<T>(calls: seq<Call<T>>, k: nat): seq<T>
    requires k < |calls|
  {
    Prepare(Buffer(calls[..k]), calls[k]).ready
  }

  function Values<T>(calls: seq<Call<T>>): seq<T>
  {
    if calls == [] then []
    else Values(Init(calls)) + (if Last(calls).item.Some? then [Last(calls).item.value.value] else [])
  }

  // ----- Description one: windows -----

  /** The index of the first unblocked call at or after `from`, or |calls|. */
  function NextUnblocked<T>(calls: seq<Call<T>>, from: nat): (k: nat)
    requires from <= |calls|
    ensures from <= k <= |calls|
    ensures forall i :: from <= i < k ==> calls[i].blocked
    ensures k < |calls| ==> !calls[k].blocked
    decreases |calls| - from
  {
    if from == |calls| || !calls[from].blocked then from else NextUnblocked(calls, from + 1)
  }

  function AllOwn<T>(calls: seq<Call<T>>): seq<T>
  {
    if calls == [] then [] else AllOwn(Init(calls)) + Own(Last(calls))
  }

  function AllKept<T>(calls: seq<Call<T>>): seq<T>
  {
    if calls == [] then [] else AllKept(Init(calls)) + Kept(Last(calls))
  }

  /** The outputs of a run cut into windows: the payloads that pass while blocked, then the
      held ones, then the payload of the unblocked call that closes the window. */
  function Windows<T>(calls: seq<Call<T>>): seq<T>
    decreases |calls|
  {
    var k := NextUnblocked(calls, 0);
    if k == |calls| then AllOwn(calls)
    else AllOwn(calls[..k]) + AllKept(calls[..k]) + Own(calls[k]) + Windows(calls[k + 1..])
  }

  /** The calls after the last unblocked one. */
  function OpenWindow<T>(calls: seq<Call<T>>): seq<Call<T>>
    decreases |calls|
  {
    var k := NextUnblocked(calls, 0);
    if k == |calls| then calls else OpenWindow(calls[k + 1..])
  }

  lemma {:induction false} BlockedStretch<T>(calls: seq<Call<T>>)
    requires forall i :: 0 <= i < |calls| ==> calls[i].blocked
    ensures Released(calls) == AllOwn(calls)
    ensures Buffer(calls) == AllKept(calls)
  {
    if calls != [] {
      BlockedStretch(Init(calls));
    }
  }

  // One more call at the end of a run.
  lemma Snoc<T>(calls: seq<Call<T>>, call: Call<T>)
    ensures RunOf(calls + [call]) == Advance(RunOf(calls), call)
    ensures Released(calls + [call]) == Released(calls) + Prepare(Buffer(calls), call).ready
    ensures Buffer(calls + [call]) == Prepare(Buffer(calls), call).buffer
    ensures Values(calls + [call]) == Values(calls) + Own(call) + Kept(call)
  {
    var all := calls + [call];
    assert Init(all) == calls && Last(all) == call;
  }

  lemma {:induction false} ReleasedGrows<T>(calls: seq<Call<T>>, until: nat)
    requires until <= |calls|
    ensures Released(calls[..until]) <= Released(calls)
    decreases |calls|
  {
    if until == |calls| {
      assert calls[..until] == calls;
    } else {
      ReleasedGrows(Init(calls), until);
      assert Init(calls)[..until] == calls[..until];
      assert calls == Init(calls) + [Last(calls)];
      Snoc(Init(calls), Last(calls));
    }
  }

  // A run that resumes on an empty buffer behaves like a fresh run.
  lemma {:induction false} Resume<T>(a: seq<Call<T>>, b: seq<Call<T>>)
    requires Buffer(a) == []
    ensures Released(a + b) == Released(a) + Released(b)
    ensures Buffer(a + b) == Buffer(b)
  {
    if b == [] {
      assert a + b == a;
    } else {
      var start, call := Init(b), Last(b);
      Resume(a, start);
      assert b == start + [call];
      assert a + b == (a + start) + [call];
      ResumeStep(a + start, start, Released(a), call);
    }
  }

  lemma ResumeStep<T>(all: seq<Call<T>>, start: seq<Call<T>>, earlier: seq<T>, call: Call<T>)
    requires Released(all) == earlier + Released(start) && Buffer(all) == Buffer(start)
    ensures Released(all + [call]) == earlier + Released(start + [call])
    ensures Buffer(all + [call]) == Buffer(start + [call])
  {
    Snoc(all, call);
    Snoc(start, call);
    var ready := Prepare(Buffer(start), call).ready;
    assert (earlier + Released(start)) + ready == earlier + (Released(start) + ready);
  }

  lemma {:induction false} RunsAreWindows<T>(calls: seq<Call<T>>)
    ensures Released(calls) == Windows(calls)
    ensures Buffer(calls) == AllKept(OpenWindow(calls))
    decreases |calls|
  {
    var k := NextUnblocked(calls, 0);
    if k == |calls| {
      BlockedStretch(calls);
    } else {
      var stretch, window, rest := calls[..k], calls[..k + 1], calls[k + 1..];
      BlockedStretch(stretch);
      assert Init(window) == stretch && window[..|window| - 1] == stretch && Last(window) == calls[k];
      assert Released(window) == AllOwn(stretch) + AllKept(stretch) + Own(calls[k]);
      assert calls == window + rest;
      Resume(window, rest);
      RunsAreWindows(rest);
    }
  }

  // ----- Order and conservation -----

  function Not<T>(p: T -> bool): T -> bool
  {
    x => !p(x)
  }

  ghost predicate FlagsAre<T>(calls: seq<Call<T>>, p: T -> bool)
  {
    forall k :: 0 <= k < |calls| && calls[k].item.Some? ==>
      calls[k].item.value.mevProtected == p(calls[k].item.value.value)
  }

  /** Both classes of payload are FIFO: what left, followed by what is held, is what came in. */
  lemma {:induction false} FifoPerClass<T>(calls: seq<Call<T>>, p: T -> bool)
    requires FlagsAre(calls, p)
    ensures Filter(p, Values(calls)) == Filter(p, Released(calls)) + Buffer(calls)
    ensures Filter(Not(p), Values(calls)) == Filter(Not(p), Released(calls))
    ensures Filter(p, Buffer(calls)) == Buffer(calls)
    ensures Filter(Not(p), Buffer(calls)) == []
  {
    if calls != [] {
      var before, call := Init(calls), Last(calls);
      FifoPerClass(before, p);
      assert calls == before + [call];
      Snoc(before, call);
      FifoStepProtected(p, Values(before), Released(before), Buffer(before), call);
      FifoStepOther(Not(p), Values(before), Released(before), Buffer(before), call);
    }
  }

  lemma Regroup<T>(r: seq<T>, a: seq<T>, b: seq<T>, c: seq<T>)
    ensures a == [] ==> (r + b) + a + c == (r + a) + (b + c)
    ensures b == [] ==> (r + a) + c + b == (r + (a + c)) + b
  {
  }

  lemma FifoStepProtected<T>(p: T -> bool, values: seq<T>, released: seq<T>, held: seq<T>, call: Call<T>)
    requires call.item.Some? ==> call.item.value.mevProtected == p(call.item.value.value)
    requires Filter(p, values) == Filter(p, released) + held && Filter(p, held) == held
    ensures Filter(p, values + Own(call) + Kept(call)) ==
            Filter(p, released + Prepare(held, call).ready) + Prepare(held, call).buffer
    ensures Filter(p, Prepare(held, call).buffer) == Prepare(held, call).buffer
  {
    FilterStep(p, values, released, held, call);
    FilterOne(p, call);
    if call.blocked {
      assert Filter(p, Own(call)) == [] && Filter(p, Kept(call)) == Kept(call);
      Regroup(Filter(p, released), [], held, Kept(call));
    } else {
      assert Kept(call) == [] && Filter(p, Kept(call)) == [];
      Regroup(Filter(p, released), held, [], Filter(p, Own(call)));
    }
  }

  lemma FifoStepOther<T>(q: T -> bool, values: seq<T>, released: seq<T>, held: seq<T>, call: Call<T>)
    requires call.item.Some? ==> call.item.value.mevProtected == !q(call.item.value.value)
    requires Filter(q, values) == Filter(q, released) && Filter(q, held) == []
    ensures Filter(q, values + Own(call) + Kept(call)) == Filter(q, released + Prepare(held, call).ready)
    ensures Filter(q, Prepare(held, call).buffer) == []
  {
    FilterStep(q, values, released, held, call);
    FilterOne(q, call);
    assert Filter(q, Kept(call)) == [];
  }

  lemma FilterStep<T>(q: T -> bool, values: seq<T>, released: seq<T>, held: seq<T>, call: Call<T>)
    ensures Filter(q, values + Own(call) + Kept(call)) == Filter(q, values) + Filter(q, Own(call)) + Filter(q, Kept(call))
    ensures call.blocked ==>
              && Filter(q, released + Prepare(held, call).ready) == Filter(q, released) + Filter(q, Own(call))
              && Filter(q, Prepare(held, call).buffer) == Filter(q, held) + Filter(q, Kept(call))
    ensures !call.blocked ==>
              && Filter(q, released + Prepare(held, call).ready) == Filter(q, released) + (Filter(q, held) + Filter(q, Own(call)))
  {
    FilterConcat(q, values + Own(call), Kept(call));
    FilterConcat(q, values, Own(call));
    if call.blocked {
      FilterConcat(q, released, Own(call));
      FilterConcat(q, held, Kept(call));
    } else {
      FilterConcat(q, released, held + Own(call));
      FilterConcat(q, held, Own(call));
    }
  }

  lemma FilterOne<T>(p: T -> bool, call: Call<T>)
    ensures Filter(p, Own(call)) ==
            if call.Passed() && p(call.item.value.value) then [call.item.value.value] else []
    ensures Filter(p, Kept(call)) ==
            if call.Held() && p(call.item.value.value) then [call.item.value.value] else []
  {
    if call.item.Some? {
      var x := call.item.value.value;
      assert Init([x]) == [];
    }
  }

  /** The calls that put their payload into the buffer. */
  function HeldCalls<T>(calls: seq<Call<T>>): set<nat>
  {
    set k: nat | k < |calls| && calls[k].blocked && calls[k].item.Some? && calls[k].item.value.mevProtected
  }

  /** As many payloads have been buffered as there are blocked calls with a protected payload. */
  lemma {:induction false} KeptCount<T>(calls: seq<Call<T>>)
    ensures |AllKept(calls)| == |HeldCalls(calls)|
  {
    if calls != [] {
      var before, k := Init(calls), |calls| - 1;
      KeptCount(before);
      assert HeldCalls(calls) == HeldCalls(before) + if calls[k].Held() then {k} else {};
    }
  }

  lemma KeptSnoc<T>(calls: seq<Call<T>>, call: Call<T>)
    ensures AllKept(calls + [call]) == AllKept(calls) + Kept(call)
  {
    assert Init(calls + [call]) == calls;
  }

  /** No payload is lost or duplicated, equal payloads keep their multiplicity. */
  lemma {:induction false} Conservation<T>(calls: seq<Call<T>>)
    ensures multiset(Values(calls)) == multiset(Released(calls)) + multiset(Buffer(calls))
  {
    if calls != [] {
      var before, call := Init(calls), Last(calls);
      Conservation(before);
      assert calls == before + [call];
      Snoc(before, call);
    }
  }
}
