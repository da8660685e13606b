/** Round-robin pinning of runtime threads to CPUs.

    Each thread's start hook takes a ticket from a shared wrapping counter and later pins the
    thread to the CPU the ticket selects.  Hooks of different threads interleave.
 */
module Pinning {
  import opened Prelude

  /** The start hooks of a runtime with a non-empty CPU list. */
  class StartHook {
    const cpus: seq<nat>
    var counter: nat

    predicate Valid()
      reads this
    {
      cpus != [] && counter < U64_RANGE
    }

    constructor (cpus: seq<nat>)
      requires cpus != []
      ensures Valid() && this.cpus == cpus && counter == 0
    {
      this.cpus, counter := cpus, 0;
    }

    method FetchAdd() returns (idx: nat)
      requires Valid()
      modifies this
      ensures Valid() && idx == old(counter) && counter == Wrap(old(counter) + 1)
    {
      idx := counter;
      counter := Wrap(counter + 1);
    }

    /** One thread start: the returned CPU is the one set_for_current gets. */
    method OnThreadStart() returns (cpu: nat)
      requires Valid()
      modifies this
      ensures Valid() && counter == Wrap(old(counter) + 1)
      ensures cpu == cpus[old(counter) % |cpus|]
    {
      var idx := FetchAdd();
      cpu := cpus[idx % |cpus|];
    }

    /** Any number of thread starts, one after the other, on a fresh hook: start i gets the CPU
        at position Position(i). */
    method StartThreads(n: nat) returns (pinned: seq<nat>)
      requires Valid() && counter == 0
      modifies this
      ensures Valid() && counter == Wrap(n)
      ensures |pinned| == n
      ensures forall i :: 0 <= i < n ==> pinned[i] == cpus[Position(i, |cpus|)]
    {
      pinned := [];
      for i := 0 to n
        invariant Valid() && counter == Wrap(i) && |pinned| == i
        invariant forall k :: 0 <= k < i ==> pinned[k] == cpus[Position(k, |cpus|)]
      {
        var cpu := OnThreadStart();
        WrapTwice(i, 1);
        pinned := pinned + [cpu];
      }
    }
  }

  // ----- Interleaved hooks -----

  /** tickets[t] is what hook t drew; pinned are the hooks that have set their affinity since. */
  datatype Hooks = Hooks(counter: nat, tickets: seq<nat>, pinned: set<nat>)

  datatype HookStep = Draw | Pin(hook: nat)

  const NO_HOOKS := Hooks(0, [], {})

  predicate CanStep(s: Hooks, step: HookStep)
  {
    step.Pin? ==> step.hook < |s.tickets| && step.hook !in s.pinned
  }

  function AfterStep(s: Hooks, step: HookStep): Hooks
  {
    match step
    case Draw => Hooks(Wrap(s.counter + 1), s.tickets + [s.counter], s.pinned)
    case Pin(hook) => s.(pinned := s.pinned + {hook})
  }

  function RunHooks(steps: seq<HookStep>): Option<Hooks>
  {
    if steps == [] then Some(NO_HOOKS)
    else
      var before := RunHooks(Init(steps));
      if before.Some? && CanStep(before.value, Last(steps)) then Some(AfterStep(before.value, Last(steps))) else None
  }

  /** The list position that the i-th draw of a k-element list selects. */
  function Position(i: nat, k: nat): (p: nat)
    requires k > 0
    ensures p < k
  {
    Wrap(i) % k
  }

  /** However draws and pins interleave, the i-th ticket is i modulo 2^64. */
  lemma {:induction false} TicketsInOrder(steps: seq<HookStep>)
    requires RunHooks(steps).Some?
    ensures var s := RunHooks(steps).value;
            && s.counter == Wrap(|s.tickets|)
            && forall i :: 0 <= i < |s.tickets| ==> s.tickets[i] == Wrap(i)
  {
    if steps != [] {
      TicketsInOrder(Init(steps));
      var before := RunHooks(Init(steps)).value;
      WrapTwice(|before.tickets|, 1);
    }
  }

  /** How many of these tickets select list position p. */
  function TicketsAt(tickets: seq<nat>, k: nat, p: nat): nat
    requires k > 0
  {
    if tickets == [] then 0
    else TicketsAt(Init(tickets), k, p) + if Last(tickets) % k == p then 1 else 0
  }

  /** How often position p is selected by n draws. */
  function Uses(n: nat, k: nat, p: nat): nat
    requires k > 0
  {
    if n == 0 then 0 else Uses(n - 1, k, p) + if Position(n - 1, k) == p then 1 else 0
  }

  lemma {:induction false} TicketsAreUses(tickets: seq<nat>, k: nat, p: nat)
    requires k > 0 && forall i :: 0 <= i < |tickets| ==> tickets[i] == Wrap(i)
    ensures TicketsAt(tickets, k, p) == Uses(|tickets|, k, p)
  {
    if tickets != [] {
      TicketsAreUses(Init(tickets), k, p);
    }
  }

  /** Division and remainder of the successor. */
  lemma SuccDivMod(n: nat, k: nat)
    requires k > 0
    ensures n % k + 1 < k ==> (n + 1) / k == n / k && (n + 1) % k == n % k + 1
    ensures n % k + 1 == k ==> (n + 1) / k == n / k + 1 && (n + 1) % k == 0
  {
    var q, r := n / k, n % k;
    assert n == q * k + r;
    if r + 1 < k {
      DivModUnique(n + 1, k, q, r + 1);
    } else {
      assert (q + 1) * k == q * k + k;
      DivModUnique(n + 1, k, q + 1, 0);
    }
  }

  lemma DivModUnique(n: nat, k: nat, q: nat, r: nat)
    requires k > 0 && r < k && n == q * k + r
    ensures n / k == q && n % k == r
  {
    var q', r' := n / k, n % k;
    assert n == q' * k + r';
    StrictProduct(q, q', k);
    StrictProduct(q', q, k);
  }

  lemma {:induction false} StrictProduct(a: nat, b: nat, k: nat)
    ensures a < b ==> a * k + k <= b * k
  {
    if a < b {
      assert b * k == (b - 1) * k + k;
      StrictProduct(a, b - 1, k);
    }
  }

  /** Below the wrap-around, position p has been used n / k times, and once more if p comes before
      the remainder. */
  lemma {:induction false} UsesBelowWrap(n: nat, k: nat, p: nat)
    requires p < k && n <= U64_RANGE
    ensures Uses(n, k, p) == n / k + if p < n % k then 1 else 0
  {
    if n == 0 {
      DivModUnique(0, k, 0, 0);
    } else {
      UsesBelowWrap(n - 1, k, p);
      SuccDivMod(n - 1, k);
    }
  }

  ghost predicate Balanced(n: nat, k: nat)
    requires k > 0
  {
    forall p: nat, q: nat :: p < k && q < k ==> Uses(n, k, p) <= Uses(n, k, q) + 1
  }

  /** The hooks below n that drew list position p. */
  function DrewPosition(tickets: seq<nat>, n: nat, k: nat, p: nat): set<nat>
    requires k > 0 && n <= |tickets|
  {
    set h: nat | h < n && tickets[h] % k == p
  }

  /** The threads pinned to list position p. */
  function PinnedTo(s: Hooks, k: nat, p: nat): set<nat>
    requires k > 0
  {
    set h: nat | h in s.pinned && h < |s.tickets| && s.tickets[h] % k == p
  }

  lemma {:induction false} DrewAsCounted(tickets: seq<nat>, n: nat, k: nat, p: nat)
    requires k > 0 && n <= |tickets|
    ensures |DrewPosition(tickets, n, k, p)| == TicketsAt(tickets[..n], k, p)
  {
    if n > 0 {
      DrewAsCounted(tickets, n - 1, k, p);
      assert Init(tickets[..n]) == tickets[..n - 1];
      assert DrewPosition(tickets, n, k, p) ==
             DrewPosition(tickets, n - 1, k, p) + if tickets[n - 1] % k == p then {n - 1} else {};
    }
  }

  lemma {:induction false} PinnedHaveDrawn(steps: seq<HookStep>)
    requires RunHooks(steps).Some?
    ensures forall h :: h in RunHooks(steps).value.pinned ==> h < |RunHooks(steps).value.tickets|
  {
    if steps != [] {
      PinnedHaveDrawn(Init(steps));
    }
  }

  /** The threads pinned to a position never outnumber its draws, and every thread that has drawn
      but not pinned yet accounts for at most one of the difference; once all hooks have completed
      there is none. */
  lemma PinsFollowDraws(steps: seq<HookStep>, k: nat, p: nat)
    requires RunHooks(steps).Some? && k > 0
    ensures var s := RunHooks(steps).value;
            && |PinnedTo(s, k, p)| <= TicketsAt(s.tickets, k, p) <= |PinnedTo(s, k, p)| + |Outstanding(s)|
            && (Outstanding(s) == {} ==> |PinnedTo(s, k, p)| == TicketsAt(s.tickets, k, p))
  {
    var s := RunHooks(steps).value;
    PinnedHaveDrawn(steps);
    DrewAsCounted(s.tickets, |s.tickets|, k, p);
    assert s.tickets[..|s.tickets|] == s.tickets;
    var drew := DrewPosition(s.tickets, |s.tickets|, k, p);
    SubsetSize(PinnedTo(s, k, p), drew);
    SubsetSize(drew, PinnedTo(s, k, p) + Outstanding(s));
  }

  /** The hooks that have drawn and not pinned. */
  function Outstanding(s: Hooks): set<nat>
  {
    set h: nat | h < |s.tickets| && h !in s.pinned
  }

  lemma SubsetSize(a: set<nat>, b: set<nat>)
    requires a <= b
    ensures |a| <= |b|
  {
    assert b == a + (b - a);
    assert a * (b - a) == {};
  }

  /** In every interleaving of up to 2^64 thread starts, each position of a k-element list has been
      drawn n/k or n/k + 1 times, the latter exactly at the first n % k positions; and as many
      threads are pinned to it once all their hooks have completed. */
  lemma PinningIsBalanced(steps: seq<HookStep>, k: nat, p: nat)
    requires RunHooks(steps).Some? && p < k && |RunHooks(steps).value.tickets| <= U64_RANGE
    ensures var s := RunHooks(steps).value;
            var n := |s.tickets|;
            && TicketsAt(s.tickets, k, p) == n / k + (if p < n % k then 1 else 0)
            && (Outstanding(s) == {} ==> |PinnedTo(s, k, p)| == n / k + (if p < n % k then 1 else 0))
            && Balanced(n, k)
  {
    var n := |RunHooks(steps).value.tickets|;
    TicketsInOrder(steps);
    TicketsAreUses(RunHooks(steps).value.tickets, k, p);
    UsesBelowWrap(n, k, p);
    PinsFollowDraws(steps, k, p);
    forall a: nat, b: nat | a < k && b < k
      ensures Uses(n, k, a) <= Uses(n, k, b) + 1
    {
      UsesBelowWrap(n, k, a);
      UsesBelowWrap(n, k, b);
    }
  }

  // ----- Across the wrap-around -----

  lemma ModMultiple(n: nat, k: nat, m: nat)
    requires k > 0
    ensures (n + m * k) % k == n % k
  {
    var q := n / k;
    assert n + m * k == (q + m) * k + n % k;
    DivModUnique(n + m * k, k, q + m, n % k);
  }

  // If k divides 2^64 the wrapped counter selects like an unbounded one.
  lemma {:induction false} PositionOfDivisor(i: nat, k: nat)
    requires k > 0 && U64_RANGE % k == 0
    ensures Position(i, k) == i % k
  {
    if i >= U64_RANGE {
      PositionOfDivisor(i - U64_RANGE, k);
      assert U64_RANGE == U64_RANGE / k * k;
      ModMultiple(i - U64_RANGE, k, U64_RANGE / k);
    }
  }

  lemma {:induction false} UsesOfDivisor(n: nat, k: nat, p: nat)
    requires p < k && U64_RANGE % k == 0
    ensures Uses(n, k, p) == n / k + if p < n % k then 1 else 0
  {
    if n == 0 {
      DivModUnique(0, k, 0, 0);
    } else {
      UsesOfDivisor(n - 1, k, p);
      SuccDivMod(n - 1, k);
      PositionOfDivisor(n - 1, k);
    }
  }

  // Otherwise the first draw after the wrap-around already unbalances the list.
  lemma UnbalancedAfterWrap(k: nat)
    requires k > 0 && U64_RANGE % k != 0
    ensures !Balanced(U64_RANGE + 1, k)
  {
    var n := U64_RANGE;
    UsesBelowWrap(n, k, 0);
    UsesBelowWrap(n, k, k - 1);
    DivModUnique(0, k, 0, 0);
    assert Wrap(n) == 0 && Position(n, k) == 0;
    assert Uses(n + 1, k, 0) == Uses(n, k, 0) + 1;
    assert Uses(n + 1, k, k - 1) == Uses(n, k, k - 1);
  }

  /** Pinning stays balanced for every number of thread starts if and only if the length of the
      CPU list divides 2^64. */
  lemma BalancedForever(k: nat)
    requires k > 0
    ensures (forall n: nat :: Balanced(n, k)) <==> U64_RANGE % k == 0
  {
    if U64_RANGE % k == 0 {
      forall n: nat, a: nat, b: nat | a < k && b < k
        ensures Uses(n, k, a) <= Uses(n, k, b) + 1
      {
        UsesOfDivisor(n, k, a);
        UsesOfDivisor(n, k, b);
      }
    } else {
      UnbalancedAfterWrap(k);
    }
  }
}
