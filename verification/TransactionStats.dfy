/** The process-wide counters, and the reporter that reads them while other threads count. */
module TransactionStats {
  import opened Prelude

  datatype Counter =
    | QuicReceived
    | QuicInvalid
    | JsonRpcReceived
    | JsonRpcInvalid
    | MevProtectedReceived
    | TpuEnqueued
    | TpuDropped
    | MevBuffered
    | MevReleased

  datatype Snapshot = Snapshot(
    quicReceived: nat,
    quicInvalid: nat,
    jsonRpcReceived: nat,
    jsonRpcInvalid: nat,
    mevProtectedReceived: nat,
    tpuEnqueued: nat,
    tpuDropped: nat,
    mevBuffered: nat,
    mevReleased: nat)
  {
    function Get(c: Counter): nat {
      match c
      case QuicReceived => quicReceived
      case QuicInvalid => quicInvalid
      case JsonRpcReceived => jsonRpcReceived
      case JsonRpcInvalid => jsonRpcInvalid
      case MevProtectedReceived => mevProtectedReceived
      case TpuEnqueued => tpuEnqueued
      case TpuDropped => tpuDropped
      case MevBuffered => mevBuffered
      case MevReleased => mevReleased
    }

    function With(c: Counter, n: nat): (s: Snapshot)
      ensures s.Get(c) == n
      ensures forall d :: d != c ==> s.Get(d) == Get(d)
    {
      match c
      case QuicReceived => this.(quicReceived := n)
      case QuicInvalid => this.(quicInvalid := n)
      case JsonRpcReceived => this.(jsonRpcReceived := n)
      case JsonRpcInvalid => this.(jsonRpcInvalid := n)
      case MevProtectedReceived => this.(mevProtectedReceived := n)
      case TpuEnqueued => this.(tpuEnqueued := n)
      case TpuDropped => this.(tpuDropped := n)
      case MevBuffered => this.(mevBuffered := n)
      case MevReleased => this.(mevReleased := n)
    }

    /** fetch_add on one atomic. */
    function Bump(c: Counter, n: nat): Snapshot {
      With(c, Wrap(Get(c) + n))
    }

    function Since(previous: Snapshot): Snapshot {
      Snapshot(
        SaturatingSub(quicReceived, previous.quicReceived),
        SaturatingSub(quicInvalid, previous.quicInvalid),
        SaturatingSub(jsonRpcReceived, previous.jsonRpcReceived),
        SaturatingSub(jsonRpcInvalid, previous.jsonRpcInvalid),
        SaturatingSub(mevProtectedReceived, previous.mevProtectedReceived),
        SaturatingSub(tpuEnqueued, previous.tpuEnqueued),
        SaturatingSub(tpuDropped, previous.tpuDropped),
        SaturatingSub(mevBuffered, previous.mevBuffered),
        SaturatingSub(mevReleased, previous.mevReleased))
    }
  }

  const ZERO := Snapshot(0, 0, 0, 0, 0, 0, 0, 0, 0)

  function SaturatingSub(a: nat, b: nat): nat
  {
    if a < b then 0 else a - b
  }

  ghost predicate AtMost(a: Snapshot, b: Snapshot)
  {
    forall c: Counter :: a.Get(c) <= b.Get(c)
  }

  ghost predicate WrapOf(s: Snapshot, exact: Snapshot)
  {
    forall c: Counter :: s.Get(c) == Wrap(exact.Get(c))
  }

  lemma AtMostTransitive(a: Snapshot, b: Snapshot, c: Snapshot)
    requires AtMost(a, b) && AtMost(b, c)
    ensures AtMost(a, c)
  {
    assert forall d: Counter :: a.Get(d) <= b.Get(d) && b.Get(d) <= c.Get(d);
  }

  lemma BumpKeepsWrap(s: Snapshot, exact: Snapshot, c: Counter, n: nat)
    requires WrapOf(s, exact)
    ensures WrapOf(s.Bump(c, n), exact.With(c, exact.Get(c) + n))
  {
    var s', exact' := s.Bump(c, n), exact.With(c, exact.Get(c) + n);
    forall d: Counter
      ensures s'.Get(d) == Wrap(exact'.Get(d))
    {
      if d == c {
        WrapTwice(exact.Get(c), n);
      } else {
        assert s'.Get(d) == s.Get(d) && exact'.Get(d) == exact.Get(d);
      }
    }
  }

  lemma CountingGrows(a: Snapshot, c: Counter, n: nat)
    ensures AtMost(a, a.With(c, a.Get(c) + n))
  {
    forall d: Counter
      ensures a.Get(d) <= a.With(c, a.Get(c) + n).Get(d)
    {
      if d != c {
        assert a.With(c, a.Get(c) + n).Get(d) == a.Get(d);
      }
    }
  }

  // Successive moments: what was counted, and what the atomics showed.
  ghost predicate Moments(at: seq<Snapshot>, read: seq<Snapshot>)
  {
    && |at| == |read|
    && (forall i, j :: 0 <= i <= j < |at| ==> AtMost(at[i], at[j]))
    && (forall i :: 0 <= i < |at| ==> WrapOf(read[i], at[i]))
  }

  lemma FirstMoment(at: Snapshot, read: Snapshot)
    requires WrapOf(read, at)
    ensures Moments([at], [read])
  {
  }

  // Nine readings, each of its own counter, at successive moments.
  lemma ReadOneByOne(start: Snapshot, e: seq<Snapshot>, end: Snapshot, seen: Snapshot, s: Snapshot, t: seq<Snapshot>)
    requires Moments(e, t) && |e| == 9 && start == e[0] && end == e[8]
    requires seen == Snapshot(e[0].quicReceived, e[1].quicInvalid, e[2].jsonRpcReceived, e[3].jsonRpcInvalid,
                              e[4].mevProtectedReceived, e[5].tpuEnqueued, e[6].tpuDropped, e[7].mevBuffered, e[8].mevReleased)
    requires s == Snapshot(t[0].quicReceived, t[1].quicInvalid, t[2].jsonRpcReceived, t[3].jsonRpcInvalid,
                           t[4].mevProtectedReceived, t[5].tpuEnqueued, t[6].tpuDropped, t[7].mevBuffered, t[8].mevReleased)
    ensures WrapOf(s, seen) && AtMost(start, seen) && AtMost(seen, end)
  {
    forall c: Counter
      ensures s.Get(c) == Wrap(seen.Get(c)) && start.Get(c) <= seen.Get(c) <= end.Get(c)
    {
      var i := match c
        case QuicReceived => 0
        case QuicInvalid => 1
        case JsonRpcReceived => 2
        case JsonRpcInvalid => 3
        case MevProtectedReceived => 4
        case TpuEnqueued => 5
        case TpuDropped => 6
        case MevBuffered => 7
        case MevReleased => 8;
      assert seen.Get(c) == e[i].Get(c) && s.Get(c) == t[i].Get(c);
      assert AtMost(e[0], e[i]) && AtMost(e[i], e[8]) && WrapOf(t[i], e[i]);
    }
  }

  /** One pass of Load: what had been counted when it began and when it ended, what it read in
      between, and how the atomics showed that. */
  datatype Observation = Observation(start: Snapshot, seen: Snapshot, end: Snapshot, shown: Snapshot)

  ghost predicate InOrder(reading: Observation)
  {
    AtMost(reading.start, reading.seen) && AtMost(reading.seen, reading.end) && WrapOf(reading.shown, reading.seen)
  }

  lemma ReadInOrder(reading: Observation)
    requires AtMost(reading.start, reading.seen) && AtMost(reading.seen, reading.end) && WrapOf(reading.shown, reading.seen)
    ensures InOrder(reading)
  {
  }

  /** The count at the end of these readings, which began at `begin`. */
  function EndOf(begin: Snapshot, readings: seq<Observation>): Snapshot
  {
    if readings == [] then begin else Last(readings).end
  }

  /** Every reading lies between the counts at its start and its end, and none starts before the
      one before it has ended. */
  ghost predicate ReadInTurn(begin: Snapshot, readings: seq<Observation>)
  {
    forall i :: 0 <= i < |readings| ==> InOrder(readings[i]) && AtMost(EndOf(begin, readings[..i]), readings[i].start)
  }

  /** What the reporter compares reading i with. */
  function ShownBefore(readings: seq<Observation>, i: nat): Snapshot
    requires i <= |readings|
  {
    if i == 0 then ZERO else readings[i - 1].shown
  }

  /** The exact count behind it. */
  function SeenBefore(readings: seq<Observation>, i: nat): Snapshot
    requires i <= |readings|
  {
    if i == 0 then ZERO else readings[i - 1].seen
  }

  /** The static atomics.  The ghost fields count without wrap-around and log the loads. */
  class Statistics {
    var totals: Snapshot
    var mevBufferSize: nat
    ghost var exact: Snapshot
    ghost var loads: seq<Observation>

    ghost predicate Valid()
      reads this
    {
      WrapOf(totals, exact)
    }

    constructor ()
      ensures Valid() && totals == ZERO && exact == ZERO && mevBufferSize == 0 && loads == []
    {
      totals, exact, mevBufferSize, loads := ZERO, ZERO, 0, [];
    }

    /** One fetch_add. */
    method Add(c: Counter, n: nat)
      requires Valid()
      modifies this`totals, this`exact
      ensures Valid()
      ensures totals == old(totals).Bump(c, n)
      ensures exact == old(exact).With(c, old(exact).Get(c) + n)
    {
      BumpKeepsWrap(totals, exact, c, n);
      totals := totals.Bump(c, n);
      exact := exact.With(c, exact.Get(c) + n);
    }

    method SetMevBufferSize(size: nat)
      modifies this`mevBufferSize
      ensures mevBufferSize == size
    {
      mevBufferSize := size;
    }

    /** Any number of increments by other threads. */
    method OtherThreads()
      requires Valid()
      modifies this`totals, this`exact
      ensures Valid() && AtMost(old(exact), exact)
    {
      var rounds: nat := *;
      while rounds > 0
        invariant Valid() && AtMost(old(exact), exact)
      {
        var c: Counter := *;
        var n: nat := *;
        ghost var before := exact;
        Add(c, n);
        CountingGrows(before, c, n);
        AtMostTransitive(old(exact), before, exact);
        rounds := rounds - 1;
      }
    }

    // Other threads run; the ghost lists record the successive moments.
    method MoreTime(ghost at: seq<Snapshot>, ghost read: seq<Snapshot>)
      returns (ghost at': seq<Snapshot>, ghost read': seq<Snapshot>)
      requires Valid() && Moments(at, read) && at != [] && Last(at) == exact && Last(read) == totals
      modifies this`totals, this`exact
      ensures Valid() && at' == at + [exact] && read' == read + [totals] && Moments(at', read')
    {
      OtherThreads();
      at', read' := at + [exact], read + [totals];
      forall i | 0 <= i < |at|
        ensures AtMost(at[i], exact)
      {
        AtMostTransitive(at[i], Last(at), exact);
      }
    }

    /** The nine loads are separate, so other threads may count between any two of them. */
    method Load() returns (s: Snapshot)
      requires Valid()
      modifies this`totals, this`exact, this`loads
      ensures Valid() && |loads| == |old(loads)| + 1 && loads == old(loads) + [Last(loads)]
      ensures Last(loads).start == old(exact) && Last(loads).end == exact && Last(loads).shown == s
      ensures InOrder(Last(loads))
    {
      hide Wrap, Moments, WrapOf, AtMost, InOrder;
      ghost var at, read := [exact], [totals];
      FirstMoment(exact, totals);
      var quicReceived := totals.quicReceived;
      at, read := MoreTime(at, read);
      var quicInvalid := totals.quicInvalid;
      at, read := MoreTime(at, read);
      var jsonRpcReceived := totals.jsonRpcReceived;
      at, read := MoreTime(at, read);
      var jsonRpcInvalid := totals.jsonRpcInvalid;
      at, read := MoreTime(at, read);
      var mevProtectedReceived := totals.mevProtectedReceived;
      at, read := MoreTime(at, read);
      var tpuEnqueued := totals.tpuEnqueued;
      at, read := MoreTime(at, read);
      var tpuDropped := totals.tpuDropped;
      at, read := MoreTime(at, read);
      var mevBuffered := totals.mevBuffered;
      at, read := MoreTime(at, read);
      var mevReleased := totals.mevReleased;
      s := Snapshot(quicReceived, quicInvalid, jsonRpcReceived, jsonRpcInvalid, mevProtectedReceived,
                    tpuEnqueued, tpuDropped, mevBuffered, mevReleased);
      ghost var seen := Snapshot(at[0].quicReceived, at[1].quicInvalid, at[2].jsonRpcReceived, at[3].jsonRpcInvalid,
                       at[4].mevProtectedReceived, at[5].tpuEnqueued, at[6].tpuDropped, at[7].mevBuffered,
                       at[8].mevReleased);
      ReadOneByOne(old(exact), at, exact, seen, s, read);
      ReadInOrder(Observation(old(exact), seen, exact, s));
      loads := loads + [Observation(old(exact), seen, exact, s)];
    }

    /** The reporter over any number of ticks.  Tick i loads once and reports what that reading
        shows beyond the reading before it.  The reports of a counter never add up to more than
        the last reading counted, and they add up to exactly that if and only if it is below 2^64. */
    method Report(ticks: nat) returns (reports: seq<Snapshot>, ghost readings: seq<Observation>)
      requires Valid()
      modifies this`totals, this`exact, this`loads
      ensures Valid() && |readings| == ticks && loads == old(loads) + readings
      ensures ReadInTurn(old(exact), readings) && AtMost(EndOf(old(exact), readings), exact)
      ensures ticks > 0 ==> AtMost(old(exact), Last(readings).seen) && Last(readings).end == exact
      ensures ReportsOf(readings, reports) && SumsAreRight(reports, SeenBefore(readings, ticks))
    {
      hide AtMost, InOrder, ReadInTurn, ReportsOf, SumsAreRight, WrapOf, Snapshot.Since;
      var previous := ZERO;
      reports, readings := [], [];
      NothingReported(exact);
      for tick := 0 to ticks
        invariant Valid() && |readings| == tick && loads == old(loads) + readings
        invariant ReadInTurn(old(exact), readings) && AtMost(EndOf(old(exact), readings), exact)
        invariant tick > 0 ==> AtMost(old(exact), Last(readings).seen) && Last(readings).end == exact
        invariant previous == ShownBefore(readings, tick)
        invariant ReportsOf(readings, reports) && SumsAreRight(reports, SeenBefore(readings, tick))
      {
        ghost var before := exact;
        OtherThreads();
        AtMostTransitive(EndOf(old(exact), readings), before, exact);
        var total := Load();
        var recent := total.Since(previous);
        ghost var reading := Last(loads);
        OneMoreReading(old(exact), readings, reading);
        OneMoreReport(old(exact), readings, reports, reading);
        reports, readings := reports + [recent], readings + [reading];
        previous := total;
      }
    }
  }

  /** Each report is what its reading shows beyond the reading before it, the first one beyond zero. */
  ghost predicate ReportsOf(readings: seq<Observation>, reports: seq<Snapshot>)
  {
    && |reports| == |readings|
    && forall i :: 0 <= i < |reports| ==> reports[i] == readings[i].shown.Since(ShownBefore(readings, i))
  }

  /** The reports add up to at most what was counted, and to exactly that if and only if it fits. */
  ghost predicate SumsAreRight(reports: seq<Snapshot>, counted: Snapshot)
  {
    forall c: Counter ::
      Total(reports, c) <= counted.Get(c) && (Total(reports, c) == counted.Get(c) <==> counted.Get(c) < U64_RANGE)
  }

  lemma NothingReported(begin: Snapshot)
    ensures ReadInTurn(begin, []) && ReportsOf([], []) && SumsAreRight([], ZERO) && AtMost(begin, begin)
  {
  }

  lemma OneMoreReading(begin: Snapshot, readings: seq<Observation>, reading: Observation)
    requires ReadInTurn(begin, readings) && InOrder(reading) && AtMost(EndOf(begin, readings), reading.start)
    requires readings != [] ==> AtMost(begin, Last(readings).seen)
    ensures ReadInTurn(begin, readings + [reading])
    ensures AtMost(begin, reading.seen) && AtMost(reading.seen, reading.end)
    ensures readings != [] ==> AtMost(Last(readings).seen, reading.seen)
    ensures AtMost(reading.end, reading.end)
  {
    var all := readings + [reading];
    forall i | 0 <= i < |all|
      ensures InOrder(all[i]) && AtMost(EndOf(begin, all[..i]), all[i].start)
    {
      if i < |readings| {
        assert all[..i] == readings[..i];
      } else {
        assert all[..i] == readings;
      }
    }
    AtMostTransitive(EndOf(begin, readings), reading.start, reading.seen);
    if readings != [] {
      AtMostTransitive(Last(readings).seen, Last(readings).end, reading.seen);
      AtMostTransitive(begin, Last(readings).seen, reading.seen);
    }
  }

  lemma OneMoreReport(begin: Snapshot, readings: seq<Observation>, reports: seq<Snapshot>, reading: Observation)
    requires ReadInTurn(begin, readings) && InOrder(reading)
    requires readings != [] ==> AtMost(Last(readings).seen, reading.seen)
    requires ReportsOf(readings, reports) && SumsAreRight(reports, SeenBefore(readings, |readings|))
    ensures var recent := reading.shown.Since(ShownBefore(readings, |readings|));
            ReportsOf(readings + [reading], reports + [recent]) && SumsAreRight(reports + [recent], reading.seen)
  {
    hide Wrap, WrapOf, AtMost, SumsAreRight, Snapshot.Since;
    var before, previous := SeenBefore(readings, |readings|), ShownBefore(readings, |readings|);
    if readings == [] {
      ZeroShowsZero(reading.seen);
    } else {
      assert InOrder(readings[|readings| - 1]);
    }
    OneMoreSum(reports, before, previous, reading);
  }

  lemma ZeroShowsZero(any: Snapshot)
    ensures WrapOf(ZERO, ZERO) && AtMost(ZERO, any)
  {
  }

  lemma OneMoreSum(reports: seq<Snapshot>, before: Snapshot, previous: Snapshot, reading: Observation)
    requires SumsAreRight(reports, before) && WrapOf(previous, before)
    requires InOrder(reading) && AtMost(before, reading.seen)
    ensures SumsAreRight(reports + [reading.shown.Since(previous)], reading.seen)
  {
    hide Wrap;
    var recent := reading.shown.Since(previous);
    forall c: Counter
      ensures Total(reports + [recent], c) <= reading.seen.Get(c)
      ensures Total(reports + [recent], c) == reading.seen.Get(c) <==> reading.seen.Get(c) < U64_RANGE
    {
      assert Init(reports + [recent]) == reports;
      assert recent.Get(c) == SaturatingSub(reading.shown.Get(c), previous.Get(c));
      DeltaLosesWraps(before.Get(c), reading.seen.Get(c), Total(reports, c));
    }
  }

  function Total(reports: seq<Snapshot>, c: Counter): nat
  {
    if reports == [] then 0 else Total(Init(reports), c) + Last(reports).Get(c)
  }

  /** Adding the saturating difference of two wrapped readings keeps the sum of the reports
      exact as long as the count fits, and short by at least one from the first wrap on. */
  lemma DeltaLosesWraps(before: nat, after: nat, sum: nat)
    requires before <= after && sum <= before
    requires sum == before <==> before < U64_RANGE
    ensures var sum' := sum + SaturatingSub(Wrap(after), Wrap(before));
            sum' <= after && (sum' == after <==> after < U64_RANGE)
  {
    WrapGap(before, after);
  }
}
