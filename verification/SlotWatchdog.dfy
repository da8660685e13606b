/** The slot-update subscription with its stall watchdog, as a timed run.

    Times are milliseconds on an ideal clock.  The feed says when each notification becomes
    available, when the stream ends, and when the task is cancelled; the turns say what chance
    decides: which ready branch of a select wins, and how each send to the consumer goes.
 */
module SlotWatchdog {
  import opened Prelude

  const STALL_TIMEOUT := 30_000
  const SEND_TIMEOUT := 100

  datatype SlotUpdate =
    | FirstShredReceived(slot: nat)
    | Completed(slot: nat)
    | OtherUpdate(slot: nat)

  datatype SlotEvent = Start(slot: nat) | End(slot: nat)

  function MapWebsocketUpdateToSlotEvent(update: SlotUpdate): Option<SlotEvent>
  {
    match update
    case FirstShredReceived(slot) => Some(Start(slot))
    case Completed(slot) => Some(End(slot))
    case OtherUpdate(_) => None
  }

  datatype Arrival = Arrival(at: nat, update: SlotUpdate)

  datatype Feed = Feed(arrivals: seq<Arrival>, closesAt: Option<nat>, cancelAt: Option<nat>)

  function Max(a: nat, b: nat): nat
  {
    if a < b then b else a
  }

  // ----- One wait -----

  datatype Notification = Got(update: SlotUpdate) | Cancelled | StreamClosed | Stalled

  /** The result of a wait and the time it returns. */
  datatype Wait = Wait(result: Notification, at: nat)

  /** The stream with its timeout: the next item if it is available by the deadline. */
  function StreamBranch(feed: Feed, position: nat, now: nat): Wait
    requires position <= |feed.arrivals|
  {
    var deadline := now + STALL_TIMEOUT;
    if position < |feed.arrivals| then
      var ready := Max(now, feed.arrivals[position].at);
      if ready <= deadline then Wait(Got(feed.arrivals[position].update), ready) else Wait(Stalled, deadline)
    else if feed.closesAt.Some? && Max(now, feed.closesAt.value) <= deadline then
      Wait(StreamClosed, Max(now, feed.closesAt.value))
    else Wait(Stalled, deadline)
  }

  /** select!: the branch that is ready first; chance decides when both are. */
  function NextWait(feed: Feed, position: nat, now: nat, cancelWins: bool): (w: Wait)
    requires position <= |feed.arrivals|
    ensures now <= w.at <= now + STALL_TIMEOUT
    ensures w.result == Stalled ==> w.at == now + STALL_TIMEOUT
    ensures w.result == Cancelled ==> feed.cancelAt.Some? && feed.cancelAt.value <= w.at
  {
    var stream := StreamBranch(feed, position, now);
    if feed.cancelAt.None? then stream
    else
      var cancel := Max(now, feed.cancelAt.value);
      if cancel < stream.at || (cancel == stream.at && cancelWins) then Wait(Cancelled, cancel) else stream
  }

  /** A wait ends as stalled if and only if neither an item, nor the end of the stream, nor a
      cancellation comes within the time-out. */
  lemma StallCondition(feed: Feed, position: nat, now: nat, cancelWins: bool)
    requires position <= |feed.arrivals|
    ensures NextWait(feed, position, now, cancelWins).result == Stalled <==>
            && (position < |feed.arrivals| ==> feed.arrivals[position].at > now + STALL_TIMEOUT)
            && (position == |feed.arrivals| && feed.closesAt.Some? ==> feed.closesAt.value > now + STALL_TIMEOUT)
            && (feed.cancelAt.Some? ==>
                  if cancelWins then feed.cancelAt.value > now + STALL_TIMEOUT
                  else feed.cancelAt.value >= now + STALL_TIMEOUT)
  {
  }

  // t is the later of a and b.
  predicate IsLater(t: nat, a: nat, b: nat)
  {
    a <= t && b <= t && (t == a || t == b)
  }

  /** What becomes available at this time is ready, in a wait that starts now, only after t, or at t
      and gives way. */
  predicate ReadyAfter(available: nat, now: nat, t: nat, givesWay: bool)
  {
    if givesWay then t <= now || t <= available else t < now || t < available
  }

  predicate CancelReadyAfter(feed: Feed, now: nat, t: nat, cancelWins: bool)
  {
    feed.cancelAt.Some? ==> ReadyAfter(feed.cancelAt.value, now, t, !cancelWins)
  }

  /** When a wait returns what, and at which time.  It returns an item exactly if one is left that is
      available within the time-out and cancellation is not ready before it, or together with it
      when the chance favours cancellation; then at once if the item is there, else when it comes.
      The end of the stream likewise, once no item is left.  Cancellation wins exactly if it is
      ready before the item, the end of the stream and the time-out, or together with them when the
      chance favours it. */
  lemma WaitOutcome(feed: Feed, position: nat, now: nat, cancelWins: bool, t: nat, update: SlotUpdate)
    requires position <= |feed.arrivals|
    ensures NextWait(feed, position, now, cancelWins) == Wait(Got(update), t) <==>
            && position < |feed.arrivals| && update == feed.arrivals[position].update
            && feed.arrivals[position].at <= now + 30_000
            && IsLater(t, now, feed.arrivals[position].at)
            && CancelReadyAfter(feed, now, t, cancelWins)
    ensures NextWait(feed, position, now, cancelWins) == Wait(StreamClosed, t) <==>
            && position == |feed.arrivals| && feed.closesAt.Some?
            && feed.closesAt.value <= now + 30_000
            && IsLater(t, now, feed.closesAt.value)
            && CancelReadyAfter(feed, now, t, cancelWins)
    ensures NextWait(feed, position, now, cancelWins) == Wait(Cancelled, t) <==>
            && feed.cancelAt.Some? && IsLater(t, now, feed.cancelAt.value)
            && (position < |feed.arrivals| ==> ReadyAfter(feed.arrivals[position].at, now, t, cancelWins))
            && (position == |feed.arrivals| && feed.closesAt.Some? ==> ReadyAfter(feed.closesAt.value, now, t, cancelWins))
            && ReadyAfter(now + 30_000, now, t, cancelWins)
  {
  }

  // ----- The loop -----

  datatype SendReply = Sent | ConsumerClosed | SendTimedOut

  /** What chance decides in one iteration. */
  datatype Turn = Turn(cancelWins: bool, reply: SendReply, delay: nat)

  datatype Exit = Stopped | SubscriptionClosed | SubscriptionStalled | ConsumerStopped

  /** heard is when the latest notification was returned; fates are the replies to the events
      offered to the consumer, in order. */
  datatype Loop = Loop(
    now: nat,
    position: nat,
    heard: nat,
    fates: seq<SendReply>,
    delivered: seq<SlotEvent>,
    exit: Option<Exit>)

  predicate ValidTurn(turn: Turn)
  {
    turn.delay <= SEND_TIMEOUT && (turn.reply == SendTimedOut ==> turn.delay == SEND_TIMEOUT)
  }

  function IsCancelled(feed: Feed, now: nat): bool
  {
    feed.cancelAt.Some? && feed.cancelAt.value <= now
  }

  function AfterSend(feed: Feed, s: Loop, event: SlotEvent, turn: Turn): Loop
  {
    var now := s.now + turn.delay;
    s.(now := now,
       fates := s.fates + [turn.reply],
       delivered := if turn.reply == Sent then s.delivered + [event] else s.delivered,
       exit := if turn.reply != ConsumerClosed then None
               else if IsCancelled(feed, now) then Some(Stopped) else Some(ConsumerStopped))
  }

  /** One iteration of the loop. */
  function Iterate(feed: Feed, s: Loop, turn: Turn): Loop
    requires s.position <= |feed.arrivals|
  {
    var wait := NextWait(feed, s.position, s.now, turn.cancelWins);
    match wait.result
    case Cancelled => s.(now := wait.at, exit := Some(Stopped))
    case StreamClosed => s.(now := wait.at, exit := Some(SubscriptionClosed))
    case Stalled => s.(now := wait.at, exit := Some(SubscriptionStalled))
    case Got(update) =>
      var heard := s.(now := wait.at, position := s.position + 1, heard := wait.at);
      match MapWebsocketUpdateToSlotEvent(update)
      case None => heard
      case Some(event) => AfterSend(feed, heard, event, turn)
  }

  function Subscribed(start: nat): Loop
  {
    Loop(start, 0, start, [], [], None)
  }

  /** The loop after these turns; turns after the exit change nothing. */
  function RunTurns(feed: Feed, start: nat, turns: seq<Turn>): (s: Loop)
    ensures s.position <= |feed.arrivals|
  {
    if turns == [] then Subscribed(start)
    else
      var before := RunTurns(feed, start, Init(turns));
      if before.exit.Some? then before
      else
        NextPosition(feed, before, Last(turns));
        Iterate(feed, before, Last(turns))
  }

  lemma NextPosition(feed: Feed, s: Loop, turn: Turn)
    requires s.position <= |feed.arrivals|
    ensures Iterate(feed, s, turn).position <= |feed.arrivals|
  {
  }

  ghost predicate ValidTurns(turns: seq<Turn>)
  {
    forall i :: 0 <= i < |turns| ==> ValidTurn(turns[i])
  }

  /** The loop as a program over the stream and the consumer's channel. */
  class Subscription {
    const feed: Feed
    var now: nat
    var position: nat
    var delivered: seq<SlotEvent>

    constructor (feed: Feed, start: nat)
      ensures this.feed == feed && now == start && position == 0 && delivered == []
    {
      this.feed, now, position, delivered := feed, start, 0, [];
    }

    method NextNotification() returns (result: Notification, cancelWins: bool)
      requires position <= |feed.arrivals|
      modifies this`now, this`position
      ensures var wait := NextWait(feed, old(position), old(now), cancelWins);
              && result == wait.result && now == wait.at
              && position == if result.Got? then old(position) + 1 else old(position)
      ensures position <= |feed.arrivals|
    {
      cancelWins := *;
      var wait := NextWait(feed, position, now, cancelWins);
      result, now := wait.result, wait.at;
      if result.Got? {
        position := position + 1;
      }
    }

    /** send_timeout on the consumer's channel: any reply within the time-out of 100 ms, which a
        send that times out takes in full. */
    method SendTimeout(event: SlotEvent) returns (turn: Turn)
      modifies this`now, this`delivered
      ensures old(now) <= now <= old(now) + 100
      ensures turn.reply == SendTimedOut ==> now == old(now) + 100
      ensures ValidTurn(turn) && now == old(now) + turn.delay
      ensures delivered == if turn.reply == Sent then old(delivered) + [event] else old(delivered)
    {
      var reply: SendReply := *;
      var delay := SEND_TIMEOUT;
      if reply != SendTimedOut {
        delay :| 0 <= delay <= SEND_TIMEOUT;
      }
      now := now + delay;
      if reply == Sent {
        delivered := delivered + [event];
      }
      turn := Turn(false, reply, delay);
    }

    /** The loop of run_websocket_subscription.  Every run of it is a run of RunTurns. */
    method Run() returns (exit: Exit, ghost turns: seq<Turn>)
      requires position == 0 && delivered == []
      modifies this`now, this`position, this`delivered
      ensures ValidTurns(turns)
      ensures var end := RunTurns(feed, old(now), turns);
              && end.exit == Some(exit) && end.now == now && end.position == position && end.delivered == delivered
              && SlotsForwarded(feed.arrivals[..position], end.fates, delivered)
    {
      ghost var start := now;
      turns := [];
      while true
        invariant position <= |feed.arrivals| && ValidTurns(turns)
        invariant var s := RunTurns(feed, start, turns);
                  s.exit == None && s.now == now && s.position == position && s.delivered == delivered
        decreases |feed.arrivals| - position
      {
        ghost var before := RunTurns(feed, start, turns);
        var result, cancelWins := NextNotification();
        if result.Cancelled? {
          RunNext(feed, start, turns, Turn(cancelWins, Sent, 0));
          return Stopped, turns + [Turn(cancelWins, Sent, 0)];
        } else if result.StreamClosed? {
          RunNext(feed, start, turns, Turn(cancelWins, Sent, 0));
          return SubscriptionClosed, turns + [Turn(cancelWins, Sent, 0)];
        } else if result.Stalled? {
          RunNext(feed, start, turns, Turn(cancelWins, Sent, 0));
          return SubscriptionStalled, turns + [Turn(cancelWins, Sent, 0)];
        }
        var event := MapWebsocketUpdateToSlotEvent(result.update);
        if event.None? {
          RunNext(feed, start, turns, Turn(cancelWins, Sent, 0));
          turns := turns + [Turn(cancelWins, Sent, 0)];
          continue;
        }
        var sent := SendTimeout(event.value);
        ghost var turn := Turn(cancelWins, sent.reply, sent.delay);
        RunNext(feed, start, turns, turn);
        match sent.reply {
          case Sent =>
          case ConsumerClosed =>
            return if IsCancelled(feed, now) then Stopped else ConsumerStopped, turns + [turn];
          case SendTimedOut =>
        }
        turns := turns + [turn];
      }
    }
  }

  lemma RunNext(feed: Feed, start: nat, turns: seq<Turn>, turn: Turn)
    ensures RunTurns(feed, start, turns).exit.None? ==>
              RunTurns(feed, start, turns + [turn]) == Iterate(feed, RunTurns(feed, start, turns), turn)
    ensures var s := RunTurns(feed, start, turns + [turn]);
            SlotsForwarded(feed.arrivals[..s.position], s.fates, s.delivered)
  {
    assert Init(turns + [turn]) == turns;
    SlotsAreForwarded(feed, start, turns + [turn]);
  }

  // ----- The watchdog bound -----

  lemma {:induction false} HeardRecently(feed: Feed, start: nat, turns: seq<Turn>)
    requires ValidTurns(turns)
    ensures var s := RunTurns(feed, start, turns);
            && (s.exit.None? ==> s.heard <= s.now <= s.heard + SEND_TIMEOUT)
            && (s.exit == Some(SubscriptionStalled) ==>
                  s.heard + STALL_TIMEOUT <= s.now <= s.heard + STALL_TIMEOUT + SEND_TIMEOUT)
  {
    if turns != [] {
      HeardRecently(feed, start, Init(turns));
    }
  }

  /** In every run that ends as stalled, the end comes no sooner than 30 s and no later than 30.1 s
      after the last returned notification (or the subscription), relevant or not. */
  lemma StallsInTime(feed: Feed, start: nat, turns: seq<Turn>)
    requires ValidTurns(turns) && RunTurns(feed, start, turns).exit == Some(SubscriptionStalled)
    ensures var s := RunTurns(feed, start, turns);
            30_000 <= s.now - s.heard <= 30_100
  {
    HeardRecently(feed, start, turns);
  }

  /** Nothing reaches the subscription before or at this time: no further notification, no end of
      the stream, no cancellation. */
  ghost predicate SilentUntil(feed: Feed, position: nat, time: nat)
    requires position <= |feed.arrivals|
  {
    && (position < |feed.arrivals| ==> feed.arrivals[position].at > time)
    && (position == |feed.arrivals| && feed.closesAt.Some? ==> feed.closesAt.value > time)
    && (feed.cancelAt.Some? ==> feed.cancelAt.value > time)
  }

  /** Any silence of the time-outs' length after the last notification ends the subscription as
      stalled at its next turn, whatever would come later; and a stalled end means that nothing
      came for 30 s from the start of that wait. */
  lemma SilenceStalls(feed: Feed, start: nat, turns: seq<Turn>, turn: Turn)
    requires ValidTurns(turns) && RunTurns(feed, start, turns).exit.None?
    ensures var before := RunTurns(feed, start, turns);
            var s := RunTurns(feed, start, turns + [turn]);
            && (SilentUntil(feed, before.position, before.heard + STALL_TIMEOUT + SEND_TIMEOUT) ==>
                  s.exit == Some(SubscriptionStalled) && s.heard == before.heard)
            && (s.exit == Some(SubscriptionStalled) ==>
                  s.now == before.now + STALL_TIMEOUT && SilentUntil(feed, before.position, s.now - 1))
  {
    RunNext(feed, start, turns, turn);
    HeardRecently(feed, start, turns);
    var before := RunTurns(feed, start, turns);
    StallCondition(feed, before.position, before.now, turn.cancelWins);
  }

  /** The bounds of StallsInTime are exact: every time between them is that of some run, the later
      the longer the consumer took for the last event, up to the full send time-out. */
  lemma StallBoundsAreExact(start: nat, silence: nat)
    requires 30_000 <= silence <= 30_100
    ensures exists feed, turns ::
              && ValidTurns(turns) && RunTurns(feed, start, turns).exit == Some(SubscriptionStalled)
              && RunTurns(feed, start, turns).now - RunTurns(feed, start, turns).heard == silence
  {
    hide SlotsForwarded, Iterate, RunTurns;
    var feed := OneCompletion(start);
    var first, second := Turn(false, Sent, silence - 30_000), Turn(false, Sent, 0);
    NothingYet(feed, start);
    RunNext(feed, start, [], first);
    SlowSend(start, silence - 30_000);
    RunNext(feed, start, [] + [first], second);
    SilenceAfterwards(start, silence - 30_000);
    assert ValidTurns([] + [first] + [second]);
  }

  function OneCompletion(start: nat): Feed
  {
    Feed([Arrival(start, Completed(0))], None, None)
  }

  lemma NothingYet(feed: Feed, start: nat)
    ensures RunTurns(feed, start, []) == Subscribed(start)
  {
  }

  lemma SlowSend(start: nat, delay: nat)
    ensures Iterate(OneCompletion(start), Subscribed(start), Turn(false, Sent, delay)) ==
            Loop(start + delay, 1, start, [Sent], [End(0)], None)
  {
  }

  lemma SilenceAfterwards(start: nat, delay: nat)
    ensures var s := Iterate(OneCompletion(start), Loop(start + delay, 1, start, [Sent], [End(0)], None), Turn(false, Sent, 0));
            s.exit == Some(SubscriptionStalled) && s.now == start + delay + 30_000 && s.heard == start
  {
  }

  /** No two notifications, and not the first one, are more than the time-out apart. */
  ghost predicate Lively(feed: Feed, start: nat)
  {
    forall k :: 0 <= k < |feed.arrivals| ==>
      feed.arrivals[k].at <= (if k == 0 then start else feed.arrivals[k - 1].at) + STALL_TIMEOUT
  }

  /** A feed whose notifications follow each other within 30 s, relevant or not, never stalls
      before its last notification is consumed, however slow the consumer is. */
  lemma {:induction false} LivelyFeedNeverStalls(feed: Feed, start: nat, turns: seq<Turn>)
    requires Lively(feed, start)
    ensures UpToDate(feed, start, RunTurns(feed, start, turns))
    ensures RunTurns(feed, start, turns).exit == Some(SubscriptionStalled) ==>
              RunTurns(feed, start, turns).position == |feed.arrivals|
  {
    if turns != [] {
      LivelyFeedNeverStalls(feed, start, Init(turns));
      var before := RunTurns(feed, start, Init(turns));
      if before.exit.None? {
        LivelyStep(feed, start, before, Last(turns));
      }
    }
  }

  /** The loop's clock is past the notification consumed last. */
  ghost predicate UpToDate(feed: Feed, start: nat, s: Loop)
  {
    && s.position <= |feed.arrivals|
    && s.now >= start
    && (s.position > 0 ==> s.now >= feed.arrivals[s.position - 1].at)
  }

  lemma LivelyStep(feed: Feed, start: nat, s: Loop, turn: Turn)
    requires Lively(feed, start) && UpToDate(feed, start, s) && s.exit.None?
    ensures UpToDate(feed, start, Iterate(feed, s, turn))
    ensures Iterate(feed, s, turn).exit == Some(SubscriptionStalled) ==> s.position == |feed.arrivals|
    ensures Iterate(feed, s, turn).exit == Some(SubscriptionStalled) ==> Iterate(feed, s, turn).position == s.position
  {
    if s.position < |feed.arrivals| {
      assert feed.arrivals[s.position].at <= s.now + STALL_TIMEOUT;
    }
  }

  // ----- Forwarding -----

  /** The slot events of a stretch of notifications. */
  function MappedEvents(arrivals: seq<Arrival>): seq<SlotEvent>
  {
    if arrivals == [] then []
    else
      var event := MapWebsocketUpdateToSlotEvent(Last(arrivals).update);
      MappedEvents(Init(arrivals)) + if event.Some? then [event.value] else []
  }

  /** The events whose send succeeded. */
  function Picked(events: seq<SlotEvent>, fates: seq<SendReply>): seq<SlotEvent>
    requires |fates| == |events|
  {
    if events == [] then []
    else Picked(Init(events), Init(fates)) + if Last(fates) == Sent then [Last(events)] else []
  }

  /** The delivered events are the mapped events of the consumed notifications, in order, without
      exactly those whose send timed out, and at most a last one that found the consumer closed. */
  ghost predicate Forwarded(feed: Feed, s: Loop)
    requires s.position <= |feed.arrivals|
  {
    var events := MappedEvents(feed.arrivals[..s.position]);
    && |s.fates| == |events|
    && s.delivered == Picked(events, s.fates)
    && (forall i :: 0 <= i < |s.fates| && s.fates[i] == ConsumerClosed ==> i == |s.fates| - 1 && s.exit.Some?)
  }

  lemma MappedNext(feed: Feed, position: nat)
    requires position < |feed.arrivals|
    ensures var event := MapWebsocketUpdateToSlotEvent(feed.arrivals[position].update);
            MappedEvents(feed.arrivals[..position + 1]) ==
            MappedEvents(feed.arrivals[..position]) + if event.Some? then [event.value] else []
  {
    assert Init(feed.arrivals[..position + 1]) == feed.arrivals[..position];
  }

  lemma PickedNext(events: seq<SlotEvent>, fates: seq<SendReply>, event: SlotEvent, fate: SendReply)
    requires |fates| == |events|
    ensures Picked(events + [event], fates + [fate]) == Picked(events, fates) + if fate == Sent then [event] else []
  {
    assert Init(events + [event]) == events && Init(fates + [fate]) == fates;
  }

  lemma ForwardedNext(feed: Feed, s: Loop, turn: Turn)
    requires s.position <= |feed.arrivals| && s.exit.None? && Forwarded(feed, s)
    ensures Iterate(feed, s, turn).position <= |feed.arrivals| && Forwarded(feed, Iterate(feed, s, turn))
  {
    NextPosition(feed, s, turn);
    var wait := NextWait(feed, s.position, s.now, turn.cancelWins);
    if wait.result.Got? {
      assert wait.result.update == feed.arrivals[s.position].update;
      MappedNext(feed, s.position);
      var event := MapWebsocketUpdateToSlotEvent(wait.result.update);
      if event.Some? {
        PickedNext(MappedEvents(feed.arrivals[..s.position]), s.fates, event.value, turn.reply);
        assert s.delivered + [] == s.delivered;
      } else {
        assert MappedEvents(feed.arrivals[..s.position]) + [] == MappedEvents(feed.arrivals[..s.position]);
      }
    }
  }

  lemma {:induction false} EventsAreForwarded(feed: Feed, start: nat, turns: seq<Turn>)
    ensures Forwarded(feed, RunTurns(feed, start, turns))
  {
    if turns != [] {
      EventsAreForwarded(feed, start, Init(turns));
      var before := RunTurns(feed, start, Init(turns));
      if before.exit.None? {
        ForwardedNext(feed, before, Last(turns));
      }
    }
  }

  // ----- Forwarding, by kind of update -----

  function StartSlots(events: seq<SlotEvent>): seq<nat>
  {
    if events == [] then []
    else StartSlots(Init(events)) + if Last(events).Start? then [Last(events).slot] else []
  }

  function EndSlots(events: seq<SlotEvent>): seq<nat>
  {
    if events == [] then []
    else EndSlots(Init(events)) + if Last(events).End? then [Last(events).slot] else []
  }

  /** How many updates are first shreds or completions, the only ones that offer an event. */
  function Offers(arrivals: seq<Arrival>): nat
  {
    if arrivals == [] then 0
    else Offers(Init(arrivals)) + if Last(arrivals).update.OtherUpdate? then 0 else 1
  }

  /** The slots of the first shreds whose send succeeded. */
  function ShredSlots(arrivals: seq<Arrival>, fates: seq<SendReply>): seq<nat>
    requires |fates| == Offers(arrivals)
  {
    if arrivals == [] then []
    else
      match Last(arrivals).update
      case FirstShredReceived(slot) =>
        ShredSlots(Init(arrivals), Init(fates)) + if Last(fates) == Sent then [slot] else []
      case Completed(_) => ShredSlots(Init(arrivals), Init(fates))
      case OtherUpdate(_) => ShredSlots(Init(arrivals), fates)
  }

  /** The slots of the completions whose send succeeded. */
  function CompletedSlots(arrivals: seq<Arrival>, fates: seq<SendReply>): seq<nat>
    requires |fates| == Offers(arrivals)
  {
    if arrivals == [] then []
    else
      match Last(arrivals).update
      case FirstShredReceived(_) => CompletedSlots(Init(arrivals), Init(fates))
      case Completed(slot) =>
        CompletedSlots(Init(arrivals), Init(fates)) + if Last(fates) == Sent then [slot] else []
      case OtherUpdate(_) => CompletedSlots(Init(arrivals), fates)
  }

  /** One reply for every first shred and completion; the delivered starts are the first shreds that
      were sent and the delivered ends are the completions that were sent, in order. */
  ghost predicate SlotsForwarded(arrivals: seq<Arrival>, fates: seq<SendReply>, delivered: seq<SlotEvent>)
  {
    && |fates| == Offers(arrivals)
    && StartSlots(delivered) == ShredSlots(arrivals, fates)
    && EndSlots(delivered) == CompletedSlots(arrivals, fates)
  }

  lemma {:induction false} MappedSlots(arrivals: seq<Arrival>, fates: seq<SendReply>)
    requires |fates| == |MappedEvents(arrivals)|
    ensures SlotsForwarded(arrivals, fates, Picked(MappedEvents(arrivals), fates))
  {
    if arrivals != [] {
      var before, update := Init(arrivals), Last(arrivals).update;
      if update.OtherUpdate? {
        MappedSlots(before, fates);
        assert MappedEvents(arrivals) == MappedEvents(before);
      } else {
        MappedSlots(before, Init(fates));
        var event := if update.FirstShredReceived? then Start(update.slot) else End(update.slot);
        assert MappedEvents(arrivals) == MappedEvents(before) + [event];
        assert fates == Init(fates) + [Last(fates)];
        PickedNext(MappedEvents(before), Init(fates), event, Last(fates));
        var sent := Picked(MappedEvents(before), Init(fates));
        if Last(fates) == Sent {
          SlotsSnoc(sent, event);
        } else {
          assert Picked(MappedEvents(arrivals), fates) == sent;
        }
      }
    }
  }

  lemma SlotsSnoc(events: seq<SlotEvent>, event: SlotEvent)
    ensures StartSlots(events + [event]) == StartSlots(events) + if event.Start? then [event.slot] else []
    ensures EndSlots(events + [event]) == EndSlots(events) + if event.End? then [event.slot] else []
  {
    assert Init(events + [event]) == events;
  }

  /** In every run a Start is delivered for each first shred whose send succeeded and an End for each
      completion whose send succeeded, each kind in order, and nothing for any other update. */
  lemma SlotsAreForwarded(feed: Feed, start: nat, turns: seq<Turn>)
    ensures var s := RunTurns(feed, start, turns);
            SlotsForwarded(feed.arrivals[..s.position], s.fates, s.delivered)
  {
    var s := RunTurns(feed, start, turns);
    EventsAreForwarded(feed, start, turns);
    MappedSlots(feed.arrivals[..s.position], s.fates);
  }

  /** Why a run can end: a normal end means the task was cancelled by then; a closed subscription
      means the stream had ended after its last notification; a stopped consumer means the last
      event offered found the channel closed. */
  lemma {:induction false} ExitReasons(feed: Feed, start: nat, turns: seq<Turn>)
    ensures var s := RunTurns(feed, start, turns);
            && (s.exit == Some(Stopped) ==> feed.cancelAt.Some? && feed.cancelAt.value <= s.now)
            && (s.exit == Some(SubscriptionClosed) ==>
                  s.position == |feed.arrivals| && feed.closesAt.Some? && feed.closesAt.value <= s.now)
            && (s.exit == Some(ConsumerStopped) ==>
                  && s.fates != [] && Last(s.fates) == ConsumerClosed
                  && (feed.cancelAt.Some? ==> feed.cancelAt.value > s.now))
            && (feed.cancelAt.None? ==> s.exit != Some(Stopped))
  {
    if turns != [] {
      ExitReasons(feed, start, Init(turns));
    }
  }
}
