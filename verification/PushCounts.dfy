/**
 Pushes received and forwarded: what the bouncer's two counters say of each other, for every
 history of push requests, submissions and fixes.
 */
module PushCounts {
  import opened Times
  import Sums
  import opened RemoteSync
  import opened RemoteHistory
  import opened RemoteCounters

  // --------------------------------------------------------------- push requests

  /** A request on its way: counted as received, not yet as forwarded. */
  datatype Pending = Pending(attempted: nat, clock: int)

  /** Each request counts once for its server and once for its remote realm, if it has one. */
  datatype Key = Key(request: int, owner: Owner)

  datatype Pushes = Pushes(tables: Tables, pending: map<Key, Pending>)

  datatype PushEvent =
    | Receive(key: Key, attempted: nat, clock: int)
    | Forward(key: Key, delivered: nat, clock: int)
    | Other(event: Event)

  /** A request that can be forwarded: a clock never runs back during a request, and no more pushes
      are delivered than attempted. */
  ghost predicate Forwards(s: Pushes, e: PushEvent) {
    e.Forward? && e.key in s.pending && e.delivered <= s.pending[e.key].attempted && s.pending[e.key].clock <= e.clock
  }

  ghost function Push(s: Pushes, e: PushEvent): Pushes {
    match e
    case Receive(key, attempted, clock) =>
      if key in s.pending then s
      else Pushes(IncrementCounter(s.tables, key.owner, Received, Ceiling(Daily, clock), attempted),
                  s.pending[key := Pending(attempted, clock)])
    case Forward(key, delivered, clock) =>
      if Forwards(s, e) then
        Pushes(IncrementCounter(s.tables, key.owner, Forwarded, Ceiling(Daily, clock), delivered), s.pending - {key})
      else s
    case Other(event) => if event.Counted? then s else s.(tables := RemoteHistory.Apply(s.tables, event))
  }

  ghost function AfterPushes(history: seq<PushEvent>): Pushes
    decreases |history|
  {
    if history == [] then Pushes(Tables([], [], []), map[])
    else Push(AfterPushes(history[..|history| - 1]), history[|history| - 1])
  }

  predicate IsDue(key: Key, p: Pending, owner: Owner, slots: int -> bool) {
    SameOwner(owner, key.owner) && slots(Ceiling(Daily, p.clock))
  }

  ghost function Due(pending: map<Key, Pending>, owner: Owner, slots: int -> bool): map<Key, int> {
    map key | key in pending && IsDue(key, pending[key], owner, slots) :: pending[key].attempted as int
  }

  /** What was received in these slots and is still on its way. */
  ghost function Outstanding(pending: map<Key, Pending>, owner: Owner, slots: int -> bool): int {
    Sums.Sum(Due(pending, owner, slots))
  }

  lemma OutstandingPut(pending: map<Key, Pending>, key: Key, p: Pending, owner: Owner, slots: int -> bool)
    requires key !in pending
    ensures Outstanding(pending[key := p], owner, slots)
         == Outstanding(pending, owner, slots) + if IsDue(key, p, owner, slots) then p.attempted else 0
  {
    if IsDue(key, p, owner, slots) {
      assert Due(pending[key := p], owner, slots) == Due(pending, owner, slots)[key := p.attempted as int];
      Sums.SumPut(Due(pending, owner, slots), key, p.attempted);
    } else {
      assert Due(pending[key := p], owner, slots) == Due(pending, owner, slots);
    }
  }

  lemma OutstandingNonNegative(pending: map<Key, Pending>, owner: Owner, slots: int -> bool)
    ensures Outstanding(pending, owner, slots) >= 0
  {
    var none: map<Key, int> := map[];
    Sums.SumMonotone(none, Due(pending, owner, slots));
  }

  function Until(t: int): int -> bool {
    (slot: int) => slot <= t
  }

  function On(t: int): int -> bool {
    (slot: int) => slot == t
  }

  lemma IncrementKeeps(tables: Tables, owner: Owner, counter: Counter, endTime: int, increment: int)
    requires Inv(tables)
    ensures Inv(IncrementCounter(tables, owner, counter, endTime, increment))
  {
    RemoteHistory.ApplyKeeps(tables, Counted(owner, counter, endTime, increment));
  }

  ghost function ReceivedSlot(s: Pushes, e: PushEvent): int
    requires Forwards(s, e)
  {
    Ceiling(Daily, s.pending[e.key].clock)
  }

  /** How much an event adds to what was received, forwarded and is outstanding in some slots. */
  ghost function ReceivedBy(s: Pushes, e: PushEvent, owner: Owner, slots: int -> bool): int {
    if e.Receive? && e.key !in s.pending && SameOwner(owner, e.key.owner) && slots(Ceiling(Daily, e.clock))
    then e.attempted else 0
  }

  ghost function ForwardedBy(s: Pushes, e: PushEvent, owner: Owner, slots: int -> bool): int {
    if Forwards(s, e) && SameOwner(owner, e.key.owner) && slots(Ceiling(Daily, e.clock)) then e.delivered else 0
  }

  ghost function SettledBy(s: Pushes, e: PushEvent, owner: Owner, slots: int -> bool): int {
    if Forwards(s, e) && SameOwner(owner, e.key.owner) && slots(ReceivedSlot(s, e))
    then s.pending[e.key].attempted else 0
  }

  lemma PushTotals(s: Pushes, e: PushEvent, owner: Owner, slots: int -> bool)
    requires Inv(s.tables)
    ensures var next := Push(s, e);
            && Inv(next.tables)
            && Total(next.tables, owner, Received, slots)
                == Total(s.tables, owner, Received, slots) + ReceivedBy(s, e, owner, slots)
            && Total(next.tables, owner, Forwarded, slots)
                == Total(s.tables, owner, Forwarded, slots) + ForwardedBy(s, e, owner, slots)
            && Outstanding(next.pending, owner, slots)
            == Outstanding(s.pending, owner, slots) + ReceivedBy(s, e, owner, slots) - SettledBy(s, e, owner, slots)
  {
    hide IncrementCounter, Inv, Outstanding, Total, RemoteHistory.Apply, SameOwner, Ceiling;
    match e
    case Receive(key, attempted, clock) =>
      if key !in s.pending {
        var slot := Ceiling(Daily, clock);
        IncrementKeeps(s.tables, key.owner, Received, slot, attempted);
        IncrementTotal(s.tables, key.owner, Received, slot, attempted, owner, Received, slots);
        IncrementTotal(s.tables, key.owner, Received, slot, attempted, owner, Forwarded, slots);
        OutstandingPut(s.pending, key, Pending(attempted, clock), owner, slots);
      }
    case Forward(key, delivered, clock) =>
      if Forwards(s, e) {
        var slot := Ceiling(Daily, clock);
        IncrementKeeps(s.tables, key.owner, Forwarded, slot, delivered);
        IncrementTotal(s.tables, key.owner, Forwarded, slot, delivered, owner, Received, slots);
        IncrementTotal(s.tables, key.owner, Forwarded, slot, delivered, owner, Forwarded, slots);
        assert s.pending == (s.pending - {key})[key := s.pending[key]];
        OutstandingPut(s.pending - {key}, key, s.pending[key], owner, slots);
      }
    case Other(event) =>
      if !event.Counted? {
        RemoteHistory.ApplyKeeps(s.tables, event);
        OtherTotal(s.tables, event, owner, Forwarded, slots);
        OtherTotal(s.tables, event, owner, Received, slots);
      }
  }

  lemma PushStart(owner: Owner, slots: int -> bool)
    ensures Inv(AfterPushes([]).tables) && Outstanding(AfterPushes([]).pending, owner, slots) == 0
    ensures forall counter :: Total(AfterPushes([]).tables, owner, counter, slots) == 0
  {
    assert Due(map[], owner, slots) == map[];
  }

  // ---------------------------------------------------------- sums up to a time

  lemma {:induction false} PushInv(history: seq<PushEvent>, owner: Owner, t: int)
    ensures var s := AfterPushes(history);
            && Inv(s.tables)
            && Total(s.tables, owner, Forwarded, Until(t)) + Outstanding(s.pending, owner, Until(t))
                <= Total(s.tables, owner, Received, Until(t))
    decreases |history|
  {
    hide Push, Inv, Outstanding, Total, SameOwner, Ceiling;
    if history == [] {
      PushStart(owner, Until(t));
    } else {
      var s, e := AfterPushes(history[..|history| - 1]), history[|history| - 1];
      PushInv(history[..|history| - 1], owner, t);
      PushTotals(s, e, owner, Until(t));
      if Forwards(s, e) { CeilingMonotone(Daily, s.pending[e.key].clock, e.clock); }
    }
  }

  /** Forwarded never outruns received: for every server and remote realm and every end time, the
      pushes forwarded in all slots up to it are at most those received, whatever requests,
      submissions and fixes interleave. */
  lemma ForwardedAtMostReceived(history: seq<PushEvent>, owner: Owner, t: int)
    ensures Total(AfterPushes(history).tables, owner, Forwarded, Until(t))
         <= Total(AfterPushes(history).tables, owner, Received, Until(t))
  {
    PushInv(history, owner, t);
    OutstandingNonNegative(AfterPushes(history).pending, owner, Until(t));
  }

  // -------------------------------------------------------------- single days

  /** Pushes an event delivers on day t for a request received on an earlier day. */
  ghost function CrossedBy(s: Pushes, e: PushEvent, owner: Owner, t: int): int {
    if Forwards(s, e) && SameOwner(owner, e.key.owner) && Ceiling(Daily, e.clock) == t && ReceivedSlot(s, e) < t
    then e.delivered else 0
  }

  /** Pushes attempted by a request received on day t that an event shows not to be delivered on day t. */
  ghost function MissedBy(s: Pushes, e: PushEvent, owner: Owner, t: int): int {
    if Forwards(s, e) && SameOwner(owner, e.key.owner) && ReceivedSlot(s, e) == t
    then s.pending[e.key].attempted - (if Ceiling(Daily, e.clock) == t then e.delivered else 0) else 0
  }

  ghost function Crossed(history: seq<PushEvent>, owner: Owner, t: int): int
    decreases |history|
  {
    if history == [] then 0
    else
      var before := history[..|history| - 1];
      Crossed(before, owner, t) + CrossedBy(AfterPushes(before), history[|history| - 1], owner, t)
  }

  ghost function Missed(history: seq<PushEvent>, owner: Owner, t: int): int
    decreases |history|
  {
    if history == [] then 0
    else
      var before := history[..|history| - 1];
      Missed(before, owner, t) + MissedBy(AfterPushes(before), history[|history| - 1], owner, t)
  }

  /** No request received earlier delivers anything on day t. */
  ghost predicate NoneCross(history: seq<PushEvent>, owner: Owner, t: int) {
    forall n :: 0 <= n < |history| ==> CrossedBy(AfterPushes(history[..n]), history[n], owner, t) == 0
  }

  lemma {:induction false} CrossedAndMissed(history: seq<PushEvent>, owner: Owner, t: int)
    ensures Crossed(history, owner, t) >= 0 && Missed(history, owner, t) >= 0
    decreases |history|
  {
    hide Push, SameOwner, Ceiling, AfterPushes;
    if history != [] { CrossedAndMissed(history[..|history| - 1], owner, t); }
  }

  lemma NoneCrossNext(history: seq<PushEvent>, e: PushEvent, owner: Owner, t: int)
    ensures NoneCross(history + [e], owner, t)
         <==> NoneCross(history, owner, t) && CrossedBy(AfterPushes(history), e, owner, t) == 0
  {
    hide CrossedBy, AfterPushes;
    var more, n := history + [e], |history|;
    assert more[..n] == history && more[n] == e;
    assert forall i :: 0 <= i < n ==> more[..i] == history[..i] && more[i] == history[i];
    if NoneCross(history, owner, t) && CrossedBy(AfterPushes(history), e, owner, t) == 0 {
      forall i | 0 <= i < |more| ensures CrossedBy(AfterPushes(more[..i]), more[i], owner, t) == 0 {
        if i < n { assert CrossedBy(AfterPushes(history[..i]), history[i], owner, t) == 0; }
      }
    }
    if NoneCross(more, owner, t) {
      assert CrossedBy(AfterPushes(more[..n]), more[n], owner, t) == 0;
      forall i | 0 <= i < n ensures CrossedBy(AfterPushes(history[..i]), history[i], owner, t) == 0 {
        assert CrossedBy(AfterPushes(more[..i]), more[i], owner, t) == 0;
      }
    }
  }

  lemma {:induction false} NothingCrossed(history: seq<PushEvent>, owner: Owner, t: int)
    ensures Crossed(history, owner, t) == 0 <==> NoneCross(history, owner, t)
    decreases |history|
  {
    hide Push, SameOwner, Ceiling, AfterPushes, NoneCross;
    if history == [] {
      NoneCrossInNothing(owner, t);
    } else {
      var before, e := history[..|history| - 1], history[|history| - 1];
      assert history == before + [e];
      NothingCrossed(before, owner, t);
      NoneCrossNext(before, e, owner, t);
      CrossedAndMissed(before, owner, t);
    }
  }

  lemma NoneCrossInNothing(owner: Owner, t: int)
    ensures NoneCross([], owner, t)
  {}

  /** The balance of one day: received, and crossing into it, is forwarded, missed or outstanding. */
  lemma {:induction false} DayBalance(history: seq<PushEvent>, owner: Owner, t: int)
    ensures var s := AfterPushes(history);
            && Inv(s.tables)
            && Total(s.tables, owner, Received, On(t)) + Crossed(history, owner, t)
            == Total(s.tables, owner, Forwarded, On(t)) + Missed(history, owner, t)
                + Outstanding(s.pending, owner, On(t))
    decreases |history|
  {
    hide Push, Inv, Outstanding, Total, SameOwner, Ceiling;
    if history == [] {
      PushStart(owner, On(t));
    } else {
      var s, e := AfterPushes(history[..|history| - 1]), history[|history| - 1];
      DayBalance(history[..|history| - 1], owner, t);
      PushTotals(s, e, owner, On(t));
      if Forwards(s, e) { CeilingMonotone(Daily, s.pending[e.key].clock, e.clock); }
    }
  }

  /** A single day shows at most the pushes of requests that crossed into it more forwarded than
      received; it shows no more exactly if those are made up for by what was received that day and
      not delivered that day, in particular if no request crosses into it. */
  lemma OneDay(history: seq<PushEvent>, owner: Owner, t: int)
    ensures var tables := AfterPushes(history).tables;
            var received, forwarded := Total(tables, owner, Received, On(t)), Total(tables, owner, Forwarded, On(t));
            && forwarded <= received + Crossed(history, owner, t)
            && (forwarded <= received <==>
                  Crossed(history, owner, t)
                      <= Missed(history, owner, t) + Outstanding(AfterPushes(history).pending, owner, On(t)))
            && (NoneCross(history, owner, t) ==> forwarded <= received)
  {
    hide AfterPushes, Total, Outstanding, NoneCross;
    DayBalance(history, owner, t);
    CrossedAndMissed(history, owner, t);
    NothingCrossed(history, owner, t);
    OutstandingNonNegative(AfterPushes(history).pending, owner, On(t));
  }

  /** A day that does show more: one request that crosses midnight. */
  lemma OneDayMayViolate()
    ensures var key := Key(1, OfServer(1));
            var tables := AfterPushes([Receive(key, 1, DAY - SECOND), Forward(key, 1, DAY + SECOND)]).tables;
            && Total(tables, OfServer(1), Forwarded, On(2 * DAY)) == 1
            && Total(tables, OfServer(1), Received, On(2 * DAY)) == 0
  {
    hide Total, Outstanding, IncrementCounter, Inv, RemoteHistory.Apply;
    var owner := OfServer(1);
    var key := Key(1, owner);
    var history := [Receive(key, 1, DAY - SECOND), Forward(key, 1, DAY + SECOND)];
    assert history[..1] == [history[0]] && history[..1][..0] == [];
    var s0 := AfterPushes([]);
    var s1 := AfterPushes([history[0]]);
    assert s1 == Push(s0, history[0]);
    assert AfterPushes(history) == Push(s1, history[1]);
    assert Ceiling(Daily, DAY - SECOND) == DAY && Ceiling(Daily, DAY + SECOND) == 2 * DAY;
    PushStart(owner, On(2 * DAY));
    PushTotals(s0, history[0], owner, On(2 * DAY));
    PushTotals(s1, history[1], owner, On(2 * DAY));
  }
}
