/**
 The trust ladder for machine events: staged signals, surfaced events, the
 statistics worker replicas have read, subscriptions and enqueued deliveries.
 Moves of any number of replicas interleave freely.
 */
module TrustLadder {
  import opened Common
  import opened TrustContract

  const CLUSTER_WINDOW_SECS := 1800
  const HEURISTIC_TTL_SECS := 1800
  const CORROBORATING_TTL_SECS := 7200

  type EventId = nat
  type SubId = nat

  datatype Signal = Signal(event: EventId, source: Option<string>, channel: string, cell: string, kind: string,
                           receivedAt: int, expired: bool)

  /** The three counts after `startedAt` are the stored display metrics. */
  datatype Event = Event(tier: TrustTier, active: bool, severity: int, place: string, startedAt: int, shown: Stats)

  datatype Stats = Stats(sources: nat, channels: nat, total: nat)

  /** A push subscription; `area` is the set of places its perimeter covers. */
  datatype Subscription = Subscription(hasCenter: bool, minSeverity: int, area: set<string>)

  datatype Delivery = Delivery(event: EventId, sub: SubId)

  /** A statistics row some replica has read and may act on at any later time. */
  datatype Read = Read(event: EventId, stats: Stats)

  /** What an ingest's cluster lookup found; its transaction inserts from it later, with nothing locked in between. */
  datatype Lookup = Lookup(report: Report, now: int, target: Option<EventId>)

  /** `enqueued` is history: every delivery row ever inserted, with multiplicity. */
  datatype Ladder = Ladder(
    events: map<EventId, Event>,
    signals: seq<Signal>,
    subs: map<SubId, Subscription>,
    deliveries: set<Delivery>,
    seen: set<Read>,
    looked: set<Lookup>,
    enqueued: multiset<Delivery>)

  datatype Report = Report(cell: string, kind: string, source: Option<string>, channel: Option<string>,
                           severity: int, place: string, startedAt: int)

  datatype Move =
      /** An ingest: the cluster lookup, and the insert that acts on it at any later time. */
    | LookUp(report: Report, now: int)
    | Stage(lookup: Lookup, freshId: EventId)
      /** The two updates of one expiry as one step, */
    | Expire(now: int)
      /** or as the two separate statements they are. */
    | ExpireEvents(now: int)
    | ExpireSignals(ids: set<EventId>)
    | ReadStats
    | Promote(read: Read)
      /** Subscriptions come and go, and finished deliveries are purged. */
    | Resubscribe(subs: map<SubId, Subscription>)
    | Purge(kept: set<Delivery>)

  // ----- evidence

  /** Distinct non-null sources among the signals linked to `e`. */
  function Sources(signals: seq<Signal>, e: EventId): set<string> {
    set sig | sig in signals && sig.event == e && sig.source.Some? :: sig.source.value
  }

  function Channels(signals: seq<Signal>, e: EventId): set<string> {
    set sig | sig in signals && sig.event == e :: sig.channel
  }

  function PendingOnly(signals: seq<Signal>): seq<Signal> {
    if signals == [] then []
    else
      var init, last := signals[..|signals| - 1], signals[|signals| - 1];
      if last.expired then PendingOnly(init) else PendingOnly(init) + [last]
  }

  function CountFor(signals: seq<Signal>, e: EventId): nat {
    if signals == [] then 0
    else CountFor(signals[..|signals| - 1], e) + if signals[|signals| - 1].event == e then 1 else 0
  }

  /** The tier of `e` computed from scratch from every signal ever linked to it. */
  function Evidence(signals: seq<Signal>, e: EventId): TrustTier {
    Decide(|Sources(signals, e)|, |Channels(signals, e)|)
  }

  /** One row of the statistics query, which looks at pending signals only. */
  function StatsFor(signals: seq<Signal>, e: EventId): Stats {
    var pending := PendingOnly(signals);
    Stats(|Sources(pending, e)|, |Channels(pending, e)|, CountFor(pending, e))
  }

  // ----- moves

  predicate Matches(sig: Signal, cell: string, kind: string, now: int) {
    sig.cell == cell && sig.kind == kind && !sig.expired && sig.receivedAt > now - CLUSTER_WINDOW_SECS
  }

  /** The most recently received match; among equally recent ones the last staged. */
  function FindCluster(signals: seq<Signal>, cell: string, kind: string, now: int): Option<Signal> {
    if signals == [] then None
    else
      var earlier := FindCluster(signals[..|signals| - 1], cell, kind, now);
      var last := signals[|signals| - 1];
      if Matches(last, cell, kind, now) && (earlier.None? || earlier.value.receivedAt <= last.receivedAt)
      then Some(last) else earlier
  }

  function ChannelOrUnknown(channel: Option<string>): string {
    match channel case Some(c) => c case None => "unknown"
  }

  function Staged(r: Report, now: int, e: EventId): Signal {
    Signal(e, r.source, ChannelOrUnknown(r.channel), r.cell, r.kind, now, false)
  }

  function LookupOf(signals: seq<Signal>, r: Report, now: int): Lookup {
    Lookup(r, now, match FindCluster(signals, r.cell, r.kind, now) case Some(sig) => Some(sig.event) case None => None)
  }

  /**
   The insert of `handle_message`: stage the signal on the event found, or surface a
   new heuristic event. The signal is received when the transaction began.
   */
  function DoStage(s: Ladder, l: Lookup, freshId: EventId): Ladder {
    if l !in s.looked then s
    else
      match l.target
      case Some(e) => if e in s.events then s.(signals := s.signals + [Staged(l.report, l.now, e)]) else s
      case None => if freshId in s.events then s else Surfaced(s, l.report, l.now, freshId)
  }

  function Surfaced(s: Ladder, r: Report, now: int, e: EventId): Ladder {
    var event := Event(Heuristic, true, r.severity, r.place, r.startedAt, Stats(1, 1, 1));
    s.(events := s.events[e := event], signals := s.signals + [Staged(r, now, e)])
  }

  predicate Stale(e: Event, now: int) {
    && e.active
    && match e.tier
       case Heuristic => e.startedAt < now - HEURISTIC_TTL_SECS
       case Corroborating => e.startedAt < now - CORROBORATING_TTL_SECS
       case Confirmed => false
  }

  function StaleIds(s: Ladder, now: int): set<EventId> {
    set e | e in s.events && Stale(s.events[e], now)
  }

  function Deactivated(events: map<EventId, Event>, ids: set<EventId>): map<EventId, Event> {
    map e | e in events :: if e in ids then events[e].(active := false) else events[e]
  }

  function Expired(signals: seq<Signal>, ids: set<EventId>): seq<Signal> {
    seq(|signals|, i requires 0 <= i < |signals| =>
      if signals[i].event in ids then signals[i].(expired := true) else signals[i])
  }

  function FreshReads(s: Ladder): set<Read> {
    set sig | sig in s.signals && !sig.expired :: Read(sig.event, StatsFor(s.signals, sig.event))
  }

  predicate Wants(sub: Subscription, e: Event) {
    sub.hasCenter && e.severity >= sub.minSeverity && e.place in sub.area
  }

  /** The subscriptions matching event `e` right now. */
  function Matching(s: Ladder, e: EventId): set<SubId>
    requires e in s.events
  {
    set id | id in s.subs && Wants(s.subs[id], s.events[e])
  }

  function DeliveriesFor(e: EventId, subs: set<SubId>): set<Delivery> {
    set id | id in subs :: Delivery(e, id)
  }

  /** `INSERT ... ON CONFLICT DO NOTHING` of one delivery per matching subscription. */
  function Enqueue(s: Ladder, e: EventId): Ladder
    requires e in s.events
  {
    var added := DeliveriesFor(e, Matching(s, e)) - s.deliveries;
    s.(deliveries := s.deliveries + added, enqueued := s.enqueued + multiset(added))
  }

  predicate ShouldConfirm(previous: TrustTier, target: TrustTier) {
    Rank(previous) < Rank(Confirmed) && target == Confirmed
  }

  /** `promote_cluster` in its own transaction, acting on statistics read earlier. */
  function DoPromote(s: Ladder, read: Read): Ladder {
    var e := read.event;
    if read !in s.seen || e !in s.events || !s.events[e].active then s
    else
      var current := s.events[e].tier;
      var target := MaxTier(current, Decide(read.stats.sources, read.stats.channels));
      var updated := s.(events := s.events[e := s.events[e].(tier := target, shown := read.stats)]);
      if ShouldConfirm(current, target) then Enqueue(updated, e) else updated
  }

  function Next(s: Ladder, m: Move): Ladder {
    match m
    case LookUp(r, now) => s.(looked := s.looked + {LookupOf(s.signals, r, now)})
    case Stage(l, freshId) => DoStage(s, l, freshId)
    case Expire(now) =>
      var ids := StaleIds(s, now);
      s.(events := Deactivated(s.events, ids), signals := Expired(s.signals, ids))
    case ExpireEvents(now) => s.(events := Deactivated(s.events, StaleIds(s, now)))
    case ExpireSignals(ids) =>
      if forall e :: e in ids ==> e in s.events && !s.events[e].active
      then s.(signals := Expired(s.signals, ids)) else s
    case ReadStats => s.(seen := s.seen + FreshReads(s))
    case Promote(read) => DoPromote(s, read)
    case Resubscribe(subs) => s.(subs := subs)
    case Purge(kept) => s.(deliveries := s.deliveries * kept)
  }

  const Empty := Ladder(map[], [], map[], {}, {}, {}, multiset{})

  /** The tables after the first `n` moves; every sequence of moves is a run. */
  function At(ms: seq<Move>, n: nat): Ladder
    requires n <= |ms|
  {
    if n == 0 then Empty else Next(At(ms, n - 1), ms[n - 1])
  }
}
