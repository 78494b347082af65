/**
 What the ladder's numbers mean, without the functions that compute them: which
 signals a tier takes, when events expire, what a lookup finds, who is notified.
 */
module LadderLaws {
  import opened Common
  import opened TrustContract
  import opened TrustLadder
  import opened LadderRuns
  import opened LadderRaces

  // ----- tiers are independence

  predicate Backs(signals: seq<Signal>, i: int, e: EventId) {
    0 <= i < |signals| && signals[i].event == e && signals[i].source.Some?
  }

  /** Two linked signals come from different sources. */
  ghost predicate TwoSources(signals: seq<Signal>, e: EventId) {
    exists i, j :: Backs(signals, i, e) && Backs(signals, j, e) && signals[i].source != signals[j].source
  }

  ghost predicate ThreeSources(signals: seq<Signal>, e: EventId) {
    exists i, j, k ::
      && Backs(signals, i, e) && Backs(signals, j, e) && Backs(signals, k, e)
      && signals[i].source != signals[j].source && signals[j].source != signals[k].source && signals[i].source != signals[k].source
  }

  /** Two linked signals came over different channels. */
  ghost predicate TwoChannels(signals: seq<Signal>, e: EventId) {
    exists i, j :: 0 <= i < |signals| && 0 <= j < |signals| && signals[i].event == e && signals[j].event == e
                   && signals[i].channel != signals[j].channel
  }

  lemma HasTwo<T>(s: set<T>)
    ensures |s| >= 2 <==> exists a, b :: a in s && b in s && a != b
  {
    if |s| >= 2 {
      var a :| a in s;
      assert |s - {a}| >= 1;
      var b :| b in s - {a};
      assert a in s && b in s && a != b;
    }
    if a, b :| a in s && b in s && a != b {
      SubsetSize({a, b}, s);
    }
  }

  lemma HasThree<T>(s: set<T>)
    ensures |s| >= 3 <==> exists a, b, c :: a in s && b in s && c in s && a != b && b != c && a != c
  {
    if |s| >= 3 {
      var a :| a in s;
      HasTwo(s - {a});
      var b, c :| b in s - {a} && c in s - {a} && b != c;
      assert a in s && b in s && c in s && a != b && b != c && a != c;
    }
    if a, b, c :| a in s && b in s && c in s && a != b && b != c && a != c {
      SubsetSize({a, b, c}, s);
    }
  }

  lemma SourceIsBacked(signals: seq<Signal>, e: EventId, x: string) returns (i: nat)
    requires x in Sources(signals, e)
    ensures Backs(signals, i, e) && signals[i].source == Some(x)
  {
    i :| 0 <= i < |signals| && signals[i].event == e && signals[i].source == Some(x);
  }

  lemma BackingIsSource(signals: seq<Signal>, e: EventId)
    ensures forall i :: Backs(signals, i, e) ==> signals[i].source.value in Sources(signals, e)
  {
    forall i | Backs(signals, i, e)
      ensures signals[i].source.value in Sources(signals, e)
    {
      assert signals[i] in signals;
    }
  }

  lemma TwoAreSignals(signals: seq<Signal>, e: EventId)
    ensures |Sources(signals, e)| >= 2 <==> TwoSources(signals, e)
  {
    var s := Sources(signals, e);
    HasTwo(s);
    BackingIsSource(signals, e);
    hide Sources;
    if a, b :| a in s && b in s && a != b {
      var i := SourceIsBacked(signals, e, a);
      var j := SourceIsBacked(signals, e, b);
    }
    if i, j :| Backs(signals, i, e) && Backs(signals, j, e) && signals[i].source != signals[j].source {
      assert signals[i].source.value in s && signals[j].source.value in s;
    }
  }

  lemma ThreeAreSignals(signals: seq<Signal>, e: EventId)
    ensures |Sources(signals, e)| >= 3 <==> ThreeSources(signals, e)
  {
    var s := Sources(signals, e);
    HasThree(s);
    BackingIsSource(signals, e);
    hide Sources;
    if a, b, c :| a in s && b in s && c in s && a != b && b != c && a != c {
      var i := SourceIsBacked(signals, e, a);
      var j := SourceIsBacked(signals, e, b);
      var k := SourceIsBacked(signals, e, c);
      hide Backs;
      assert ThreeSources(signals, e);
    }
    if ThreeSources(signals, e) {
      var i, j, k :|
        && Backs(signals, i, e) && Backs(signals, j, e) && Backs(signals, k, e)
        && signals[i].source != signals[j].source && signals[j].source != signals[k].source && signals[i].source != signals[k].source;
      assert signals[i].source.value in s && signals[j].source.value in s && signals[k].source.value in s;
    }
  }

  lemma ChannelsAreSignals(signals: seq<Signal>, e: EventId)
    ensures |Channels(signals, e)| >= 2 <==> TwoChannels(signals, e)
  {
    var s := Channels(signals, e);
    HasTwo(s);
    if a, b :| a in s && b in s && a != b {
      var i :| 0 <= i < |signals| && signals[i].event == e && signals[i].channel == a;
      var j :| 0 <= j < |signals| && signals[j].event == e && signals[j].channel == b;
    }
    if i, j :| 0 <= i < |signals| && 0 <= j < |signals| && signals[i].event == e && signals[j].event == e
               && signals[i].channel != signals[j].channel
    {
      assert signals[i] in signals && signals[j] in signals;
      assert signals[i].channel in s && signals[j].channel in s;
    }
  }

  /** Confirmed takes three sources over two channels, corroborating two sources. */
  lemma EvidenceIsIndependence(signals: seq<Signal>, e: EventId)
    ensures Evidence(signals, e) == Confirmed <==> ThreeSources(signals, e) && TwoChannels(signals, e)
    ensures Evidence(signals, e) != Heuristic <==> TwoSources(signals, e)
  {
    TwoAreSignals(signals, e);
    ThreeAreSignals(signals, e);
    ChannelsAreSignals(signals, e);
    hide Sources, Channels, TwoSources, ThreeSources, TwoChannels;
  }

  /** In every run a confirmed event has signals of three sources and of two channels, a corroborating one of two sources. */
  lemma TierMeansIndependence(ms: seq<Move>, n: nat, e: EventId)
    requires n <= |ms| && e in At(ms, n).events
    ensures var s := At(ms, n);
            && (s.events[e].tier == Confirmed ==> ThreeSources(s.signals, e) && TwoChannels(s.signals, e))
            && (s.events[e].tier != Heuristic ==> TwoSources(s.signals, e))
  {
    TierNeverExceedsEvidence(ms, n, e);
    EvidenceIsIndependence(At(ms, n).signals, e);
    hide At, Evidence, TwoSources, ThreeSources, TwoChannels;
  }

  /** And a fresh read and promotion lifts an active event exactly as far as its signals go. */
  lemma FreshPromotionIsIndependence(ms: seq<Move>, n: nat, e: EventId)
    requires n + 1 < |ms| && e in At(ms, n).events && At(ms, n).events[e].active
    requires ms[n] == ReadStats && ms[n + 1] == Promote(Read(e, StatsFor(At(ms, n).signals, e)))
    ensures e in At(ms, n + 2).events
    ensures var s := At(ms, n + 2);
            && (s.events[e].tier == Confirmed <==> ThreeSources(s.signals, e) && TwoChannels(s.signals, e))
            && (s.events[e].tier != Heuristic <==> TwoSources(s.signals, e))
  {
    FreshPromotionIsExact(ms, n, e);
    EvidenceIsIndependence(At(ms, n + 2).signals, e);
    hide At, Evidence, TwoSources, ThreeSources, TwoChannels;
  }

  // ----- what is shown

  /** The signals linked to `e`, by position. */
  function LinkedTo(signals: seq<Signal>, e: EventId): set<nat> {
    set i | 0 <= i < |signals| && signals[i].event == e
  }

  lemma {:induction false} CountIsSize(signals: seq<Signal>, e: EventId)
    ensures CountFor(signals, e) == |LinkedTo(signals, e)|
  {
    if signals != [] {
      var n := |signals| - 1;
      CountIsSize(signals[..n], e);
      assert LinkedTo(signals, e) == LinkedTo(signals[..n], e) + if signals[n].event == e then {n} else {};
    }
  }

  lemma {:induction false} PendingCount(signals: seq<Signal>, e: EventId)
    requires forall i :: 0 <= i < |signals| && signals[i].event == e ==> !signals[i].expired
    ensures CountFor(PendingOnly(signals), e) == CountFor(signals, e)
  {
    if signals != [] {
      var init, last := signals[..|signals| - 1], signals[|signals| - 1];
      PendingCount(init, e);
      if !last.expired {
        assert (PendingOnly(init) + [last])[..|PendingOnly(init)|] == PendingOnly(init);
      }
    }
  }

  /** A fresh promotion shows the numbers of distinct sources, distinct channels and signals of an active event. */
  lemma FreshPromotionShows(s: Ladder, e: EventId)
    requires Inv(s) && e in s.events && s.events[e].active && Read(e, StatsFor(s.signals, e)) in s.seen
    ensures var s' := DoPromote(s, Read(e, StatsFor(s.signals, e)));
            e in s'.events &&
            s'.events[e].shown == Stats(|Sources(s.signals, e)|, |Channels(s.signals, e)|, |LinkedTo(s.signals, e)|)
  {
    hide Matching, DeliveriesFor;
    StatsAgainstEvidence(s.signals, e);
    assert forall i :: 0 <= i < |s.signals| && s.signals[i].event == e ==> s.signals[i] in s.signals;
    PendingCount(s.signals, e);
    CountIsSize(s.signals, e);
    hide Sources, Channels, CountFor, LinkedTo, PendingOnly;
  }

  // ----- expiry

  /** An event is too old for its tier at time `now`. */
  predicate TooOld(e: Event, now: int) {
    (e.tier == Heuristic && e.startedAt + 1800 < now) || (e.tier == Corroborating && e.startedAt + 7200 < now)
  }

  /** Exactly when events expire: when an expiry finds them active and past the limit of their tier; confirmed ones never. */
  lemma ExpiresIffTooOld(ms: seq<Move>, k: nat, e: EventId)
    requires k < |ms| && e in At(ms, k).events
    ensures ExpiresAt(ms, k, e) <==>
            && (ms[k].Expire? || ms[k].ExpireEvents?)
            && At(ms, k).events[e].active && TooOld(At(ms, k).events[e], ms[k].now)
  {
    var s, m := At(ms, k), ms[k];
    hide FindCluster, FreshReads, Matching, DeliveriesFor, Expired;
    if m.Promote? {
      PromoteTiers(s, m.read, e);
    }
    hide DoPromote;
  }

  /** An expiry in one step retires exactly the signals of the events it expires. */
  lemma RetiresIffExpires(ms: seq<Move>, k: nat, i: nat)
    requires k < |ms| && ms[k].Expire? && i < |At(ms, k).signals|
    ensures |At(ms, k + 1).signals| == |At(ms, k).signals|
    ensures var sig, sig' := At(ms, k).signals[i], At(ms, k + 1).signals[i];
            && sig' == sig.(expired := sig'.expired)
            && (sig'.expired <==> sig.expired || ExpiresAt(ms, k, sig.event))
  {
    var s := At(ms, k);
    ReachableInv(ms, k);
    assert s.signals[i] in s.signals;
    assert s.signals[i].event in s.events;
    hide Linked, ReadsBounded, TiersEarned, PushGated, TooOld;
    ExpiresIffTooOld(ms, k, s.signals[i].event);
    StaleIsTooOld(s.events[s.signals[i].event], ms[k].now);
    hide Stale;
  }

  lemma StaleIsTooOld(e: Event, now: int)
    ensures Stale(e, now) <==> e.active && TooOld(e, now)
  {
  }

  // ----- statistics

  /** The pending signals of `e`, by position. */
  function PendingOf(signals: seq<Signal>, e: EventId): set<nat> {
    set i | 0 <= i < |signals| && signals[i].event == e && !signals[i].expired
  }

  lemma {:induction false} PendingOnlyCounts(signals: seq<Signal>, e: EventId)
    ensures CountFor(PendingOnly(signals), e) == |PendingOf(signals, e)|
  {
    if signals != [] {
      var n := |signals| - 1;
      var init, last := signals[..n], signals[n];
      PendingOnlyCounts(init, e);
      if !last.expired {
        assert (PendingOnly(init) + [last])[..|PendingOnly(init)|] == PendingOnly(init);
      }
      assert PendingOf(signals, e) == PendingOf(init, e) + if last.event == e && !last.expired then {n} else {};
    }
  }

  function PendingSources(signals: seq<Signal>, e: EventId): set<string> {
    set i | i in PendingOf(signals, e) && signals[i].source.Some? :: signals[i].source.value
  }

  function PendingChannels(signals: seq<Signal>, e: EventId): set<string> {
    set i | i in PendingOf(signals, e) :: signals[i].channel
  }

  lemma StatsMean(signals: seq<Signal>, e: EventId)
    ensures StatsFor(signals, e) == Stats(|PendingSources(signals, e)|, |PendingChannels(signals, e)|, |PendingOf(signals, e)|)
  {
    PendingOnlyMembers(signals);
    PendingOnlyCounts(signals, e);
    var pending := PendingOnly(signals);
    hide PendingOnly, CountFor;
    assert Sources(pending, e) == PendingSources(signals, e);
    assert Channels(pending, e) == PendingChannels(signals, e);
  }

  lemma FreshIffPending(s: Ladder, r: Read)
    ensures r in FreshReads(s) <==> PendingOf(s.signals, r.event) != {} && r.stats == StatsFor(s.signals, r.event)
  {
    hide StatsFor;
    if i :| i in PendingOf(s.signals, r.event) {
      assert s.signals[i] in s.signals;
    }
    if r in FreshReads(s) {
      var i :| 0 <= i < |s.signals| && !s.signals[i].expired && s.signals[i].event == r.event;
      assert i in PendingOf(s.signals, r.event);
    }
  }

  /** A statistics read has one row per event with a pending signal: the distinct sources, distinct channels and number of those signals. */
  lemma ReadTakes(ms: seq<Move>, k: nat, r: Read)
    requires k < |ms| && ms[k].ReadStats?
    ensures var signals, e := At(ms, k).signals, r.event;
            r in At(ms, k + 1).seen <==>
            || r in At(ms, k).seen
            || (PendingOf(signals, e) != {} &&
                r.stats == Stats(|PendingSources(signals, e)|, |PendingChannels(signals, e)|, |PendingOf(signals, e)|))
  {
    var s := At(ms, k);
    assert At(ms, k + 1).seen == s.seen + FreshReads(s);
    hide At, FreshReads, StatsFor, PendingOf, PendingSources, PendingChannels;
    StatsMean(s.signals, r.event);
    FreshIffPending(s, r);
  }

  // ----- ingest

  /** What a lookup finds was reported of the same cell and kind less than half an hour before, and is pending; it finds the latest such. */
  lemma LookupMeans(signals: seq<Signal>, r: Report, now: int)
    ensures var l := LookupOf(signals, r, now);
            && l.report == r && l.now == now
            && (l.target.None? <==> forall i :: 0 <= i < |signals| ==> !Joinable(signals[i], r, now))
            && (l.target.Some? ==>
                  exists i :: 0 <= i < |signals| && Joinable(signals[i], r, now) && l.target == Some(signals[i].event) &&
                    forall j :: 0 <= j < |signals| && Joinable(signals[j], r, now) ==> signals[j].receivedAt <= signals[i].receivedAt)
  {
    LookupFindsLatest(signals, r.cell, r.kind, now);
    hide FindCluster;
  }

  predicate Joinable(sig: Signal, r: Report, now: int) {
    sig.cell == r.cell && sig.kind == r.kind && !sig.expired && now - sig.receivedAt < 1800
  }

  /** An insert from a lookup that found an event adds the report to it, and one that found none surfaces a heuristic event with it. */
  lemma InsertMeans(s: Ladder, l: Lookup, freshId: EventId)
    requires l in s.looked
    ensures var s' := Next(s, Stage(l, freshId));
            var e := if l.target.Some? then l.target.value else freshId;
            if l.target.Some? != (e in s.events) then s' == s
            else
              && s'.signals == s.signals + [ReportedAs(l.report, l.now, e)]
              && (if l.target.Some? then s'.events == s.events
                  else s'.events == s.events[e := Event(Heuristic, true, l.report.severity, l.report.place, l.report.startedAt, Stats(1, 1, 1))])
  {
  }

  /** The pending signal of a report; one without a channel counts for the channel "unknown". */
  function ReportedAs(r: Report, now: int, e: EventId): Signal {
    Signal(e, r.source, if r.channel.Some? then r.channel.value else "unknown", r.cell, r.kind, now, false)
  }

  // ----- who is notified

  /** A subscription covers an event: it has a centre, the event is severe enough for it and lies in its area. */
  predicate Covers(sub: Subscription, e: Event) {
    sub.hasCenter && sub.minSeverity <= e.severity && e.place in sub.area
  }

  /** Move `k` confirms event `e` while subscription `id` covers it. */
  predicate NotifiesAt(ms: seq<Move>, k: nat, e: EventId, id: SubId)
    requires k < |ms|
  {
    ConfirmsAt(ms, k, e) && id in At(ms, k).subs && Covers(At(ms, k).subs[id], At(ms, k).events[e])
  }

  /**
   Every subscription gets the deliveries it should: one for an event it covered at
   the move that confirmed the event, and none for any other event.
   */
  lemma NotifiedIffCovered(ms: seq<Move>, n: nat, e: EventId, id: SubId)
    requires n <= |ms| && e in At(ms, n).events
    ensures At(ms, n).enqueued[Delivery(e, id)] == if exists k :: 0 <= k < n && NotifiesAt(ms, k, e, id) then 1 else 0
  {
    hide At, NotifiesAt;
    if At(ms, n).events[e].tier == Confirmed {
      var k := ConfirmingMove(ms, n, e, id);
      if j :| 0 <= j < n && NotifiesAt(ms, j, e, id) {
        NotifiesMeansConfirms(ms, j, e, id);
        ConfirmedOnce(ms, j, k, e);
      }
    } else {
      PushExactlyOnce(ms, n, e);
      if j :| 0 <= j < n && NotifiesAt(ms, j, e, id) {
        NotifiesMeansConfirms(ms, j, e, id);
        TierNeverFalls(ms, j + 1, n, e);
      }
    }
  }

  lemma NotifiesMeansConfirms(ms: seq<Move>, k: nat, e: EventId, id: SubId)
    requires k < |ms| && NotifiesAt(ms, k, e, id)
    ensures ConfirmsAt(ms, k, e)
  {
  }

  lemma ConfirmingMove(ms: seq<Move>, n: nat, e: EventId, id: SubId) returns (k: nat)
    requires n <= |ms| && e in At(ms, n).events && At(ms, n).events[e].tier == Confirmed
    ensures k < n && ConfirmsAt(ms, k, e)
    ensures At(ms, n).enqueued[Delivery(e, id)] == if NotifiesAt(ms, k, e, id) then 1 else 0
  {
    hide At;
    PushExactlyOnce(ms, n, e);
    k :| 0 <= k < n && ConfirmsAt(ms, k, e) && EnqueuedExactly(At(ms, n), e, Matching(At(ms, k), e));
    assert id in Matching(At(ms, k), e) <==> NotifiesAt(ms, k, e, id);
  }

  lemma ConfirmQueues(s: Ladder, m: Move, e: EventId, id: SubId)
    requires e in s.events && s.events[e].tier != Confirmed
    requires e in Next(s, m).events && Next(s, m).events[e].tier == Confirmed
    requires id in s.subs && Covers(s.subs[id], s.events[e])
    ensures Delivery(e, id) in Next(s, m).deliveries
  {
    ConfirmIsPromotion(s, m, e);
    hide Decide;
    var updated := s.(events := s.events[e := s.events[e].(tier := Confirmed, shown := m.read.stats)]);
    assert Next(s, m) == Enqueue(updated, e);
    hide Next;
    assert id in Matching(updated, e);
  }

  lemma DeliveryStays(s: Ladder, m: Move, d: Delivery)
    requires d in s.deliveries && !(m.Purge? && d !in m.kept)
    ensures d in Next(s, m).deliveries
  {
    hide Matching, FindCluster, FreshReads, StaleIds;
  }

  /** A delivery is queued by the move that confirms its event, and stays queued until finished deliveries are purged. */
  lemma {:induction false} QueuedUntilPurged(ms: seq<Move>, k: nat, n: nat, e: EventId, id: SubId)
    requires k < n <= |ms| && NotifiesAt(ms, k, e, id)
    requires forall j :: k < j < n ==> !(ms[j].Purge? && Delivery(e, id) !in ms[j].kept)
    ensures Delivery(e, id) in At(ms, n).deliveries
  {
    hide Next, Covers;
    if n == k + 1 {
      ConfirmQueues(At(ms, k), ms[k], e, id);
    } else {
      QueuedUntilPurged(ms, k, n - 1, e, id);
      DeliveryStays(At(ms, n - 1), ms[n - 1], Delivery(e, id));
    }
  }
}
