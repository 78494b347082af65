/**
 The event subscriber and the synthesis worker as they run on the tables. Each
 method performs one move of `TrustLadder` (a tick performs several), so every
 table state is a state of a run.
 */
module LadderWorker {
  import opened Common
  import opened TrustContract
  import opened TrustLadder
  import opened LadderRuns
  import opened LadderRaces

  datatype Promotion = Unchanged | Corroborated | ConfirmedNow

  datatype TickSummary = TickSummary(evaluated: nat, corroborated: nat, confirmed: nat, expired: nat)

  /** The events that have come to stand at `tier`. */
  function Raised(before: map<EventId, Event>, after: map<EventId, Event>, tier: TrustTier): set<EventId> {
    set e | e in before && e in after && before[e].tier != tier && after[e].tier == tier
  }

  /** The events the statistics query has a row for. */
  function PendingEvents(signals: seq<Signal>): set<EventId> {
    set sig | sig in signals && !sig.expired :: sig.event
  }

  lemma NothingRaised(events: map<EventId, Event>)
    ensures forall tier :: Raised(events, events, tier) == {}
  {
  }

  /** Of `before`, the active events in `done` stand at their evidence; the others are as they were. */
  predicate Promoted(before: map<EventId, Event>, after: map<EventId, Event>, signals: seq<Signal>, done: set<EventId>) {
    && after.Keys == before.Keys
    && (forall e :: e in after ==> after[e].active == before[e].active)
    && (forall e :: e in after && e !in done ==> after[e] == before[e])
    && (forall e :: e in after && e in done && after[e].active ==> after[e].tier == Evidence(signals, e))
  }

  lemma PromotedByOne(before: map<EventId, Event>, mid: map<EventId, Event>, after: map<EventId, Event>, signals: seq<Signal>,
                      done: set<EventId>, e: EventId)
    requires Promoted(before, mid, signals, done) && e !in done
    requires after.Keys == mid.Keys && forall x :: x in after && x != e ==> after[x] == mid[x]
    requires e in after ==> after[e].active == mid[e].active && (after[e].active ==> after[e].tier == Evidence(signals, e))
    ensures Promoted(before, after, signals, done + {e})
    ensures forall tier :: |Raised(before, after, tier)| == |Raised(before, mid, tier)| +
              (if e in mid && mid[e].tier != tier && after[e].tier == tier then 1 else 0)
  {
    hide Evidence, Raised;
    forall tier
      ensures |Raised(before, after, tier)| == |Raised(before, mid, tier)| +
                (if e in mid && mid[e].tier != tier && after[e].tier == tier then 1 else 0)
    {
      RaisedByOne(before, mid, after, e, tier);
    }
  }

  lemma RaisedByOne(before: map<EventId, Event>, mid: map<EventId, Event>, after: map<EventId, Event>, e: EventId, tier: TrustTier)
    requires before.Keys == mid.Keys == after.Keys && (e in mid ==> mid[e] == before[e])
    requires forall x :: x in after && x != e ==> after[x] == mid[x]
    ensures |Raised(before, after, tier)| == |Raised(before, mid, tier)| +
              (if e in before && before[e].tier != tier && after[e].tier == tier then 1 else 0)
  {
    var was, now := Raised(before, mid, tier), Raised(before, after, tier);
    assert e !in was;
    if e in now {
      assert now == was + {e};
    } else {
      assert now == was;
    }
  }

  lemma RaisedLooksAtTiers(a: map<EventId, Event>, b: map<EventId, Event>, after: map<EventId, Event>, tier: TrustTier)
    requires a.Keys == b.Keys && forall e :: e in a ==> a[e].tier == b[e].tier
    ensures Raised(a, after, tier) == Raised(b, after, tier)
  {
  }

  lemma {:induction false} AtPrefix(ms: seq<Move>, m: Move, n: nat)
    requires n <= |ms|
    ensures At(ms + [m], n) == At(ms, n)
  {
    hide Next;
    if n > 0 {
      AtPrefix(ms, m, n - 1);
    }
  }

  class Tables {
    var events: map<EventId, Event>
    var signals: seq<Signal>
    var subs: map<SubId, Subscription>
    var deliveries: set<Delivery>
    ghost var seen: set<Read>
    ghost var looked: set<Lookup>
    ghost var enqueued: multiset<Delivery>
    ghost var log: seq<Move>

    ghost function View(): Ladder
      reads this
    {
      Ladder(events, signals, subs, deliveries, seen, looked, enqueued)
    }

    ghost predicate Valid()
      reads this
    {
      View() == At(log, |log|)
    }

    constructor ()
      ensures Valid() && View() == Empty && log == []
    {
      events, signals, subs, deliveries := map[], [], map[], {};
      seen, looked, enqueued, log := {}, {}, multiset{}, [];
    }

    ghost method Record(before: Ladder, m: Move)
      requires before == At(log, |log|) && View() == Next(before, m)
      modifies this`log
      ensures log == old(log) + [m] && Valid()
    {
      hide Next;
      AtPrefix(log, m, |log|);
      log := log + [m];
    }

    /** The first statement of an ingest; anything may happen before the next ones. */
    method LookUpCluster(r: Report, now: int) returns (l: Lookup)
      requires Valid()
      modifies this`looked, this`log
      ensures Valid() && log == old(log) + [LookUp(r, now)] && View() == Next(old(View()), LookUp(r, now))
      ensures l == LookupOf(signals, r, now) && l in looked
    {
      ghost var before := View();
      l := LookupOf(signals, r, now);
      looked := looked + {l};
      Record(before, LookUp(r, now));
    }

    /** The inserts of an ingest, from whatever its lookup found; false if the transaction fails. */
    method StageSignal(l: Lookup, freshId: EventId) returns (ok: bool)
      requires Valid() && l in looked
      modifies this`events, this`signals, this`log
      ensures Valid() && log == old(log) + [Stage(l, freshId)] && View() == Next(old(View()), Stage(l, freshId))
      ensures ok <==> |signals| == |old(signals)| + 1
      ensures ok && l.target.Some? ==> events == old(events) && signals[|old(signals)|].event == l.target.value
      ensures !ok ==> events == old(events) && signals == old(signals)
    {
      ghost var before := View();
      ok := false;
      match l.target {
        case Some(e) =>
          if e in events {
            signals, ok := signals + [Staged(l.report, l.now, e)], true;
          }
        case None =>
          if freshId !in events {
            events := events[freshId := Event(Heuristic, true, l.report.severity, l.report.place, l.report.startedAt, Stats(1, 1, 1))];
            signals, ok := signals + [Staged(l.report, l.now, freshId)], true;
          }
      }
      Record(before, Stage(l, freshId));
    }

    /** An ingest that nothing interrupts joins a dead event exactly when the latest match was left pending on one. */
    method HandleMessage(r: Report, now: int, freshId: EventId) returns (ok: bool)
      requires Valid()
      modifies this
      ensures Valid() && log == old(log) + [LookUp(r, now), Stage(LookupOf(old(signals), r, now), freshId)]
      ensures View() == Next(Next(old(View()), LookUp(r, now)), Stage(LookupOf(old(signals), r, now), freshId))
      ensures Linked(old(View()))
      ensures (exists e :: JoinsDead(old(View()), View(), e)) <==> LatestIsStranded(old(View()), r, now)
    {
      ReachableInv(log, |log|);
      ghost var before := View();
      DeadTargetIffStranded(before, r, now);
      hide LookupOf, Linked, LatestIsStranded, At, ReadsBounded, TiersEarned, PushGated;
      var l := LookUpCluster(r, now);
      ghost var mid := View();
      assert mid == before.(looked := mid.looked);
      ok := StageSignal(l, freshId);
      forall e
        ensures JoinsDead(mid, View(), e) <==> l.target == Some(e) && e in mid.events && !mid.events[e].active
      {
        OnlyStagesJoin(mid, Stage(l, freshId), e);
      }
      hide Next;
      forall e
        ensures JoinsDead(before, View(), e) <==> JoinsDead(mid, View(), e)
      {
      }
      if l.target.Some? && l.target.value in before.events && !before.events[l.target.value].active {
        assert JoinsDead(before, View(), l.target.value);
      }
    }

    /** The first update of an expiry. */
    method DeactivateStale(now: int) returns (ids: set<EventId>)
      requires Valid()
      modifies this`events, this`log
      ensures Valid() && log == old(log) + [ExpireEvents(now)] && View() == Next(old(View()), ExpireEvents(now))
      ensures ids == StaleIds(old(View()), now)
    {
      ghost var before := View();
      ids := set e | e in events && Stale(events[e], now);
      events := Deactivated(events, ids);
      Record(before, ExpireEvents(now));
    }

    /** The second update of an expiry; anything may happen before it. */
    method RetireSignals(ids: set<EventId>)
      requires Valid() && forall e :: e in ids ==> e in events && !events[e].active
      modifies this`signals, this`log
      ensures Valid() && log == old(log) + [ExpireSignals(ids)] && View() == Next(old(View()), ExpireSignals(ids))
      ensures signals == Expired(old(signals), ids)
    {
      ghost var before := View();
      if ids != {} {
        signals := Expired(signals, ids);
      }
      assert signals == Expired(before.signals, ids);
      Record(before, ExpireSignals(ids));
    }

    /** An expiry that nothing interrupts is the one-step expiry. */
    method ExpireStaleEvents(now: int) returns (count: nat)
      requires Valid()
      modifies this
      ensures Valid() && log == old(log) + [ExpireEvents(now), ExpireSignals(StaleIds(old(View()), now))]
      ensures View() == Next(old(View()), Expire(now)) && count == |StaleIds(old(View()), now)|
      ensures events.Keys == old(events).Keys && forall e :: e in events ==> events[e].tier == old(events)[e].tier
    {
      var ids := DeactivateStale(now);
      RetireSignals(ids);
      count := |ids|;
    }

    /** One statistics row per event that has a pending signal. */
    method FetchClusterStats() returns (clusters: map<EventId, Stats>)
      requires Valid()
      modifies this`seen, this`log
      ensures Valid() && log == old(log) + [ReadStats] && View() == Next(old(View()), ReadStats)
      ensures forall e :: e in clusters <==> exists sig :: sig in signals && sig.event == e && !sig.expired
      ensures forall e :: e in clusters ==> clusters[e] == StatsFor(signals, e) && Read(e, clusters[e]) in seen
    {
      ghost var before := View();
      clusters := map[];
      for k := 0 to |signals|
        invariant forall e :: e in clusters <==> exists i :: 0 <= i < k && signals[i].event == e && !signals[i].expired
        invariant forall e :: e in clusters ==> clusters[e] == StatsFor(signals, e)
      {
        if !signals[k].expired {
          clusters := clusters[signals[k].event := StatsFor(signals, signals[k].event)];
        }
      }
      seen := seen + FreshReads(before);
      Record(before, ReadStats);
    }

    /** Promotes one event from statistics read earlier, whatever has happened since. */
    method PromoteCluster(e: EventId, stats: Stats) returns (result: Promotion)
      requires Valid() && Read(e, stats) in seen
      modifies this`events, this`deliveries, this`enqueued, this`log
      ensures Valid() && log == old(log) + [Promote(Read(e, stats))]
      ensures View() == DoPromote(old(View()), Read(e, stats))
      ensures events.Keys == old(events).Keys && forall x :: x in events && x != e ==> events[x] == old(events)[x]
      ensures e in events ==> events[e].active == old(events)[e].active
      ensures result == ConfirmedNow <==> e in old(events) && old(events)[e].tier != Confirmed && events[e].tier == Confirmed
      ensures result == Unchanged <==> e !in old(events) || events[e].tier == old(events)[e].tier
      ensures result == Corroborated <==> e in old(events) && old(events)[e].tier != Corroborating && events[e].tier == Corroborating
      ensures result == ConfirmedNow ==> stats.sources >= 3 && stats.channels >= 2
      ensures result == Corroborated ==> stats.sources >= 2
    {
      hide At, DeliveriesFor;
      ghost var before := View();
      if e !in events || !events[e].active {
        result := Unchanged;
      } else {
        var current := events[e].tier;
        var target := MaxTier(current, Decide(stats.sources, stats.channels));
        events := events[e := events[e].(tier := target, shown := stats)];
        if target == current {
          result := Unchanged;
        } else if ShouldConfirm(current, target) {
          var matching := set id | id in subs && Wants(subs[id], events[e]);
          assert matching == Matching(View(), e);
          var added := DeliveriesFor(e, matching) - deliveries;
          deliveries := deliveries + added;
          enqueued := enqueued + multiset(added);
          result := ConfirmedNow;
        } else {
          result := Corroborated;
        }
      }
      Record(before, Promote(Read(e, stats)));
    }

    /** Promotion from statistics that still describe the signals: the event lands on its evidence. */
    method PromoteFresh(e: EventId, stats: Stats) returns (result: Promotion)
      requires Valid() && stats == StatsFor(signals, e) && Read(e, stats) in seen
      modifies this`events, this`deliveries, this`enqueued, this`log
      ensures Valid()
      ensures events.Keys == old(events).Keys && forall x :: x in events && x != e ==> events[x] == old(events)[x]
      ensures e in events ==> events[e].active == old(events)[e].active
      ensures e in events && events[e].active ==> events[e].tier == Evidence(signals, e)
      ensures result == ConfirmedNow <==> e in old(events) && old(events)[e].tier != Confirmed && events[e].tier == Confirmed
      ensures result == Corroborated <==> e in old(events) && old(events)[e].tier != Corroborating && events[e].tier == Corroborating
    {
      hide StatsFor, Evidence, Inv, DoPromote, Next, At;
      ReachableInv(log, |log|);
      if e in events && events[e].active {
        ExactPromotion(View(), e);
      }
      result := PromoteCluster(e, stats);
    }

    /** The loop of a tick: promotes every cluster of one statistics read. */
    method PromoteAll(clusters: map<EventId, Stats>) returns (corroborated: nat, confirmed: nat)
      requires Valid()
      requires forall e :: e in clusters ==> clusters[e] == StatsFor(signals, e) && Read(e, clusters[e]) in seen
      modifies this`events, this`deliveries, this`enqueued, this`log
      ensures Valid() && events.Keys == old(events).Keys
      ensures forall e :: e in events ==> events[e].active == old(events)[e].active
      ensures forall e :: e in events && e in clusters && events[e].active ==> events[e].tier == Evidence(signals, e)
      ensures corroborated == |Raised(old(events), events, Corroborating)| && confirmed == |Raised(old(events), events, Confirmed)|
    {
      hide StatsFor, Evidence, Next, At, Valid, View, Inv, Linked, Raised;
      ghost var before := events;
      corroborated, confirmed := 0, 0;
      NothingRaised(events);
      var todo := clusters.Keys;
      while todo != {}
        invariant Valid() && todo <= clusters.Keys && Promoted(before, events, signals, clusters.Keys - todo)
        invariant corroborated == |Raised(before, events, Corroborating)| && confirmed == |Raised(before, events, Confirmed)|
        decreases |todo|
      {
        var e :| e in todo;
        ghost var mid, done := events, clusters.Keys - todo;
        var promotion := PromoteFresh(e, clusters[e]);
        corroborated := corroborated + (if promotion == Corroborated then 1 else 0);
        confirmed := confirmed + (if promotion == ConfirmedNow then 1 else 0);
        todo := todo - {e};
        PromotedByOne(before, mid, events, signals, done, e);
        assert clusters.Keys - todo == done + {e};
      }
    }

    /**
     One undisturbed tick: afterwards every active event stands exactly at the tier
     that all signals ever linked to it earn.
     */
    method Tick(now: int) returns (summary: TickSummary)
      requires Valid()
      modifies this
      ensures Valid() && events.Keys == old(events).Keys
      ensures forall e :: e in events && events[e].active ==> events[e].tier == Evidence(signals, e)
      ensures summary.evaluated == |PendingEvents(signals)| && summary.expired == |StaleIds(old(View()), now)|
      ensures summary.corroborated == |Raised(old(events), events, Corroborating)|
      ensures summary.confirmed == |Raised(old(events), events, Confirmed)|
    {
      hide Next, Raised, StaleIds;
      ghost var before := events;
      var expired := ExpireStaleEvents(now);
      var clusters := FetchClusterStats();
      ghost var start := View();
      hide At;
      assert Linked(start) by {
        ReachableInv(log, |log|);
      }
      forall e | e in events && events[e].active
        ensures e in clusters
      {
        ActiveIsSeen(start, e);
      }
      hide Linked, StatsFor, Evidence;
      assert clusters.Keys == PendingEvents(signals);
      hide PendingEvents;
      ghost var mid := events;
      var corroborated, confirmed := PromoteAll(clusters);
      RaisedLooksAtTiers(before, mid, events, Corroborating);
      RaisedLooksAtTiers(before, mid, events, Confirmed);
      summary := TickSummary(|clusters|, corroborated, confirmed, expired);
    }
  }
}
