/**
 What holds over every interleaving of ingests, expiries, statistics reads and
 promotions by any number of worker replicas.
 */
module LadderRuns {
  import opened Common
  import opened TrustContract
  import opened TrustLadder

  // ----- evidence only grows

  predicate Extends(a: seq<Signal>, b: seq<Signal>) {
    |a| <= |b| && forall i :: 0 <= i < |a| ==> b[i] == a[i].(expired := b[i].expired)
  }

  lemma EvidenceGrows(a: seq<Signal>, b: seq<Signal>, e: EventId)
    requires Extends(a, b)
    ensures Sources(a, e) <= Sources(b, e) && Channels(a, e) <= Channels(b, e)
    ensures |Sources(a, e)| <= |Sources(b, e)| && |Channels(a, e)| <= |Channels(b, e)|
  {
    forall x | x in Sources(a, e)
      ensures x in Sources(b, e)
    {
      var i :| 0 <= i < |a| && a[i].event == e && a[i].source == Some(x);
      assert b[i] in b;
    }
    forall x | x in Channels(a, e)
      ensures x in Channels(b, e)
    {
      var i :| 0 <= i < |a| && a[i].event == e && a[i].channel == x;
      assert b[i] in b;
    }
    SubsetSize(Sources(a, e), Sources(b, e));
    SubsetSize(Channels(a, e), Channels(b, e));
  }

  lemma {:induction false} PendingOnlyMembers(signals: seq<Signal>)
    ensures forall sig :: sig in PendingOnly(signals) <==> sig in signals && !sig.expired
  {
    if signals != [] {
      PendingOnlyMembers(signals[..|signals| - 1]);
      assert signals == signals[..|signals| - 1] + [signals[|signals| - 1]];
    }
  }

  /** The statistics query sees part of the evidence, and all of it when no signal of the event has expired. */
  lemma StatsAgainstEvidence(signals: seq<Signal>, e: EventId)
    ensures StatsFor(signals, e).sources <= |Sources(signals, e)|
    ensures StatsFor(signals, e).channels <= |Channels(signals, e)|
    ensures (forall sig :: sig in signals && sig.event == e ==> !sig.expired) ==>
              StatsFor(signals, e).sources == |Sources(signals, e)| &&
              StatsFor(signals, e).channels == |Channels(signals, e)|
  {
    var pending := PendingOnly(signals);
    PendingOnlyMembers(signals);
    SubsetSize(Sources(pending, e), Sources(signals, e));
    SubsetSize(Channels(pending, e), Channels(signals, e));
    if forall sig :: sig in signals && sig.event == e ==> !sig.expired {
      assert Sources(pending, e) == Sources(signals, e);
      assert Channels(pending, e) == Channels(signals, e);
    }
  }

  lemma {:induction false} ClusterIsStaged(signals: seq<Signal>, cell: string, kind: string, now: int)
    ensures var found := FindCluster(signals, cell, kind, now);
            found.Some? ==> found.value in signals && Matches(found.value, cell, kind, now)
  {
    if signals != [] {
      ClusterIsStaged(signals[..|signals| - 1], cell, kind, now);
      assert signals == signals[..|signals| - 1] + [signals[|signals| - 1]];
    }
  }

  // ----- the invariant

  /** Signals and events refer to each other, and the signals of an active event are all pending. */
  predicate Linked(s: Ladder) {
    && (forall sig :: sig in s.signals ==> sig.event in s.events)
    && (forall sig :: sig in s.signals && s.events[sig.event].active ==> !sig.expired)
    && (forall e :: e in s.events ==> exists sig :: sig in s.signals && sig.event == e)
    && (forall e :: e in s.events && s.events[e].tier == Confirmed ==> s.events[e].active)
  }

  /** Statistics in flight, however old, never exceed the evidence there is by now. */
  predicate ReadsBounded(s: Ladder) {
    forall r :: r in s.seen ==>
      r.stats.sources <= |Sources(s.signals, r.event)| && r.stats.channels <= |Channels(s.signals, r.event)|
  }

  predicate TiersEarned(s: Ladder) {
    forall e :: e in s.events ==> Rank(s.events[e].tier) <= Rank(Evidence(s.signals, e))
  }

  /** Nothing is ever enqueued for an event below confirmed, and delivery rows come from enqueuing. */
  predicate PushGated(s: Ladder) {
    && (forall d :: d in s.enqueued ==> d.event in s.events && s.events[d.event].tier == Confirmed)
    && (forall d :: d in s.deliveries ==> d in s.enqueued)
  }

  predicate Inv(s: Ladder) {
    Linked(s) && ReadsBounded(s) && TiersEarned(s) && PushGated(s)
  }

  lemma MovesExtend(s: Ladder, m: Move)
    ensures Extends(s.signals, Next(s, m).signals)
  {
  }

  lemma DeactivationKeepsTiers(s: Ladder, ids: set<EventId>, e: EventId)
    ensures Deactivated(s.events, ids).Keys == s.events.Keys
    ensures e in s.events ==>
              var after := Deactivated(s.events, ids)[e];
              after.tier == s.events[e].tier && (after.active ==> s.events[e].active)
  {
  }

  lemma PromoteTiers(s: Ladder, read: Read, e: EventId)
    ensures DoPromote(s, read).events.Keys == s.events.Keys
    ensures e in s.events ==>
              var after := DoPromote(s, read).events[e];
              && after.active == s.events[e].active
              && Rank(after.tier) >= Rank(s.events[e].tier)
              && (|| after.tier == s.events[e].tier
                  || (read in s.seen && read.event == e && after.tier == Decide(read.stats.sources, read.stats.channels)))
  {
    hide Matching;
  }

  /** Tiers never fall, and events never disappear or come back to life. */
  lemma TiersClimb(s: Ladder, m: Move, e: EventId)
    requires e in s.events
    ensures e in Next(s, m).events
    ensures Rank(s.events[e].tier) <= Rank(Next(s, m).events[e].tier)
    ensures Next(s, m).events[e].active ==> s.events[e].active
  {
    hide DoPromote, FreshReads, Expired, Deactivated, FindCluster;
    match m
    case Promote(read) => PromoteTiers(s, read, e);
    case Expire(now) => DeactivationKeepsTiers(s, StaleIds(s, now), e);
    case ExpireEvents(now) => DeactivationKeepsTiers(s, StaleIds(s, now), e);
    case _ =>
  }

  lemma StageKeepsLinked(s: Ladder, l: Lookup, freshId: EventId)
    requires Linked(s)
    ensures Linked(DoStage(s, l, freshId))
  {
    if DoStage(s, l, freshId) != s {
      match l.target
      case Some(e) => StagingKeepsLinked(s, Staged(l.report, l.now, e));
      case None => SurfacingKeepsLinked(s, l.report, l.now, freshId);
    }
  }

  lemma StagingKeepsLinked(s: Ladder, sig: Signal)
    requires Linked(s) && sig.event in s.events && !sig.expired
    ensures Linked(s.(signals := s.signals + [sig]))
  {
    assert forall x :: x in s.signals + [sig] <==> x in s.signals || x == sig;
  }

  lemma SurfacingKeepsLinked(s: Ladder, r: Report, now: int, e: EventId)
    requires Linked(s) && e !in s.events
    ensures Linked(Surfaced(s, r, now, e))
  {
    var sig := Staged(r, now, e);
    assert forall x :: x in s.signals + [sig] <==> x in s.signals || x == sig;
    assert sig in s.signals + [sig];
  }

  lemma ExpiryKeepsLinked(s: Ladder, s': Ladder, dead: set<EventId>, ids: set<EventId>)
    requires Linked(s)
    requires s'.events == Deactivated(s.events, dead) && s'.signals == Expired(s.signals, ids)
    requires forall e :: e in dead ==> e in s.events && s.events[e].tier != Confirmed
    requires forall e :: e in ids ==> e in s.events && !s'.events[e].active
    ensures Linked(s')
  {
    forall e | e in s'.events
      ensures exists sig :: sig in s'.signals && sig.event == e
    {
      var i :| 0 <= i < |s.signals| && s.signals[i].event == e;
      assert s'.signals[i].event == e;
    }
  }

  lemma PromoteKeepsLinked(s: Ladder, read: Read)
    requires Linked(s)
    ensures Linked(DoPromote(s, read))
  {
    hide Matching, DeliveriesFor, Decide;
  }

  lemma LinkedIsOfTables(s: Ladder, s': Ladder)
    requires Linked(s) && s'.events == s.events && s'.signals == s.signals
    ensures Linked(s')
  {
  }

  lemma MoveKeepsLinked(s: Ladder, m: Move)
    requires Linked(s)
    ensures Linked(Next(s, m))
  {
    hide Linked, DoPromote, DoStage, FreshReads, FindCluster;
    match m
    case Promote(read) => PromoteKeepsLinked(s, read);
    case Stage(l, freshId) => StageKeepsLinked(s, l, freshId);
    case Expire(now) => ExpiryKeepsLinked(s, Next(s, m), StaleIds(s, now), StaleIds(s, now));
    case ExpireEvents(now) =>
      assert Expired(s.signals, {}) == s.signals;
      ExpiryKeepsLinked(s, Next(s, m), StaleIds(s, now), {});
    case ExpireSignals(ids) =>
      if Next(s, m) != s {
        assert Deactivated(s.events, {}) == s.events;
        ExpiryKeepsLinked(s, Next(s, m), {}, ids);
      }
    case _ => LinkedIsOfTables(s, Next(s, m));
  }

  lemma ReadOrigin(s: Ladder, m: Move, r: Read)
    requires r in Next(s, m).seen
    ensures r in s.seen || r.stats == StatsFor(s.signals, r.event)
  {
  }

  lemma MoveKeepsReadsBounded(s: Ladder, m: Move)
    requires ReadsBounded(s)
    ensures ReadsBounded(Next(s, m))
  {
    hide Next;
    var s' := Next(s, m);
    MovesExtend(s, m);
    forall r | r in s'.seen
      ensures r.stats.sources <= |Sources(s'.signals, r.event)| && r.stats.channels <= |Channels(s'.signals, r.event)|
    {
      ReadOrigin(s, m, r);
      EvidenceGrows(s.signals, s'.signals, r.event);
      StatsAgainstEvidence(s.signals, r.event);
    }
  }

  /** A tier after a move is the one before, heuristic, or the decision on statistics in flight. */
  lemma TierOrigin(s: Ladder, m: Move, e: EventId)
    requires e in Next(s, m).events
    ensures var tier := Next(s, m).events[e].tier;
            || tier == Heuristic
            || (e in s.events && tier == s.events[e].tier)
            || (exists r :: r in s.seen && r.event == e && tier == Decide(r.stats.sources, r.stats.channels))
  {
    hide DoPromote, FreshReads, Expired, Deactivated, FindCluster;
    match m
    case Promote(read) => PromoteTiers(s, read, e);
    case Expire(now) => DeactivationKeepsTiers(s, StaleIds(s, now), e);
    case ExpireEvents(now) => DeactivationKeepsTiers(s, StaleIds(s, now), e);
    case _ =>
  }

  lemma MoveKeepsTiersEarned(s: Ladder, m: Move)
    requires ReadsBounded(s) && TiersEarned(s)
    ensures TiersEarned(Next(s, m))
  {
    hide Next;
    var s' := Next(s, m);
    MovesExtend(s, m);
    forall e | e in s'.events
      ensures Rank(s'.events[e].tier) <= Rank(Evidence(s'.signals, e))
    {
      EvidenceGrows(s.signals, s'.signals, e);
      TierOrigin(s, m, e);
      DecideMonotone(|Sources(s.signals, e)|, |Channels(s.signals, e)|, |Sources(s'.signals, e)|, |Channels(s'.signals, e)|);
      if r :| r in s.seen && r.event == e && s'.events[e].tier == Decide(r.stats.sources, r.stats.channels) {
        DecideMonotone(r.stats.sources, r.stats.channels, |Sources(s.signals, e)|, |Channels(s.signals, e)|);
      }
    }
  }

  lemma EnqueueKeepsPushGated(s: Ladder, e: EventId)
    requires PushGated(s) && e in s.events && s.events[e].tier == Confirmed
    ensures PushGated(Enqueue(s, e))
  {
  }

  lemma PromoteKeepsPushGated(s: Ladder, read: Read)
    requires PushGated(s)
    ensures PushGated(DoPromote(s, read))
  {
    if DoPromote(s, read) != s {
      var e := read.event;
      var target := MaxTier(s.events[e].tier, Decide(read.stats.sources, read.stats.channels));
      var updated := s.(events := s.events[e := s.events[e].(tier := target, shown := read.stats)]);
      assert PushGated(updated);
      if ShouldConfirm(s.events[e].tier, target) {
        EnqueueKeepsPushGated(updated, e);
      }
    }
  }

  lemma MoveKeepsPushGated(s: Ladder, m: Move)
    requires PushGated(s)
    ensures PushGated(Next(s, m))
  {
    match m
    case Promote(read) => PromoteKeepsPushGated(s, read);
    case _ =>
  }

  /** Every reachable state satisfies the invariant. */
  lemma {:induction false} ReachableInv(ms: seq<Move>, n: nat)
    requires n <= |ms|
    ensures Inv(At(ms, n))
  {
    hide Next;
    if n > 0 {
      ReachableInv(ms, n - 1);
      var s, m := At(ms, n - 1), ms[n - 1];
      MoveKeepsLinked(s, m);
      MoveKeepsReadsBounded(s, m);
      MoveKeepsTiersEarned(s, m);
      MoveKeepsPushGated(s, m);
    }
  }

  // ----- the theorems

  /** Along a run an event's stored tier never falls, and an expired event stays expired. */
  lemma {:induction false} TierNeverFalls(ms: seq<Move>, i: nat, j: nat, e: EventId)
    requires i <= j <= |ms| && e in At(ms, i).events
    ensures e in At(ms, j).events
    ensures Rank(At(ms, i).events[e].tier) <= Rank(At(ms, j).events[e].tier)
    ensures At(ms, j).events[e].active ==> At(ms, i).events[e].active
  {
    hide Next;
    if i < j {
      TierNeverFalls(ms, i, j - 1, e);
      TiersClimb(At(ms, j - 1), ms[j - 1], e);
    }
  }

  /**
   Whatever stale statistics the replicas promote from, an event's stored tier
   never exceeds the decision on the distinct sources and channels of all signals
   ever linked to it.
   */
  lemma TierNeverExceedsEvidence(ms: seq<Move>, n: nat, e: EventId)
    requires n <= |ms| && e in At(ms, n).events
    ensures Rank(At(ms, n).events[e].tier) <= Rank(Evidence(At(ms, n).signals, e))
  {
    ReachableInv(ms, n);
  }

  /** A repeated signal (known source or none, known channel) leaves the evidence of every event as it was. */
  lemma DuplicatesAreNoEvidence(s: Ladder, sig: Signal, e: EventId)
    requires sig.source.Some? ==> sig.source.value in Sources(s.signals, sig.event)
    requires sig.channel in Channels(s.signals, sig.event)
    ensures Evidence(s.signals + [sig], e) == Evidence(s.signals, e)
  {
    assert Sources(s.signals + [sig], e) == Sources(s.signals, e);
    assert Channels(s.signals + [sig], e) == Channels(s.signals, e);
  }

  /** Promoting an active event from statistics that are still fresh lands exactly on its evidence. */
  lemma ExactPromotion(s: Ladder, e: EventId)
    requires Inv(s) && e in s.events && s.events[e].active && Read(e, StatsFor(s.signals, e)) in s.seen
    ensures var s' := DoPromote(s, Read(e, StatsFor(s.signals, e)));
            && s'.signals == s.signals
            && s'.events == s.events[e := s'.events[e]]
            && s'.events[e].active && s'.events[e].tier == Evidence(s.signals, e)
  {
    hide Matching, PushGated, ReadsBounded;
    assert Rank(s.events[e].tier) <= Rank(Evidence(s.signals, e));
    StatsAgainstEvidence(s.signals, e);
    hide Linked, TiersEarned, StatsFor;
  }

  /** Every active event has a pending signal, so the statistics query finds it. */
  lemma ActiveIsSeen(s: Ladder, e: EventId)
    requires Linked(s) && e in s.events && s.events[e].active
    ensures exists sig :: sig in s.signals && sig.event == e && !sig.expired
  {
    var sig :| sig in s.signals && sig.event == e;
  }

  /**
   Incremental promotion agrees with recomputation: after promoting an active
   event from statistics read in the state just before, its tier is the decision
   on all signals ever linked to it.
   */
  lemma FreshPromotionIsExact(ms: seq<Move>, n: nat, e: EventId)
    requires n + 1 < |ms| && e in At(ms, n).events && At(ms, n).events[e].active
    requires ms[n] == ReadStats && ms[n + 1] == Promote(Read(e, StatsFor(At(ms, n).signals, e)))
    ensures e in At(ms, n + 2).events && At(ms, n + 2).events[e].tier == Evidence(At(ms, n + 2).signals, e)
  {
    hide DoPromote, Sources, Channels, PendingOnly, ReadsBounded, TiersEarned, PushGated;
    var s := At(ms, n);
    ReachableInv(ms, n);
    ReachableInv(ms, n + 1);
    ActiveIsSeen(s, e);
    hide Linked;
    assert At(ms, n + 1) == Next(s, ReadStats);
    assert Read(e, StatsFor(s.signals, e)) in FreshReads(s);
    ExactPromotion(At(ms, n + 1), e);
  }

  // ----- push deliveries are enqueued exactly once

  /** Move `k` takes event `e` into confirmed. */
  predicate ConfirmsAt(ms: seq<Move>, k: nat, e: EventId)
    requires k < |ms|
  {
    && e in At(ms, k).events && At(ms, k).events[e].tier != Confirmed
    && e in At(ms, k + 1).events && At(ms, k + 1).events[e].tier == Confirmed
  }

  /** The deliveries enqueued so far for `e` are one per subscription in `subs` and no others. */
  ghost predicate EnqueuedExactly(s: Ladder, e: EventId, subs: set<SubId>) {
    forall id: SubId :: s.enqueued[Delivery(e, id)] == if id in subs then 1 else 0
  }

  lemma EnqueueIsExact(s: Ladder, e: EventId)
    requires e in s.events
    requires forall d :: d in s.enqueued || d in s.deliveries ==> d.event != e
    ensures EnqueuedExactly(Enqueue(s, e), e, Matching(s, e))
  {
    var batch := DeliveriesFor(e, Matching(s, e));
    forall id: SubId
      ensures Enqueue(s, e).enqueued[Delivery(e, id)] == if id in Matching(s, e) then 1 else 0
    {
      assert Delivery(e, id) in batch <==> id in Matching(s, e);
      assert Delivery(e, id) !in s.enqueued;
    }
  }

  /** A move into confirmed is a promotion of that event, and enqueues one delivery per matching subscription. */
  lemma ConfirmEnqueuesMatching(s: Ladder, m: Move, e: EventId)
    requires PushGated(s) && e in s.events && s.events[e].tier != Confirmed
    requires e in Next(s, m).events && Next(s, m).events[e].tier == Confirmed
    ensures EnqueuedExactly(Next(s, m), e, Matching(s, e))
  {
    ConfirmIsPromotion(s, m, e);
    var updated := s.(events := s.events[e := s.events[e].(tier := Confirmed, shown := m.read.stats)]);
    assert Next(s, m) == Enqueue(updated, e);
    hide Next;
    EnqueueIsExact(updated, e);
    assert Matching(updated, e) == Matching(s, e);
  }

  lemma ConfirmIsPromotion(s: Ladder, m: Move, e: EventId)
    requires e in s.events && s.events[e].tier != Confirmed
    requires e in Next(s, m).events && Next(s, m).events[e].tier == Confirmed
    ensures m.Promote? && m.read.event == e
  {
    hide DoPromote, FreshReads, Expired, Deactivated, FindCluster;
    match m
    case Promote(read) => PromoteTiers(s, read, e);
    case Expire(now) => DeactivationKeepsTiers(s, StaleIds(s, now), e);
    case ExpireEvents(now) => DeactivationKeepsTiers(s, StaleIds(s, now), e);
    case _ =>
  }

  /** Any other move leaves the enqueued deliveries of `e` alone. */
  lemma OtherMovesEnqueueNothing(s: Ladder, m: Move, e: EventId)
    requires e in s.events && (s.events[e].tier == Confirmed || Next(s, m).events[e].tier != Confirmed)
    ensures forall id: SubId :: Next(s, m).enqueued[Delivery(e, id)] == s.enqueued[Delivery(e, id)]
  {
    if m.Promote? && Next(s, m).enqueued != s.enqueued {
      assert m.read.event != e;
    }
  }

  /** Events surface as heuristic. */
  lemma EventsSurfaceHeuristic(s: Ladder, m: Move, e: EventId)
    requires e !in s.events && e in Next(s, m).events
    ensures Next(s, m).events[e].tier == Heuristic
  {
  }

  /**
   Deliveries of a machine event are enqueued exactly once across all replicas and
   runs. Below confirmed there are none; a confirmed event was confirmed by exactly
   one move, and ever since holds one delivery per subscription matching at that move.
   */
  lemma {:induction false} PushExactlyOnce(ms: seq<Move>, n: nat, e: EventId)
    requires n <= |ms| && e in At(ms, n).events
    ensures At(ms, n).events[e].tier != Confirmed ==> EnqueuedExactly(At(ms, n), e, {})
    ensures At(ms, n).events[e].tier == Confirmed ==>
              exists k :: 0 <= k < n && ConfirmsAt(ms, k, e) && EnqueuedExactly(At(ms, n), e, Matching(At(ms, k), e))
  {
    hide Next, Matching, Linked, ReadsBounded, TiersEarned;
    ReachableInv(ms, n);
    if At(ms, n).events[e].tier == Confirmed {
      var s, m := At(ms, n - 1), ms[n - 1];
      assert At(ms, n) == Next(s, m);
      ReachableInv(ms, n - 1);
      if e !in s.events {
        EventsSurfaceHeuristic(s, m, e);
      } else if s.events[e].tier == Confirmed {
        PushExactlyOnce(ms, n - 1, e);
        OtherMovesEnqueueNothing(s, m, e);
      } else {
        assert ConfirmsAt(ms, n - 1, e);
        ConfirmEnqueuesMatching(s, m, e);
      }
    }
  }

  /** The confirming move is unique. */
  lemma ConfirmedOnce(ms: seq<Move>, i: nat, j: nat, e: EventId)
    requires i < |ms| && j < |ms| && ConfirmsAt(ms, i, e) && ConfirmsAt(ms, j, e)
    ensures i == j
  {
    hide Next;
    if i < j {
      TierNeverFalls(ms, i + 1, j, e);
    } else if j < i {
      TierNeverFalls(ms, j + 1, i, e);
    }
  }
}
