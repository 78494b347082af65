/**
 When a signal joins an event that has expired. Neither the two updates of an
 expiry nor the lookup and the insert of an ingest exclude other transactions, so
 both are moves of their own.
 */
module LadderRaces {
  import opened Common
  import opened TrustContract
  import opened TrustLadder
  import opened LadderRuns

  // ----- the lookup

  /** Signal `i` is the most recently received match; among equally recent ones the last staged. */
  predicate LatestMatch(signals: seq<Signal>, i: nat, cell: string, kind: string, now: int) {
    && i < |signals| && Matches(signals[i], cell, kind, now)
    && forall j :: 0 <= j < |signals| && Matches(signals[j], cell, kind, now) ==>
         signals[j].receivedAt < signals[i].receivedAt || (signals[j].receivedAt == signals[i].receivedAt && j <= i)
  }

  /** The cluster lookup finds the latest match, if anything matches. */
  lemma {:induction false} LookupFindsLatest(signals: seq<Signal>, cell: string, kind: string, now: int)
    ensures var found := FindCluster(signals, cell, kind, now);
            && (found.None? ==> forall j :: 0 <= j < |signals| ==> !Matches(signals[j], cell, kind, now))
            && (found.Some? ==> exists i: nat :: LatestMatch(signals, i, cell, kind, now) && signals[i] == found.value)
  {
    hide Matches;
    if signals != [] {
      var n := |signals| - 1;
      var init, last := signals[..n], signals[n];
      LookupFindsLatest(init, cell, kind, now);
      assert forall j :: 0 <= j < n ==> init[j] == signals[j];
      var earlier := FindCluster(init, cell, kind, now);
      if Matches(last, cell, kind, now) && (earlier.None? || earlier.value.receivedAt <= last.receivedAt) {
        assert LatestMatch(signals, n, cell, kind, now);
      } else if earlier.Some? {
        var i: nat :| LatestMatch(init, i, cell, kind, now) && init[i] == earlier.value;
        assert LatestMatch(signals, i, cell, kind, now);
      }
    }
  }

  /** Move `i` performs lookup `l`. */
  predicate LooksUpAt(ms: seq<Move>, i: nat, l: Lookup)
    requires i < |ms|
  {
    ms[i] == LookUp(l.report, l.now) && l == LookupOf(At(ms, i).signals, l.report, l.now)
  }

  /** Every lookup in flight was performed by some move. */
  lemma {:induction false} LookupOrigin(ms: seq<Move>, n: nat, l: Lookup) returns (i: nat)
    requires n <= |ms| && l in At(ms, n).looked
    ensures i < n && LooksUpAt(ms, i, l)
  {
    hide Next, LookupOf;
    LooksGrow(At(ms, n - 1), ms[n - 1], l);
    if l in At(ms, n - 1).looked {
      i := LookupOrigin(ms, n - 1, l);
    } else {
      i := n - 1;
    }
  }

  lemma LooksGrow(s: Ladder, m: Move, l: Lookup)
    ensures l in s.looked ==> l in Next(s, m).looked
    ensures l in Next(s, m).looked && l !in s.looked ==>
              m == LookUp(l.report, l.now) && l == LookupOf(s.signals, l.report, l.now)
    ensures m.LookUp? ==> LookupOf(s.signals, m.report, m.now) in Next(s, m).looked
  {
  }

  lemma {:induction false} LookupsStay(ms: seq<Move>, i: nat, j: nat, l: Lookup)
    requires i < j <= |ms| && LooksUpAt(ms, i, l)
    ensures l in At(ms, j).looked
  {
    hide Next, LookupOf;
    LooksGrow(At(ms, j - 1), ms[j - 1], l);
    if i < j - 1 {
      LookupsStay(ms, i, j - 1, l);
    }
  }

  /** A lookup's event exists, and has a pending signal, when it is found. */
  lemma TargetIsPending(s: Ladder, r: Report, now: int)
    requires Linked(s) && LookupOf(s.signals, r, now).target.Some?
    ensures var e := LookupOf(s.signals, r, now).target.value;
            e in s.events && exists sig :: sig in s.signals && sig.event == e && !sig.expired
  {
    ClusterIsStaged(s.signals, r.cell, r.kind, now);
  }

  // ----- joining a dead event

  /** Between `s` and `s'` a signal was linked to an event that had expired by then. */
  predicate JoinsDead(s: Ladder, s': Ladder, e: EventId) {
    e in s.events && !s.events[e].active && |s'.signals| == |s.signals| + 1 && s'.signals[|s.signals|].event == e
  }

  predicate JoinsDeadAt(ms: seq<Move>, k: nat, e: EventId)
    requires k < |ms|
  {
    JoinsDead(At(ms, k), At(ms, k + 1), e)
  }

  /** Move `k` expires event `e`. */
  predicate ExpiresAt(ms: seq<Move>, k: nat, e: EventId)
    requires k < |ms|
  {
    && e in At(ms, k).events && At(ms, k).events[e].active
    && e in At(ms, k + 1).events && !At(ms, k + 1).events[e].active
  }

  /** Only an insert joins a dead event: the one its lookup found. */
  lemma OnlyStagesJoin(s: Ladder, m: Move, e: EventId)
    ensures JoinsDead(s, Next(s, m), e) <==>
            m.Stage? && m.lookup in s.looked && m.lookup.target == Some(e) && e in s.events && !s.events[e].active
  {
    hide FindCluster, Matching, DeliveriesFor, FreshReads, StaleIds;
  }

  /** An event that is active at `i` has expired by `j` exactly when some move in between expires it. */
  lemma {:induction false} DeadIffExpiredSince(ms: seq<Move>, i: nat, j: nat, e: EventId)
    requires i <= j <= |ms| && e in At(ms, i).events
    ensures e in At(ms, j).events
    ensures !At(ms, j).events[e].active <==>
            !At(ms, i).events[e].active || exists k :: i <= k < j && ExpiresAt(ms, k, e)
  {
    hide Next;
    if i < j {
      DeadIffExpiredSince(ms, i, j - 1, e);
      TiersClimb(At(ms, j - 1), ms[j - 1], e);
      assert !At(ms, j).events[e].active && At(ms, j - 1).events[e].active ==> ExpiresAt(ms, j - 1, e);
      if k :| i <= k < j && ExpiresAt(ms, k, e) {
        TierNeverFalls(ms, k + 1, j, e);
      }
    }
  }

  /** The latest match of a lookup in `s` is a signal left pending on a dead event. */
  ghost predicate LatestIsStranded(s: Ladder, r: Report, now: int)
    requires Linked(s)
  {
    exists i: nat :: LatestMatch(s.signals, i, r.cell, r.kind, now) && !s.events[s.signals[i].event].active
  }

  lemma DeadTargetIffStranded(s: Ladder, r: Report, now: int)
    requires Linked(s)
    ensures var target := LookupOf(s.signals, r, now).target;
            LatestIsStranded(s, r, now) <==> target.Some? && target.value in s.events && !s.events[target.value].active
  {
    hide FindCluster, Matches;
    LookupFindsLatest(s.signals, r.cell, r.kind, now);
  }

  /**
   Exactly when an ingest joins a dead event. With its lookup at `i` and its insert
   at `j`: if the latest match was stranded on one at the lookup, or the event found
   expired between the two.
   */
  lemma JoinsDeadIff(ms: seq<Move>, i: nat, j: nat, e: EventId)
    requires i < j < |ms| && ms[j].Stage? && LooksUpAt(ms, i, ms[j].lookup) && ms[j].lookup.target == Some(e)
    ensures Linked(At(ms, i))
    ensures JoinsDeadAt(ms, j, e) <==>
            || LatestIsStranded(At(ms, i), ms[i].report, ms[i].now)
            || exists k :: i <= k < j && ExpiresAt(ms, k, e)
  {
    var s, l := At(ms, i), ms[j].lookup;
    ReachableInv(ms, i);
    LookupsStay(ms, i, j, l);
    OnlyStagesJoin(At(ms, j), ms[j], e);
    hide Next, LookupOf, Linked, LatestIsStranded, JoinsDead, ReadsBounded, TiersEarned, PushGated;
    TargetIsPending(s, l.report, l.now);
    DeadTargetIffStranded(s, l.report, l.now);
    DeadIffExpiredSince(ms, i, j, e);
  }

  // ----- with expiry as one step

  /** Every expiry of the run performs both of its updates in one step. */
  predicate AtomicExpiry(ms: seq<Move>) {
    forall k :: 0 <= k < |ms| ==> !ms[k].ExpireEvents?
  }

  /** No pending signal is left on an inactive event. */
  predicate NoneStranded(s: Ladder) {
    forall sig :: sig in s.signals && sig.event in s.events && !s.events[sig.event].active ==> sig.expired
  }

  lemma MoveStrandsNone(s: Ladder, m: Move)
    requires Linked(s) && NoneStranded(s) && !m.ExpireEvents? && forall e :: !JoinsDead(s, Next(s, m), e)
    ensures NoneStranded(Next(s, m))
  {
    hide Matching, DeliveriesFor, FreshReads, StaleIds, FindCluster;
    if m.Stage? && m.lookup.target.Some? {
      assert !JoinsDead(s, Next(s, m), m.lookup.target.value);
    }
  }

  /** With expiry as one step, signals stay off dead events until the first one joins one. */
  lemma {:induction false} StrandsNoneBeforeJoin(ms: seq<Move>, n: nat)
    requires n <= |ms| && AtomicExpiry(ms) && forall k, e :: 0 <= k < n ==> !JoinsDeadAt(ms, k, e)
    ensures NoneStranded(At(ms, n))
  {
    hide Next, JoinsDead, NoneStranded;
    if n > 0 {
      StrandsNoneBeforeJoin(ms, n - 1);
      ReachableInv(ms, n - 1);
      hide Linked;
      var s, m, s' := At(ms, n - 1), ms[n - 1], At(ms, n);
      assert s' == Next(s, m);
      forall e
        ensures !JoinsDead(s, s', e)
      {
        assert !JoinsDeadAt(ms, n - 1, e);
      }
      MoveStrandsNone(s, m);
    } else {
      NothingStranded();
    }
  }

  lemma NothingStranded()
    ensures NoneStranded(Empty)
  {
  }

  /** The insert at `j` was overtaken: the event its lookup at `i` found has expired since. */
  predicate Overtaken(ms: seq<Move>, i: nat, j: nat, e: EventId)
    requires i < j < |ms|
  {
    && ms[j].Stage? && LooksUpAt(ms, i, ms[j].lookup) && ms[j].lookup.target == Some(e)
    && exists k :: i <= k < j && ExpiresAt(ms, k, e)
  }

  /** With expiry as one step, the first dead join of a run is an overtaken insert. */
  lemma FirstJoinIsOvertaken(ms: seq<Move>, n: nat, e: EventId) returns (i: nat)
    requires n < |ms| && AtomicExpiry(ms) && JoinsDeadAt(ms, n, e)
    requires forall k, x :: 0 <= k < n ==> !JoinsDeadAt(ms, k, x)
    ensures i < n && Overtaken(ms, i, n, e)
  {
    hide Next, LookupOf, JoinsDead, AtomicExpiry, ReadsBounded, TiersEarned, PushGated;
    Unroll(ms, n);
    OnlyStagesJoin(At(ms, n), ms[n], e);
    var l := ms[n].lookup;
    i := LookupOrigin(ms, n, l);
    StrandsNoneBeforeJoin(ms, i);
    ReachableInv(ms, i);
    TargetIsPending(At(ms, i), l.report, l.now);
    hide Linked;
    DeadIffExpiredSince(ms, i, n, e);
  }

  /**
   With expiry as one step, a run links a signal to a dead event if and only if it
   has an overtaken insert.
   */
  lemma {:induction false} DeadJoinIffOvertaken(ms: seq<Move>, n: nat)
    requires n <= |ms| && AtomicExpiry(ms)
    ensures (exists k, e :: 0 <= k < n && JoinsDeadAt(ms, k, e)) <==>
            exists i, j, e :: 0 <= i < j < n && Overtaken(ms, i, j, e)
  {
    hide AtomicExpiry, JoinsDeadAt;
    if exists k, e :: 0 <= k < n && JoinsDeadAt(ms, k, e) {
      var k, e := FirstJoin(ms, n);
      var i := FirstJoinIsOvertaken(ms, k, e);
      assert 0 <= i < k < n && Overtaken(ms, i, k, e);
    }
    if i, j, e :| 0 <= i < j < n && Overtaken(ms, i, j, e) {
      JoinsDeadIff(ms, i, j, e);
      assert JoinsDeadAt(ms, j, e);
    }
  }

  lemma {:induction false} FirstJoin(ms: seq<Move>, n: nat) returns (k: nat, e: EventId)
    requires n <= |ms| && exists k, e :: 0 <= k < n && JoinsDeadAt(ms, k, e)
    ensures k < n && JoinsDeadAt(ms, k, e) && forall x, y :: 0 <= x < k ==> !JoinsDeadAt(ms, x, y)
  {
    hide JoinsDeadAt;
    if exists x, y :: 0 <= x < n - 1 && JoinsDeadAt(ms, x, y) {
      k, e := FirstJoin(ms, n - 1);
    } else {
      k, e :| 0 <= k < n && JoinsDeadAt(ms, k, e);
    }
  }

  /** So with expiry as one step and no overtaken insert, nothing staged after an event expired is linked to it. */
  lemma {:induction false} NoSignalJoinsExpired(ms: seq<Move>, i: nat, j: nat, e: EventId)
    requires i <= j <= |ms| && AtomicExpiry(ms) && forall x, y, d :: 0 <= x < y < j ==> !Overtaken(ms, x, y, d)
    requires e in At(ms, i).events && !At(ms, i).events[e].active
    ensures |At(ms, i).signals| <= |At(ms, j).signals|
    ensures forall x :: |At(ms, i).signals| <= x < |At(ms, j).signals| ==> At(ms, j).signals[x].event != e
  {
    hide Next, AtomicExpiry, Overtaken;
    if i < j {
      NoSignalJoinsExpired(ms, i, j - 1, e);
      TierNeverFalls(ms, i, j - 1, e);
      DeadJoinIffOvertaken(ms, j);
      assert !JoinsDeadAt(ms, j - 1, e);
      MovesExtend(At(ms, j - 1), ms[j - 1]);
      OneSignalAtMost(At(ms, j - 1), ms[j - 1]);
    }
  }

  lemma OneSignalAtMost(s: Ladder, m: Move)
    ensures |s.signals| <= |Next(s, m).signals| <= |s.signals| + 1
  {
  }

  /** The two updates of an expiry, with nothing in between, are the one-step expiry. */
  lemma UpdatesMakeExpiry(s: Ladder, now: int)
    ensures Next(Next(s, ExpireEvents(now)), ExpireSignals(StaleIds(s, now))) == Next(s, Expire(now))
  {
  }

  // ----- both races happen

  lemma Unroll(ms: seq<Move>, k: nat)
    requires k < |ms|
    ensures At(ms, k + 1) == Next(At(ms, k), ms[k])
  {
  }

  /** A heuristic event of time zero, surfaced by one report that a later one matches. */
  const Flood := Report("cell", "FLOOD", Some("a"), None, 1, "", 0)

  function FirstState(now: int): Ladder {
    Surfaced(Empty.(looked := {Lookup(Flood, now, None)}), Flood, now, 0)
  }

  lemma FirstSignal(now: int)
    ensures Next(Next(Empty, LookUp(Flood, now)), Stage(Lookup(Flood, now, None), 0)) == FirstState(now)
  {
  }

  lemma SecondFinds(s: Ladder, earlier: int, now: int)
    requires s.signals == [Staged(Flood, earlier, 0)] && now - CLUSTER_WINDOW_SECS < earlier
    ensures LookupOf(s.signals, Flood, now) == Lookup(Flood, now, Some(0))
  {
    assert FindCluster(s.signals[..0], "cell", "FLOOD", now) == None;
  }

  lemma StaleDies(s: Ladder, now: int)
    requires s.events.Keys == {0} && Stale(s.events[0], now)
    ensures Next(s, Expire(now)).events.Keys == {0} && !Next(s, Expire(now)).events[0].active
    ensures Next(s, ExpireEvents(now)).events.Keys == {0} && !Next(s, ExpireEvents(now)).events[0].active
    ensures Next(s, ExpireEvents(now)).signals == s.signals && Next(s, Expire(now)).looked == s.looked
  {
  }

  lemma FiveMoves(ms: seq<Move>)
    requires |ms| == 5
    ensures At(ms, 4) == Next(Next(Next(Next(Empty, ms[0]), ms[1]), ms[2]), ms[3]) && At(ms, 5) == Next(At(ms, 4), ms[4])
  {
    hide Next;
    Unroll(ms, 1);
    Unroll(ms, 2);
    Unroll(ms, 3);
  }

  /** With the updates of an expiry apart, a signal whose ingest falls between them joins the dead event. */
  lemma SplitExpiryLetsSignalsJoin()
    ensures exists ms: seq<Move> :: |ms| == 5 && JoinsDeadAt(ms, 4, 0)
  {
    var l := Lookup(Flood, 2001, Some(0));
    var ms := [LookUp(Flood, 2000), Stage(Lookup(Flood, 2000, None), 0), ExpireEvents(2000), LookUp(Flood, 2001), Stage(l, 1)];
    FirstSignal(2000);
    IngestAfterDeath(FirstState(2000));
    hide Next, JoinsDead;
    FiveMoves(ms);
    assert JoinsDeadAt(ms, 4, 0);
  }

  lemma IngestAfterDeath(s: Ladder)
    requires s == FirstState(2000)
    ensures var dead := Next(Next(s, ExpireEvents(2000)), LookUp(Flood, 2001));
            JoinsDead(dead, Next(dead, Stage(Lookup(Flood, 2001, Some(0)), 1)), 0)
  {
    StaleDies(s, 2000);
    var s3 := Next(s, ExpireEvents(2000));
    SecondFinds(s3, 2000, 2001);
    OnlyStagesJoin(Next(s3, LookUp(Flood, 2001)), Stage(Lookup(Flood, 2001, Some(0)), 1), 0);
    hide FindCluster, Deactivated, StaleIds, JoinsDead;
  }

  /** With expiry as one step, an ingest whose lookup came before it and whose insert comes after joins too. */
  lemma OvertakenIngestJoins()
    ensures exists ms: seq<Move> :: |ms| == 5 && AtomicExpiry(ms) && JoinsDeadAt(ms, 4, 0)
  {
    var l := Lookup(Flood, 1801, Some(0));
    var ms := [LookUp(Flood, 1700), Stage(Lookup(Flood, 1700, None), 0), LookUp(Flood, 1801), Expire(1801), Stage(l, 1)];
    FirstSignal(1700);
    var s2 := FirstState(1700);
    SecondFinds(s2, 1700, 1801);
    var s3 := Next(s2, ms[2]);
    assert l in s3.looked && s3.events == s2.events;
    StaleDies(s3, 1801);
    OnlyStagesJoin(Next(s3, ms[3]), ms[4], 0);
    hide Next, JoinsDead;
    FiveMoves(ms);
    assert JoinsDeadAt(ms, 4, 0);
  }
}
