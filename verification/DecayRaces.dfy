/**
 Verification resets an author's effective score to the earned one. A decay pass
 reads and writes without locks, so a write may come from a read before the reset.
 */
module DecayRaces {
  import opened Common
  import opened Consensus
  import opened Personhood
  import opened Decay
  import opened Reports
  import opened ReportRuns

  /** Request `k` verifies a report of `u`. */
  ghost predicate CreditsAt(cfg: Config, rs: seq<Request>, k: nat, u: Pubkey)
    requires k < |rs|
  {
    exists id :: VerifiesAt(cfg, rs, k, id) && At(cfg, rs, k + 1).reports[id].author == u
  }

  /** Request `k` is a decay read that selects `u`. */
  predicate ReadsUserAt(cfg: Config, rs: seq<Request>, k: nat, u: Pubkey)
    requires k < |rs|
  {
    rs[k].ReadForDecay? && u in At(cfg, rs, k).users && Decays(cfg, At(cfg, rs, k).users[u], rs[k].now)
  }

  /** Request `j` writes a decayed score of `u` from a read before request `k`. */
  predicate StaleWriteAt(cfg: Config, rs: seq<Request>, k: nat, j: nat, u: Pubkey)
    requires k < j < |rs|
  {
    rs[j].WriteDecay? && rs[j].snapshot.pubkey == u && rs[j].snapshot in At(cfg, rs, k).snapshots
  }

  // ----- what one request does to one user

  /** The request writes a decayed score of `u` from a read that took place. */
  predicate Writes(w: World, r: Request, u: Pubkey) {
    r.WriteDecay? && r.snapshot in w.snapshots && r.snapshot.pubkey == u
  }

  /** The request verifies report `id` of `u`. */
  predicate Verifies(cfg: Config, w: World, r: Request, id: ReportId, u: Pubkey) {
    var w' := Step(cfg, w, r).world;
    && id in w'.reports && w'.reports[id].author == u && w'.reports[id].status == Verified
    && !(id in w.reports && w.reports[id].status == Verified)
  }

  lemma CreditIsReset(cfg: Config, w: World, r: Request, id: ReportId, u: Pubkey)
    requires Inv(w) && Verifies(cfg, w, r, id, u)
    ensures u in w.users && u in Step(cfg, w, r).world.users
    ensures var before, after := w.users[u], Step(cfg, w, r).world.users[u];
            && after.score == before.score + 10 && after.effective == after.score
            && r.CastVote? && after.lastVerified == Some(r.now)
    ensures Step(cfg, w, r).world.snapshots == w.snapshots
  {
    hide EstablishedConfirmers, Voters, LedgerOk, StatusOk, HistoryOk, Settled, UsersOk, SnapshotsOk, VoteWeight;
  }

  lemma OnlyCreditsAndWritesCount(cfg: Config, w: World, r: Request, u: Pubkey)
    requires Inv(w) && u in w.users && !Writes(w, r, u) && forall id :: !Verifies(cfg, w, r, id, u)
    ensures u in Step(cfg, w, r).world.users
    ensures var before, after := w.users[u], Step(cfg, w, r).world.users[u];
            after.score == before.score && after.effective == before.effective && after.lastVerified == before.lastVerified
  {
    hide EstablishedConfirmers, Voters, LedgerOk, StatusOk, HistoryOk, Settled, UsersOk, SnapshotsOk, VoteWeight, DecayedScore;
    if r.CastVote? && Step(cfg, w, r).reply == Done {
      assert !Verifies(cfg, w, r, r.id, u);
    }
  }

  lemma WriteIsDecayed(cfg: Config, w: World, r: Request, u: Pubkey)
    requires u in w.users && Writes(w, r, u)
    ensures u in Step(cfg, w, r).world.users && Step(cfg, w, r).world.users[u].score == w.users[u].score
    ensures Step(cfg, w, r).world.users[u].effective <= r.snapshot.earned
  {
    var s := r.snapshot;
    EffectiveIsBounded(s.earned, s.days, AccuracyRatio(s.accurate, s.total), cfg.graceDays, cfg.horizonDays, cfg.floor);
    hide EffectiveScore;
  }

  /** Snapshots stay, and a new one of `u` comes from a read that selects `u`. */
  lemma SnapshotOrigin(cfg: Config, w: World, r: Request)
    ensures w.snapshots <= Step(cfg, w, r).world.snapshots
    ensures forall s :: s in Step(cfg, w, r).world.snapshots && s !in w.snapshots ==>
              r.ReadForDecay? && s.pubkey in w.users && Decays(cfg, w.users[s.pubkey], r.now)
  {
    hide EstablishedConfirmers, Voters, Settled, Decays;
  }

  // ----- the reset over runs

  /** From a credit at `k` on, while nothing else credits or reads `u`: the score stands, and so do the snapshots of `u`. */
  lemma {:induction false} QuietSpan(cfg: Config, rs: seq<Request>, k: nat, n: nat, u: Pubkey)
    requires k < n <= |rs| && CreditsAt(cfg, rs, k, u)
    requires forall j :: k < j < n ==> !CreditsAt(cfg, rs, j, u) && !ReadsUserAt(cfg, rs, j, u)
    ensures u in At(cfg, rs, k).users && u in At(cfg, rs, n).users
    ensures At(cfg, rs, n).users[u].score == At(cfg, rs, k).users[u].score + 10
    ensures forall s: Snapshot :: s.pubkey == u ==> (s in At(cfg, rs, n).snapshots <==> s in At(cfg, rs, k).snapshots)
    ensures At(cfg, rs, n).users[u].effective == At(cfg, rs, n).users[u].score
            <==> forall j :: k < j < n ==> !StaleWriteAt(cfg, rs, k, j, u)
  {
    hide Step, Inv;
    if n == k + 1 {
      FirstStep(cfg, rs, k, u);
    } else {
      QuietSpan(cfg, rs, k, n - 1, u);
      QuietStep(cfg, rs, k, n, u);
    }
  }

  lemma FirstStep(cfg: Config, rs: seq<Request>, k: nat, u: Pubkey)
    requires k < |rs| && CreditsAt(cfg, rs, k, u)
    ensures u in At(cfg, rs, k).users && u in At(cfg, rs, k + 1).users
    ensures At(cfg, rs, k + 1).users[u].score == At(cfg, rs, k).users[u].score + 10
    ensures At(cfg, rs, k + 1).users[u].effective == At(cfg, rs, k + 1).users[u].score
    ensures At(cfg, rs, k + 1).snapshots == At(cfg, rs, k).snapshots
  {
    hide Step, Inv;
    ReachableInv(cfg, rs, k);
    var id :| VerifiesAt(cfg, rs, k, id) && At(cfg, rs, k + 1).reports[id].author == u;
    CreditIsReset(cfg, At(cfg, rs, k), rs[k], id, u);
  }

  lemma QuietStep(cfg: Config, rs: seq<Request>, k: nat, n: nat, u: Pubkey)
    requires k + 1 < n <= |rs| && u in At(cfg, rs, k).users && u in At(cfg, rs, n - 1).users
    requires !CreditsAt(cfg, rs, n - 1, u) && !ReadsUserAt(cfg, rs, n - 1, u)
    requires At(cfg, rs, n - 1).users[u].score == At(cfg, rs, k).users[u].score + 10
    requires forall s: Snapshot :: s.pubkey == u ==> (s in At(cfg, rs, n - 1).snapshots <==> s in At(cfg, rs, k).snapshots)
    ensures u in At(cfg, rs, n).users && At(cfg, rs, n).users[u].score == At(cfg, rs, n - 1).users[u].score
    ensures forall s: Snapshot :: s.pubkey == u ==> (s in At(cfg, rs, n).snapshots <==> s in At(cfg, rs, k).snapshots)
    ensures StaleWriteAt(cfg, rs, k, n - 1, u) ==> At(cfg, rs, n).users[u].effective < At(cfg, rs, n).users[u].score
    ensures !StaleWriteAt(cfg, rs, k, n - 1, u) ==> At(cfg, rs, n).users[u].effective == At(cfg, rs, n - 1).users[u].effective
  {
    hide Step, Inv;
    var w, r := At(cfg, rs, n - 1), rs[n - 1];
    assert At(cfg, rs, n) == Step(cfg, w, r).world;
    SnapshotOrigin(cfg, w, r);
    if StaleWriteAt(cfg, rs, k, n - 1, u) {
      WriteIsDecayed(cfg, w, r, u);
      SnapshotIsBelow(cfg, rs, k, r.snapshot);
    } else {
      ReachableInv(cfg, rs, n - 1);
      forall id
        ensures !Verifies(cfg, w, r, id, u)
      {
        assert Verifies(cfg, w, r, id, u) ==> VerifiesAt(cfg, rs, n - 1, id);
      }
      OnlyCreditsAndWritesCount(cfg, w, r, u);
    }
  }

  lemma SnapshotIsBelow(cfg: Config, rs: seq<Request>, k: nat, s: Snapshot)
    requires k <= |rs| && s in At(cfg, rs, k).snapshots
    ensures s.pubkey in At(cfg, rs, k).users && s.earned <= At(cfg, rs, k).users[s.pubkey].score
  {
    ReachableInv(cfg, rs, k);
    hide At, ReportsOk, UsersOk;
    assert SnapshotOk(At(cfg, rs, k).users, s);
  }

  /**
   Exactly when the reset lasts. After a verification of a report of `u`, and until
   another one or a decay read that selects `u`, the effective score is the earned
   score if and only if no decay write used a read of `u` from before it.
   */
  lemma ResetLastsIffNoStaleWrite(cfg: Config, rs: seq<Request>, k: nat, n: nat, u: Pubkey)
    requires k < n <= |rs| && CreditsAt(cfg, rs, k, u)
    requires forall j :: k < j < n ==> !CreditsAt(cfg, rs, j, u) && !ReadsUserAt(cfg, rs, j, u)
    ensures u in At(cfg, rs, n).users
    ensures At(cfg, rs, n).users[u].effective == At(cfg, rs, n).users[u].score
            <==> forall j :: k < j < n ==> !StaleWriteAt(cfg, rs, k, j, u)
  {
    QuietSpan(cfg, rs, k, n, u);
  }

  // ----- the race happens

  const Open := Config({}, false, 1, 1, 0)
  const Author := "author"
  const Later := 3 * SECS_PER_DAY

  /** Voters have longer names than the author, and distinct ones. */
  function Voter(i: nat): (v: Pubkey)
    ensures |v| == 7 + i
  {
    seq(7 + i, _ => 'v')
  }

  const Old := Snapshot(Author, 10, 1, 1, 3)

  /**
   The author's first report is verified by six newcomers; a decay pass reads the
   author; the second report is verified by five; the pass writes.
   */
  function Lapse(i: nat): Request
    requires i < 15
  {
    if i == 0 then CreateReport(0, Author)
    else if i < 7 then CastVote(0, Voter(i - 1), "CONFIRM", false, 0)
    else if i == 7 then ReadForDecay(Later)
    else if i == 8 then CreateReport(1, Author)
    else if i < 14 then CastVote(1, Voter(i - 9), "CONFIRM", false, Later)
    else WriteDecay(Old)
  }

  const LapseRun: seq<Request> := seq(15, i requires 0 <= i < 15 => Lapse(i))

  /** The status of a report with this many confirmations by newcomers and no denials. */
  function Climbed(score: int, confirms: int): Status {
    if score >= 7 && confirms >= 3 then Verified else if score >= 3 && confirms >= 2 then Unverified else Pending
  }

  predicate ConfirmedReport(r: Report, seed: int, c: nat) {
    && r.author == Author && r.score == seed + c && r.confirms == c && r.denies == 0
    && r.status == Climbed(seed + c, c)
    && forall v :: v in r.votes ==> |v.voter| < 7 + c
  }

  /** Report `id` of the author has been confirmed by the first `c` voters, all newcomers. */
  predicate Confirmed(w: World, id: ReportId, seed: int, c: nat) {
    && id in w.reports && Author in w.users && ConfirmedReport(w.reports[id], seed, c)
    && forall u :: u in w.users && u != Author ==> w.users[u].tier == Newcomer
  }

  /** One more confirmation; `seed + c` stays below what verified takes. */
  lemma ConfirmedNext(w: World, id: ReportId, seed: int, c: nat, now: int)
    requires Confirmed(w, id, seed, c) && 1 <= seed <= 2 && seed + c < 7
    ensures var w' := Step(Open, w, CastVote(id, Voter(c), "CONFIRM", false, now)).world;
            && Confirmed(w', id, seed, c + 1) && w'.snapshots == w.snapshots && w'.reports.Keys == w.reports.Keys
            && w'.users[Author] == if seed + c == 6 then Credited(w.users[Author], now) else w.users[Author]
  {
    hide EstablishedConfirmers;
    var voter := Voter(c);
    assert voter != Author && voter !in Voters(w.reports[id].votes);
  }

  predicate FirstPart(w: World, c: nat) {
    && Confirmed(w, 0, 1, c) && w.reports.Keys == {0} && w.snapshots == {}
    && w.users[Author] == if c == 6 then User(1, 1, 0, 10, 10, Trusted, Some(0)) else User(1, 0, 0, 0, 0, Newcomer, None)
  }

  predicate SecondPart(w: World, c: nat) {
    Confirmed(w, 1, 2, c) && Old in w.snapshots && (c < 5 ==> w.users[Author].tier == Trusted)
  }

  lemma {:induction false} FirstPartHolds(c: nat)
    requires c <= 6
    ensures FirstPart(At(Open, LapseRun, c + 1), c)
  {
    hide Step;
    if c == 0 {
      FirstReport();
    } else {
      FirstPartHolds(c - 1);
      ConfirmedNext(At(Open, LapseRun, c), 0, 1, c - 1, 0);
    }
  }

  lemma FirstReport()
    ensures FirstPart(At(Open, LapseRun, 1), 0)
  {
    assert At(Open, LapseRun, 0) == Empty;
  }

  lemma PassReads(w: World)
    requires FirstPart(w, 6)
    ensures SecondPart(Step(Open, Step(Open, w, ReadForDecay(Later)).world, CreateReport(1, Author)).world, 0)
  {
    assert Decays(Open, w.users[Author], Later);
    assert SnapshotOf(Author, w.users[Author], Later) == Old;
    assert Old in Snapshots(Open, w.users, Later);
  }

  lemma {:induction false} SecondPartHolds(c: nat)
    requires c <= 5
    ensures SecondPart(At(Open, LapseRun, c + 9), c)
  {
    hide Step;
    if c == 0 {
      FirstPartHolds(6);
      PassReads(At(Open, LapseRun, 7));
      assert At(Open, LapseRun, 9) == Step(Open, At(Open, LapseRun, 8), LapseRun[8]).world;
    } else {
      SecondPartHolds(c - 1);
      ConfirmedNext(At(Open, LapseRun, c + 8), 1, 2, c - 1, Later);
    }
  }

  /** A run in which a decay write leaves the author of a just verified report below the earned score. */
  lemma StaleDecayUndoesReset()
    ensures exists rs, k, u :: 0 <= k && k + 2 == |rs| && LosesReset(Open, rs, k, u)
  {
    LapseCredits();
    NoCreditByWrite();
    assert LapseRun[14] == WriteDecay(Old);
    hide Step, At, CreditsAt, StaleWriteAt, Lapse;
    ResetLastsIffNoStaleWrite(Open, LapseRun, 13, 15, Author);
    assert LosesReset(Open, LapseRun, 13, Author);
  }

  lemma LapseCredits()
    ensures CreditsAt(Open, LapseRun, 13, Author) && StaleWriteAt(Open, LapseRun, 13, 14, Author)
  {
    SecondPartHolds(4);
    SecondPartHolds(5);
    hide Step, At;
    assert VerifiesAt(Open, LapseRun, 13, 1);
  }

  lemma NoCreditByWrite()
    ensures !CreditsAt(Open, LapseRun, 14, Author)
  {
    assert At(Open, LapseRun, 15) == Step(Open, At(Open, LapseRun, 14), LapseRun[14]).world;
    assert At(Open, LapseRun, 15).reports == At(Open, LapseRun, 14).reports;
  }

  /** Request `k` credits `u`, and the next one takes the reset back. */
  ghost predicate LosesReset(cfg: Config, rs: seq<Request>, k: nat, u: Pubkey)
    requires k + 2 <= |rs|
  {
    && CreditsAt(cfg, rs, k, u) && rs[k + 1].WriteDecay?
    && u in At(cfg, rs, k + 2).users && At(cfg, rs, k + 2).users[u].effective != At(cfg, rs, k + 2).users[u].score
  }
}
