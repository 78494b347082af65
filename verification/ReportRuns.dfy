/**
 What holds over every run of reports, votes, vouch changes and interleaved decay
 passes: the ledger explains the counters, reputation is conserved, and stale
 decay writes never lift anybody above what they earned.
 */
module ReportRuns {
  import opened Common
  import opened Consensus
  import opened Personhood
  import opened Decay
  import opened Reports

  // ----- the ledger explains the counters

  function SignedSum(votes: seq<Vote>): int {
    if votes == [] then 0
    else
      var v := votes[|votes| - 1];
      SignedSum(votes[..|votes| - 1]) + (if v.ballot == Confirm then v.magnitude else -v.magnitude)
  }

  function CountOf(votes: seq<Vote>, b: Ballot): nat {
    if votes == [] then 0
    else CountOf(votes[..|votes| - 1], b) + (if votes[|votes| - 1].ballot == b then 1 else 0)
  }

  /** The counters are the ledger's: seed plus signed magnitudes, votes by distinct people other than the author. */
  predicate LedgerOk(r: Report) {
    && 1 <= r.seed <= 4
    && r.score == r.seed + SignedSum(r.votes)
    && r.confirms == CountOf(r.votes, Confirm)
    && r.denies == CountOf(r.votes, Deny)
    && r.author !in Voters(r.votes)
    && (forall v :: v in r.votes ==> 1 <= v.magnitude <= 11)
    && (forall i, j :: 0 <= i < j < |r.votes| ==> r.votes[i].voter != r.votes[j].voter)
  }

  /** What a status says about the counts behind it. */
  predicate StatusOk(r: Report) {
    && (r.status == Unverified ==> r.confirms >= 2)
    && (r.status == Verified ==> r.confirms >= 3)
    && (r.status == Authoritative ==> r.confirms >= 4)
    && (r.status == Disputed ==> r.denies >= 3)
    && (r.status == Rejected ==> r.denies >= 1)
  }

  /** Appending a vote by somebody new keeps voters distinct. */
  lemma NewVoterStaysDistinct(votes: seq<Vote>, v: Vote)
    requires v.voter !in Voters(votes)
    requires forall i, j :: 0 <= i < j < |votes| ==> votes[i].voter != votes[j].voter
    ensures forall i, j :: 0 <= i < j < |votes + [v]| ==> (votes + [v])[i].voter != (votes + [v])[j].voter
    ensures Voters(votes + [v]) == Voters(votes) + {v.voter}
  {
    forall i | 0 <= i < |votes|
      ensures votes[i].voter != v.voter
    {
      assert votes[i] in votes;
    }
  }

  lemma TallyKeepsLedger(r: Report, v: Vote)
    requires LedgerOk(r) && v.voter != r.author && v.voter !in Voters(r.votes) && 1 <= v.magnitude <= 11
    ensures LedgerOk(Tally(r, v))
  {
    NewVoterStaysDistinct(r.votes, v);
    SumsAppend(r.votes, v);
    hide Voters, SignedSum, CountOf;
    assert forall x :: x in r.votes + [v] ==> x in r.votes || x == v;
  }

  lemma SumsAppend(votes: seq<Vote>, v: Vote)
    ensures SignedSum(votes + [v]) == SignedSum(votes) + (if v.ballot == Confirm then v.magnitude else -v.magnitude)
    ensures forall b :: CountOf(votes + [v], b) == CountOf(votes, b) + (if v.ballot == b then 1 else 0)
  {
    assert (votes + [v])[..|votes|] == votes;
  }

  /** One vote weighs between 1 and 11, so the score lies between seed + c - 11d and seed + 11c - d. */
  lemma {:induction false} LedgerBounds(votes: seq<Vote>)
    requires forall v :: v in votes ==> 1 <= v.magnitude <= 11
    ensures CountOf(votes, Confirm) - 11 * CountOf(votes, Deny) <= SignedSum(votes)
    ensures SignedSum(votes) <= 11 * CountOf(votes, Confirm) - CountOf(votes, Deny)
    ensures CountOf(votes, Confirm) + CountOf(votes, Deny) == |votes|
  {
    if votes != [] {
      var init, last := votes[..|votes| - 1], votes[|votes| - 1];
      assert votes == init + [last];
      LedgerBounds(init);
    }
  }

  // ----- reputation is conserved

  function Authored(reports: map<ReportId, Report>, u: Pubkey): set<ReportId> {
    set id | id in reports && reports[id].author == u
  }

  /** Reports of `u` that have ever been verified. */
  function VerifiedOf(reports: map<ReportId, Report>, ever: set<ReportId>, u: Pubkey): set<ReportId> {
    set id | id in reports && reports[id].author == u && id in ever
  }

  function RejectedOf(reports: map<ReportId, Report>, u: Pubkey): set<ReportId> {
    set id | id in reports && reports[id].author == u && reports[id].status == Rejected
  }

  /** A user's counters are the sizes of the matching sets of reports. */
  predicate Balanced(user: User, authored: set<ReportId>, verified: set<ReportId>, rejected: set<ReportId>) {
    && user.total == |authored|
    && user.accurate == |verified|
    && user.score == 10 * user.accurate
    && user.rejected == |rejected|
  }

  predicate Conserved(w: World, u: Pubkey)
    requires u in w.users
  {
    Balanced(w.users[u], Authored(w.reports, u), VerifiedOf(w.reports, w.everVerified, u), RejectedOf(w.reports, u))
  }

  /** History and present status agree on one report. */
  predicate HistoryOk(ever: set<ReportId>, id: ReportId, r: Report) {
    && (id in ever ==> Rank(r.status) >= Rank(Verified))
    && (r.status in {Verified, Authoritative} ==> id in ever)
  }

  // ----- decay never lifts anybody

  /** The effective score is at most the earned one, and the tier is the tier of the effective score. */
  predicate StandingOk(u: User) {
    u.effective <= u.score && u.tier == ComputeTier(u.effective)
  }

  /** A snapshot in flight is of a known user and at most as good as the present row. */
  predicate SnapshotOk(users: map<Pubkey, User>, s: Snapshot) {
    s.pubkey in users && s.earned <= users[s.pubkey].score
  }

  // ----- the invariant, part by part

  predicate ReportsOk(w: World) {
    && w.everVerified <= w.reports.Keys
    && forall id :: id in w.reports ==>
         && w.reports[id].author in w.users
         && LedgerOk(w.reports[id])
         && StatusOk(w.reports[id])
         && HistoryOk(w.everVerified, id, w.reports[id])
  }

  predicate UsersOk(w: World) {
    forall u :: u in w.users ==> Conserved(w, u) && StandingOk(w.users[u])
  }

  predicate SnapshotsOk(w: World) {
    forall s :: s in w.snapshots ==> SnapshotOk(w.users, s)
  }

  predicate Inv(w: World) {
    ReportsOk(w) && UsersOk(w) && SnapshotsOk(w)
  }

  /** Users stay, and nobody's earned score falls. */
  predicate NobodyLoses(before: map<Pubkey, User>, after: map<Pubkey, User>) {
    forall u :: u in before ==> u in after && before[u].score <= after[u].score
  }

  lemma SnapshotsAge(w: World, w': World)
    requires SnapshotsOk(w) && NobodyLoses(w.users, w'.users) && w'.snapshots == w.snapshots
    ensures SnapshotsOk(w')
  {
  }

  /** Somebody without a user row has no reports. */
  lemma StrangersHaveNoReports(w: World, u: Pubkey)
    requires ReportsOk(w) && u !in w.users
    ensures Authored(w.reports, u) == {} && VerifiedOf(w.reports, w.everVerified, u) == {} && RejectedOf(w.reports, u) == {}
    ensures Balanced(NewUser, {}, {}, {}) && StandingOk(NewUser)
  {
    hide LedgerOk, StatusOk, HistoryOk;
  }

  // ----- creating a report

  lemma SetsAfterCreate(reports: map<ReportId, Report>, ever: set<ReportId>, id: ReportId, r: Report, u: Pubkey)
    requires id !in reports && ever <= reports.Keys && r.status == Pending
    ensures Authored(reports[id := r], u) == Authored(reports, u) + (if u == r.author then {id} else {})
    ensures VerifiedOf(reports[id := r], ever, u) == VerifiedOf(reports, ever, u)
    ensures RejectedOf(reports[id := r], u) == RejectedOf(reports, u)
    ensures |Authored(reports[id := r], u)| == |Authored(reports, u)| + (if u == r.author then 1 else 0)
  {
    assert id !in Authored(reports, u);
  }

  lemma CreateKeepsUser(w: World, id: ReportId, author: Pubkey, u: Pubkey)
    requires ReportsOk(w) && UsersOk(w) && id !in w.reports && u in DoCreate(w, id, author).world.users
    ensures Conserved(DoCreate(w, id, author).world, u) && StandingOk(DoCreate(w, id, author).world.users[u])
  {
    hide LedgerOk, StatusOk, HistoryOk, Authored, VerifiedOf, RejectedOf;
    var w' := DoCreate(w, id, author).world;
    SetsAfterCreate(w.reports, w.everVerified, id, w'.reports[id], u);
    if u !in w.users {
      StrangersHaveNoReports(w, u);
    } else {
      assert Conserved(w, u) && StandingOk(w.users[u]);
    }
  }

  lemma CreateKeepsReports(w: World, id: ReportId, author: Pubkey)
    requires ReportsOk(w) && UsersOk(w) && id !in w.reports
    ensures ReportsOk(DoCreate(w, id, author).world)
  {
    var w' := DoCreate(w, id, author).world;
    hide LedgerOk, StatusOk, HistoryOk, UsersOk;
    FreshReportOk(w.everVerified, id, author, w'.reports[id].seed);
  }

  lemma CreateKeepsInv(w: World, id: ReportId, author: Pubkey)
    requires Inv(w)
    ensures Inv(DoCreate(w, id, author).world)
  {
    if id !in w.reports {
      CreateKeepsReports(w, id, author);
      var w' := DoCreate(w, id, author).world;
      hide ReportsOk, Conserved, StandingOk;
      forall u | u in w'.users
        ensures Conserved(w', u) && StandingOk(w'.users[u])
      {
        CreateKeepsUser(w, id, author, u);
      }
      SnapshotsAge(w, w');
    }
  }

  lemma FreshReportOk(ever: set<ReportId>, id: ReportId, author: Pubkey, seed: int)
    requires 1 <= seed <= 4 && id !in ever
    ensures var r := Report(author, seed, seed, 0, 0, Pending, []); LedgerOk(r) && StatusOk(r) && HistoryOk(ever, id, r)
  {
  }

  // ----- counting a vote

  lemma SettledKeepsStatus(r: Report, established: int, gate: bool, before: Status)
    requires LedgerOk(r)
    requires before == Unverified ==> r.confirms >= 2
    requires before == Verified ==> r.confirms >= 3
    requires before == Authoritative ==> r.confirms >= 4
    requires before == Disputed ==> r.denies >= 3
    requires before == Rejected ==> r.denies >= 1
    ensures StatusOk(r.(status := Settled(before, r.score, r.confirms, r.denies, established, gate)))
  {
    LedgerBounds(r.votes);
  }

  /** The report row after a counted vote. */
  lemma CountedReport(cfg: Config, w: World, id: ReportId, voter: Pubkey, b: Ballot, nearby: bool, now: int)
    requires id in w.reports && w.reports[id].author in w.users && LedgerOk(w.reports[id]) && StatusOk(w.reports[id])
    requires voter != w.reports[id].author && voter !in Voters(w.reports[id].votes)
    ensures var r, r' := w.reports[id], Counted(cfg, w, id, voter, b, nearby, now).reports[id];
            && LedgerOk(r') && StatusOk(r') && r'.author == r.author
            && (r'.status != r.status ==>
                  && Rank(r.status) < Rank(r'.status)
                  && (r'.status == Verified ==> r.status == Unverified)
                  && (r'.status == Authoritative ==> r.status == Verified))
  {
    hide EstablishedConfirmers, LedgerOk;
    var r := w.reports[id];
    var users := w.users[voter := Known(w.users, voter)];
    var tallied := Tally(r, Vote(voter, b, nearby, Magnitude(users[voter].tier, nearby)));
    TallyKeepsLedger(r, Vote(voter, b, nearby, Magnitude(users[voter].tier, nearby)));
    var established := |EstablishedConfirmers(cfg, users, w.vouches, tallied.votes, now)|;
    SettledKeepsStatus(tallied, established, cfg.requireEstablished, r.status);
    var status := Settled(r.status, tallied.score, tallied.confirms, tallied.denies, established, cfg.requireEstablished);
    StatusClimbs(r.status, tallied.score, tallied.confirms, tallied.denies, established, cfg.requireEstablished);
    LedgerIgnoresStatus(tallied, status);
  }

  lemma LedgerIgnoresStatus(r: Report, status: Status)
    requires LedgerOk(r)
    ensures LedgerOk(r.(status := status))
  {
  }

  lemma AuthoredAfterVote(reports: map<ReportId, Report>, id: ReportId, r: Report, u: Pubkey)
    requires id in reports && r.author == reports[id].author
    ensures Authored(reports[id := r], u) == Authored(reports, u)
  {
  }

  lemma VerifiedAfterVote(reports: map<ReportId, Report>, ever: set<ReportId>, id: ReportId, r: Report, u: Pubkey)
    requires id in reports && r.author == reports[id].author && HistoryOk(ever, id, reports[id])
    requires r.status != reports[id].status && r.status == Verified ==> Rank(reports[id].status) < Rank(Verified)
    ensures var ever' := if r.status == Verified then ever + {id} else ever;
            var moved := u == r.author && r.status != reports[id].status && r.status == Verified;
            |VerifiedOf(reports[id := r], ever', u)| == |VerifiedOf(reports, ever, u)| + (if moved then 1 else 0)
  {
    var ever' := if r.status == Verified then ever + {id} else ever;
    var before, after := VerifiedOf(reports, ever, u), VerifiedOf(reports[id := r], ever', u);
    if u == r.author && r.status != reports[id].status && r.status == Verified {
      assert id !in before && after == before + {id};
    } else {
      assert after == before;
    }
  }

  lemma RejectedAfterVote(reports: map<ReportId, Report>, id: ReportId, r: Report, u: Pubkey)
    requires id in reports && r.author == reports[id].author
    requires reports[id].status == Rejected ==> r.status == Rejected
    ensures var moved := u == r.author && r.status != reports[id].status && r.status == Rejected;
            |RejectedOf(reports[id := r], u)| == |RejectedOf(reports, u)| + (if moved then 1 else 0)
  {
    var before, after := RejectedOf(reports, u), RejectedOf(reports[id := r], u);
    assert forall x :: x in after <==> if x == id then u == r.author && r.status == Rejected else x in before;
    if u == r.author && r.status != reports[id].status && r.status == Rejected {
      assert id !in before && after == before + {id};
    } else {
      assert after == before;
    }
  }

  /** A status change rewards the row exactly as it moves the sets. */
  lemma RewardBalances(user: User, was: Status, is': Status, now: int, authored: set<ReportId>, verified: set<ReportId>,
                       rejected: set<ReportId>, authored': set<ReportId>, verified': set<ReportId>, rejected': set<ReportId>)
    requires Balanced(user, authored, verified, rejected) && StandingOk(user)
    requires |authored'| == |authored|
    requires |verified'| == |verified| + (if was != is' && is' == Verified then 1 else 0)
    requires |rejected'| == |rejected| + (if was != is' && is' == Rejected then 1 else 0)
    ensures Balanced(Rewarded(user, was, is', now), authored', verified', rejected')
    ensures StandingOk(Rewarded(user, was, is', now)) && user.score <= Rewarded(user, was, is', now).score
  {
  }

  lemma VoteKeepsUser(cfg: Config, w: World, id: ReportId, voter: Pubkey, b: Ballot, nearby: bool, now: int, u: Pubkey)
    requires Inv(w) && id in w.reports && w.reports[id].author in w.users
    requires voter != w.reports[id].author && voter !in Voters(w.reports[id].votes)
    requires u in Counted(cfg, w, id, voter, b, nearby, now).users
    ensures Conserved(Counted(cfg, w, id, voter, b, nearby, now), u)
    ensures StandingOk(Counted(cfg, w, id, voter, b, nearby, now).users[u])
    ensures u in w.users ==> w.users[u].score <= Counted(cfg, w, id, voter, b, nearby, now).users[u].score
  {
    hide EstablishedConfirmers, LedgerOk, StatusOk, Settled, Tally, Authored, VerifiedOf, RejectedOf, Balanced, StandingOk, Rewarded,
      SnapshotsOk, Voters, HistoryOk;
    var w' := Counted(cfg, w, id, voter, b, nearby, now);
    var r, r' := w.reports[id], w'.reports[id];
    CountedReport(cfg, w, id, voter, b, nearby, now);
    assert HistoryOk(w.everVerified, id, r);
    AuthoredAfterVote(w.reports, id, r', u);
    VerifiedAfterVote(w.reports, w.everVerified, id, r', u);
    RejectedAfterVote(w.reports, id, r', u);
    if u !in w.users {
      StrangersHaveNoReports(w, u);
    } else {
      assert Conserved(w, u) && StandingOk(w.users[u]);
    }
    var was := if u == r.author then r.status else r'.status;
    RewardBalances(Known(w.users, u), was, r'.status, now,
                   Authored(w.reports, u), VerifiedOf(w.reports, w.everVerified, u), RejectedOf(w.reports, u),
                   Authored(w'.reports, u), VerifiedOf(w'.reports, w'.everVerified, u), RejectedOf(w'.reports, u));
    if u != r.author {
      UnmovedIsUnrewarded(Known(w.users, u), r'.status, now);
    }
  }

  lemma UnmovedIsUnrewarded(user: User, status: Status, now: int)
    ensures Rewarded(user, status, status, now) == user
  {
  }

  lemma VoteKeepsReports(cfg: Config, w: World, id: ReportId, voter: Pubkey, b: Ballot, nearby: bool, now: int)
    requires ReportsOk(w) && id in w.reports
    requires voter != w.reports[id].author && voter !in Voters(w.reports[id].votes)
    ensures ReportsOk(Counted(cfg, w, id, voter, b, nearby, now))
  {
    hide EstablishedConfirmers, LedgerOk, StatusOk, Tally, Rewarded, Settled, Voters;
    CountedReport(cfg, w, id, voter, b, nearby, now);
    var w' := Counted(cfg, w, id, voter, b, nearby, now);
    assert w'.reports == w.reports[id := w'.reports[id]];
  }

  lemma VoteKeepsInv(cfg: Config, w: World, id: ReportId, voter: Pubkey, vote: string, nearby: bool, now: int)
    requires Inv(w)
    ensures Inv(DoVote(cfg, w, id, voter, vote, nearby, now).world)
  {
    hide LedgerOk, StatusOk, HistoryOk, Conserved, StandingOk;
    if DoVote(cfg, w, id, voter, vote, nearby, now).reply == Done {
      var b := ParseVote(vote).value;
      var w' := Counted(cfg, w, id, voter, b, nearby, now);
      VoteKeepsReports(cfg, w, id, voter, b, nearby, now);
      hide ReportsOk, EstablishedConfirmers, Settled, Tally, Rewarded, Voters;
      forall u | u in w'.users
        ensures Conserved(w', u) && StandingOk(w'.users[u])
        ensures u in w.users ==> w.users[u].score <= w'.users[u].score
      {
        VoteKeepsUser(cfg, w, id, voter, b, nearby, now, u);
      }
      SnapshotsAge(w, w');
    }
  }

  // ----- decay

  lemma DecayKeepsInv(cfg: Config, w: World, s: Snapshot)
    requires Inv(w)
    ensures Inv(DoWriteDecay(cfg, w, s).world)
  {
    hide LedgerOk, StatusOk, HistoryOk, EffectiveScore, AccuracyRatio, Authored, VerifiedOf, RejectedOf;
    var w' := DoWriteDecay(cfg, w, s).world;
    if s in w.snapshots {
      EffectiveIsBounded(s.earned, s.days, AccuracyRatio(s.accurate, s.total), cfg.graceDays, cfg.horizonDays, cfg.floor);
    }
    forall u | u in w'.users
      ensures Conserved(w', u) && StandingOk(w'.users[u])
    {
      assert Conserved(w, u) && StandingOk(w.users[u]);
    }
    SnapshotsAge(w, w');
  }

  lemma OthersKeepInv(cfg: Config, w: World, r: Request)
    requires Inv(w) && (r.ReadForDecay? || r.ChangeVouches?)
    ensures Inv(Step(cfg, w, r).world)
  {
    hide LedgerOk, StatusOk, HistoryOk, StandingOk, Authored, VerifiedOf, RejectedOf, Balanced;
    var w' := Step(cfg, w, r).world;
    forall u | u in w'.users
      ensures Conserved(w', u) && StandingOk(w'.users[u])
    {
      assert Conserved(w, u) && StandingOk(w.users[u]);
    }
  }

  lemma StepKeepsInv(cfg: Config, w: World, r: Request)
    requires Inv(w)
    ensures Inv(Step(cfg, w, r).world)
  {
    hide Inv, DoCreate, DoVote, DoWriteDecay;
    match r
    case CreateReport(id, author) => CreateKeepsInv(w, id, author);
    case CastVote(id, voter, vote, nearby, now) => VoteKeepsInv(cfg, w, id, voter, vote, nearby, now);
    case WriteDecay(s) => DecayKeepsInv(cfg, w, s);
    case _ => OthersKeepInv(cfg, w, r);
  }

  /** Every reachable state satisfies the invariant. */
  lemma {:induction false} ReachableInv(cfg: Config, rs: seq<Request>, n: nat)
    requires n <= |rs|
    ensures Inv(At(cfg, rs, n))
  {
    if n > 0 {
      hide Step, Inv;
      ReachableInv(cfg, rs, n - 1);
      StepKeepsInv(cfg, At(cfg, rs, n - 1), rs[n - 1]);
    }
  }

  // ----- theorems over runs

  /**
   In every reachable state a report's counters are explained by its ledger of
   votes by distinct people other than the author: the score lies between
   seed + c - 11d and seed + 11c - d, and each status has the votes it needs.
   */
  lemma VotesExplainReport(cfg: Config, rs: seq<Request>, n: nat, id: ReportId)
    requires n <= |rs| && id in At(cfg, rs, n).reports
    ensures var r := At(cfg, rs, n).reports[id];
            && LedgerOk(r)
            && r.confirms + r.denies == |r.votes|
            && r.seed + r.confirms - 11 * r.denies <= r.score <= r.seed + 11 * r.confirms - r.denies
            && (r.status == Verified ==> r.confirms >= 3)
            && (r.status == Authoritative ==> r.confirms >= 4)
            && (r.status == Disputed ==> r.denies >= 3)
            && (r.status == Rejected ==> r.denies >= 1)
  {
    hide At;
    ReachableInv(cfg, rs, n);
    LedgerBounds(At(cfg, rs, n).reports[id].votes);
  }

  /** One step keeps every report and its author, and its status stays or climbs. */
  lemma StepClimbs(cfg: Config, w: World, r: Request, id: ReportId)
    requires Inv(w) && id in w.reports
    ensures var w' := Step(cfg, w, r).world;
            && id in w'.reports && w'.reports[id].author == w.reports[id].author
            && (w'.reports[id].status != w.reports[id].status ==> Rank(w.reports[id].status) < Rank(w'.reports[id].status))
            && w'.everVerified >= w.everVerified
            && (id in w'.everVerified <==> id in w.everVerified || w'.reports[id].status == Verified)
  {
    hide LedgerOk, StatusOk, Tally, Settled, EstablishedConfirmers, Rewarded, UsersOk, SnapshotsOk, Voters;
    assert HistoryOk(w.everVerified, id, w.reports[id]);
    if r.CastVote? && Step(cfg, w, r).reply == Done {
      CountedReport(cfg, w, r.id, r.voter, ParseVote(r.vote).value, r.nearby, r.now);
    }
  }

  /** Along a run a report keeps its author and its status rank never falls. */
  lemma {:induction false} StatusNeverFalls(cfg: Config, rs: seq<Request>, i: nat, j: nat, id: ReportId)
    requires i <= j <= |rs| && id in At(cfg, rs, i).reports
    ensures id in At(cfg, rs, j).reports
    ensures At(cfg, rs, j).reports[id].author == At(cfg, rs, i).reports[id].author
    ensures Rank(At(cfg, rs, i).reports[id].status) <= Rank(At(cfg, rs, j).reports[id].status)
  {
    hide Step, Inv;
    if i < j {
      StatusNeverFalls(cfg, rs, i, j - 1, id);
      ReachableInv(cfg, rs, j - 1);
      StepClimbs(cfg, At(cfg, rs, j - 1), rs[j - 1], id);
    }
  }

  /** Report `id` is verified in state `k` of the run. */
  predicate VerifiedAt(cfg: Config, rs: seq<Request>, k: nat, id: ReportId)
    requires k <= |rs|
  {
    id in At(cfg, rs, k).reports && At(cfg, rs, k).reports[id].status == Verified
  }

  /** The history set is what it says: the reports verified in some state so far. */
  lemma {:induction false} EverVerifiedIsHistory(cfg: Config, rs: seq<Request>, n: nat, id: ReportId)
    requires n <= |rs|
    ensures id in At(cfg, rs, n).everVerified <==> exists k :: 0 <= k <= n && VerifiedAt(cfg, rs, k, id)
  {
    hide Step, Inv, VerifiedAt;
    if n == 0 {
      NothingVerifiedYet(cfg, rs, id);
    } else {
      EverVerifiedIsHistory(cfg, rs, n - 1, id);
      ReachableInv(cfg, rs, n - 1);
      StepRecordsVerified(cfg, rs, n, id);
    }
  }

  lemma NothingVerifiedYet(cfg: Config, rs: seq<Request>, id: ReportId)
    ensures id !in At(cfg, rs, 0).everVerified && !VerifiedAt(cfg, rs, 0, id)
  {
  }

  lemma StepRecordsVerified(cfg: Config, rs: seq<Request>, n: nat, id: ReportId)
    requires 0 < n <= |rs| && Inv(At(cfg, rs, n - 1))
    ensures id in At(cfg, rs, n).everVerified <==> id in At(cfg, rs, n - 1).everVerified || VerifiedAt(cfg, rs, n, id)
  {
    var w := At(cfg, rs, n - 1);
    assert id in w.everVerified ==> id in w.reports;
    hide Inv, Step;
    if id in w.reports {
      StepClimbs(cfg, w, rs[n - 1], id);
    } else {
      NewReportsArePending(cfg, w, rs[n - 1], id);
    }
  }

  lemma NewReportsArePending(cfg: Config, w: World, r: Request, id: ReportId)
    requires id !in w.reports
    ensures var w' := Step(cfg, w, r).world;
            (id in w'.reports ==> w'.reports[id].status == Pending) && (id in w'.everVerified ==> id in w.everVerified)
  {
    hide Tally, Settled, EstablishedConfirmers, Rewarded, Voters;
  }

  /** Reports by `u` that have been verified in some state of the run so far. */
  ghost function OnceVerified(cfg: Config, rs: seq<Request>, n: nat, u: Pubkey): set<ReportId>
    requires n <= |rs|
  {
    set id | id in At(cfg, rs, n).reports && At(cfg, rs, n).reports[id].author == u &&
             exists k :: 0 <= k <= n && VerifiedAt(cfg, rs, k, id)
  }

  /**
   Reputation is conserved. For every user in every reachable state, total counts
   the reports they created, accurate those that were ever verified, the score is
   ten times that, and rejected counts those that stand rejected.
   */
  lemma ReputationIsConserved(cfg: Config, rs: seq<Request>, n: nat, u: Pubkey)
    requires n <= |rs| && u in At(cfg, rs, n).users
    ensures var w := At(cfg, rs, n);
            && w.users[u].total == |Authored(w.reports, u)|
            && w.users[u].accurate == |OnceVerified(cfg, rs, n, u)|
            && w.users[u].score == 10 * w.users[u].accurate
            && w.users[u].rejected == |RejectedOf(w.reports, u)|
            && w.users[u].accurate <= w.users[u].total
  {
    hide At, Step;
    ReachableInv(cfg, rs, n);
    var w := At(cfg, rs, n);
    assert Conserved(w, u);
    hide Inv;
    forall id | id in w.reports
      ensures id in w.everVerified <==> exists k :: 0 <= k <= n && VerifiedAt(cfg, rs, k, id)
    {
      EverVerifiedIsHistory(cfg, rs, n, id);
    }
    assert OnceVerified(cfg, rs, n, u) == VerifiedOf(w.reports, w.everVerified, u);
    SubsetSize(VerifiedOf(w.reports, w.everVerified, u), Authored(w.reports, u));
  }

  /** Request `k` takes report `id` into verified. */
  predicate VerifiesAt(cfg: Config, rs: seq<Request>, k: nat, id: ReportId)
    requires k < |rs|
  {
    VerifiedAt(cfg, rs, k + 1, id) && !VerifiedAt(cfg, rs, k, id)
  }

  /** A report is credited at most once: verified is entered at most once. */
  lemma VerifiedOnce(cfg: Config, rs: seq<Request>, i: nat, j: nat, id: ReportId)
    requires i < j < |rs| && VerifiesAt(cfg, rs, i, id)
    ensures !VerifiesAt(cfg, rs, j, id)
  {
    hide Step, Inv;
    StatusNeverFalls(cfg, rs, i + 1, j, id);
    ReachableInv(cfg, rs, j);
    StepClimbs(cfg, At(cfg, rs, j), rs[j], id);
  }

  /** Under any interleaving with decay passes, effective never exceeds earned and the tier is that of the effective score. */
  lemma StandingIsBounded(cfg: Config, rs: seq<Request>, n: nat, u: Pubkey)
    requires n <= |rs| && u in At(cfg, rs, n).users
    ensures var user := At(cfg, rs, n).users[u];
            && user.effective <= user.score
            && (user.tier == Sentinel <==> user.effective >= 50)
            && (user.tier == Veteran <==> 20 <= user.effective < 50)
            && (user.tier == Trusted <==> 5 <= user.effective < 20)
            && (user.tier == Newcomer <==> user.effective < 5)
  {
    hide At;
    ReachableInv(cfg, rs, n);
    assert StandingOk(At(cfg, rs, n).users[u]);
  }

  // ----- the personhood gate

  /** The distinct confirmers whom the personhood classifier calls established. */
  function ClassifiedConfirmers(cfg: Config, users: map<Pubkey, User>, vouches: set<Vouching>, votes: seq<Vote>, now: int): set<Pubkey> {
    set v | v in votes && v.ballot == Confirm && IsEstablished(Resolve(Tiers(users), vouches, cfg.roots, v.voter, now)) :: v.voter
  }

  /** The counting query counts exactly the confirmers the classifier calls established. */
  lemma QueryCountsEstablished(cfg: Config, users: map<Pubkey, User>, vouches: set<Vouching>, votes: seq<Vote>, now: int)
    ensures EstablishedConfirmers(cfg, users, vouches, votes, now) == ClassifiedConfirmers(cfg, users, vouches, votes, now)
  {
    hide InlineEstablished, Resolve, IsEstablished;
    forall v | v in votes
      ensures InlineEstablished(Tiers(users), vouches, cfg.roots, v.voter, now)
              <==> IsEstablished(Resolve(Tiers(users), vouches, cfg.roots, v.voter, now))
    {
      InlineAgreesWithClassifier(Tiers(users), vouches, cfg.roots, v.voter, now);
    }
  }

  /** With the gate on, a report turns verified with two distinct established confirmers and authoritative with three. */
  lemma GateNeedsEstablished(cfg: Config, w: World, r: Request, id: ReportId)
    requires cfg.requireEstablished && id in w.reports && id in Step(cfg, w, r).world.reports
    requires Step(cfg, w, r).world.reports[id].status in {Verified, Authoritative}
    requires Step(cfg, w, r).world.reports[id].status != w.reports[id].status
    ensures r.CastVote? && r.id == id
    ensures var users := w.users[r.voter := Known(w.users, r.voter)];
            var after := Step(cfg, w, r).world.reports[id];
            |ClassifiedConfirmers(cfg, users, w.vouches, after.votes, r.now)| >= if after.status == Verified then 2 else 3
  {
    hide EstablishedConfirmers, ClassifiedConfirmers, Voters, Rewarded;
    var users := w.users[r.voter := Known(w.users, r.voter)];
    QueryCountsEstablished(cfg, users, w.vouches, Step(cfg, w, r).world.reports[id].votes, r.now);
  }

  // ----- an undisturbed decay pass

  /** A user's row after a decay pass that nothing interrupts. */
  function Passed(cfg: Config, pubkey: Pubkey, user: User, now: int): User {
    if Decays(cfg, user, now)
    then
      var score := DecayedScore(cfg, SnapshotOf(pubkey, user, now));
      user.(effective := score, tier := ComputeTier(score))
    else user
  }

  function AfterPass(cfg: Config, users: map<Pubkey, User>, now: int): map<Pubkey, User> {
    map u | u in users :: Passed(cfg, u, users[u], now)
  }

  /** Passes do not compound: a second pass at the same time changes nothing. */
  lemma PassIsIdempotent(cfg: Config, users: map<Pubkey, User>, now: int)
    ensures AfterPass(cfg, AfterPass(cfg, users, now), now) == AfterPass(cfg, users, now)
  {
    hide DecayedScore;
    forall u | u in users
      ensures Passed(cfg, u, Passed(cfg, u, users[u], now), now) == Passed(cfg, u, users[u], now)
    {
      var once := Passed(cfg, u, users[u], now);
      assert Decays(cfg, once, now) == Decays(cfg, users[u], now);
      assert Decays(cfg, once, now) ==> SnapshotOf(u, once, now) == SnapshotOf(u, users[u], now);
    }
  }
}
