/**
 What one accepted request does to the tables of reports, in terms of the ledger and
 the numbers the design names: seeds, vote weights, thresholds and selection limits.
 */
module ReportLaws {
  import opened Common
  import opened Consensus
  import opened Personhood
  import opened Decay
  import opened Reports
  import opened ReportRuns

  /** Request `k` is an accepted vote. */
  predicate VotesAt(cfg: Config, rs: seq<Request>, k: nat)
    requires k < |rs|
  {
    rs[k].CastVote? && Step(cfg, At(cfg, rs, k), rs[k]).reply == Done
  }

  /** The tier somebody has, with or without a user row. */
  function TierOf(w: World, u: Pubkey): Tier {
    if u in w.users then w.users[u].tier else Newcomer
  }

  // ----- new reports

  /** A report starts pending, without votes, at one to four points by its author's tier; the author has one report more. */
  lemma NewReport(cfg: Config, rs: seq<Request>, k: nat)
    requires k < |rs| && rs[k].CreateReport? && rs[k].id !in At(cfg, rs, k).reports
    ensures var w, w', id, author := At(cfg, rs, k), At(cfg, rs, k + 1), rs[k].id, rs[k].author;
            && w'.reports.Keys == w.reports.Keys + {id} && (forall x :: x in w.reports ==> w'.reports[x] == w.reports[x])
            && w'.reports[id].author == author && w'.reports[id].votes == [] && w'.reports[id].status == Pending
            && w'.reports[id].score == w'.reports[id].seed
            && (TierOf(w, author) == Newcomer <==> w'.reports[id].seed == 1)
            && (TierOf(w, author) == Trusted <==> w'.reports[id].seed == 2)
            && (TierOf(w, author) == Veteran <==> w'.reports[id].seed == 3)
            && (TierOf(w, author) == Sentinel <==> w'.reports[id].seed == 4)
            && author in w'.users && w'.users[author].total == 1 + (if author in w.users then w.users[author].total else 0)
            && TierOf(w', author) == TierOf(w, author)
            && forall u :: u != author ==> (u in w.users <==> u in w'.users) && (u in w.users ==> w'.users[u] == w.users[u])
  {
    hide Counted, DoVote, Snapshots;
  }

  // ----- votes

  /** A vote is accepted exactly when it says confirm or deny, of a known report, by somebody else who has not voted on it. */
  lemma VoteIsAcceptedIff(cfg: Config, rs: seq<Request>, k: nat)
    requires k < |rs| && rs[k].CastVote?
    ensures var w, r := At(cfg, rs, k), rs[k];
            VotesAt(cfg, rs, k) <==>
            && (r.vote == "CONFIRM" || r.vote == "DENY")
            && r.id in w.reports && w.reports[r.id].author != r.voter
            && forall v :: v in w.reports[r.id].votes ==> v.voter != r.voter
  {
    ReachableInv(cfg, rs, k);
    hide At, Counted, UsersOk, SnapshotsOk, LedgerOk, StatusOk, HistoryOk;
  }

  /** What a vote weighs by its voter's tier; being nearby adds a point, except for newcomers. */
  predicate Weighs(tier: Tier, nearby: bool, magnitude: int) {
    var bonus := if nearby then 1 else 0;
    match tier
    case Newcomer => magnitude == 1
    case Trusted => magnitude == 3 + bonus
    case Veteran => magnitude == 6 + bonus
    case Sentinel => magnitude == 10 + bonus
  }

  /** An accepted vote appends its ballot, weighed by the voter's tier, to the ledger of its report and to no other. */
  lemma VoteLands(cfg: Config, rs: seq<Request>, k: nat)
    requires k < |rs| && VotesAt(cfg, rs, k)
    ensures var w, w', r := At(cfg, rs, k), At(cfg, rs, k + 1), rs[k];
            && w'.reports.Keys == w.reports.Keys && r.id in w.reports
            && (forall x :: x in w.reports && x != r.id ==> w'.reports[x] == w.reports[x])
            && var v := Vote(r.voter, if r.vote == "CONFIRM" then Confirm else Deny, r.nearby,
                             w'.reports[r.id].votes[|w'.reports[r.id].votes| - 1].magnitude);
               && w'.reports[r.id].votes == w.reports[r.id].votes + [v]
               && Weighs(TierOf(w, r.voter), r.nearby, v.magnitude)
  {
    assert At(cfg, rs, k + 1) == Step(cfg, At(cfg, rs, k), rs[k]).world;
    hide At, EstablishedConfirmers, Settled, Rewarded;
  }

  /** A vote gives its voter a row if need be and otherwise touches nobody but the author. */
  lemma VoteTouchesOnly(cfg: Config, rs: seq<Request>, k: nat, u: Pubkey)
    requires k < |rs| && VotesAt(cfg, rs, k) && u != At(cfg, rs, k).reports[rs[k].id].author
    ensures var w, w' := At(cfg, rs, k), At(cfg, rs, k + 1);
            && (u in w.users ==> u in w'.users && w'.users[u] == w.users[u])
            && (u !in w.users ==> (u in w'.users <==> u == rs[k].voter))
            && (u !in w.users && u in w'.users ==> w'.users[u] == User(0, 0, 0, 0, 0, Newcomer, None))
  {
    assert At(cfg, rs, k + 1) == Step(cfg, At(cfg, rs, k), rs[k]).world;
    hide At, EstablishedConfirmers, Settled, Rewarded, Tally;
  }

  // ----- statuses

  /**
   Exactly where a status goes with the next vote, given `c` confirmations, `d`
   denials, `total` points and `established` established confirmers.
   */
  predicate Moves(before: Status, after: Status, c: int, d: int, total: int, established: int, gate: bool) {
    var outnumbered := d >= 3 && d > c;
    match before
    case Pending =>
      && after in {Pending, Unverified, Rejected}
      && (after == Rejected <==> total <= -5)
      && (after == Unverified <==> total >= 3 && c >= 2)
    case Unverified =>
      && after in {Unverified, Verified, Disputed}
      && (after == Disputed <==> outnumbered)
      && (after == Verified <==> !outnumbered && total >= 7 && c >= 3 && (gate ==> established >= 2))
    case Verified =>
      && after in {Verified, Authoritative, Disputed}
      && (after == Disputed <==> outnumbered)
      && (after == Authoritative <==> !outnumbered && total >= 15 && c >= 4 && (gate ==> established >= 3))
    case Authoritative => after in {Authoritative, Disputed} && (after == Disputed <==> outnumbered)
    case Disputed => after in {Disputed, Rejected} && (after == Rejected <==> total <= -5)
    case Rejected => after == Rejected
  }

  lemma SettledMoves(before: Status, score: int, c: int, d: int, established: int, gate: bool)
    ensures Moves(before, Settled(before, score, c, d, established, gate), c, d, score, established, gate)
  {
  }

  lemma SettledByVote(cfg: Config, w: World, r: Request)
    requires r.CastVote? && Step(cfg, w, r).reply == Done
    ensures r.id in w.reports && r.id in Step(cfg, w, r).world.reports
    ensures var after, users := Step(cfg, w, r).world.reports[r.id], w.users[r.voter := Known(w.users, r.voter)];
            after.status == Settled(w.reports[r.id].status, after.score, after.confirms, after.denies,
                                    |EstablishedConfirmers(cfg, users, w.vouches, after.votes, r.now)|, cfg.requireEstablished)
  {
    hide EstablishedConfirmers, Settled, Rewarded, Voters, VoteWeight;
  }

  /** After every accepted vote the report stands where its ledger puts it. */
  lemma StatusFollowsLedger(cfg: Config, rs: seq<Request>, k: nat)
    requires k < |rs| && VotesAt(cfg, rs, k)
    ensures var w, r := At(cfg, rs, k), rs[k];
            && r.id in w.reports && r.id in At(cfg, rs, k + 1).reports
            && var before, after := w.reports[r.id], At(cfg, rs, k + 1).reports[r.id];
               var users := w.users[r.voter := Known(w.users, r.voter)];
               Moves(before.status, after.status, CountOf(after.votes, Confirm), CountOf(after.votes, Deny),
                     after.seed + SignedSum(after.votes),
                     |ClassifiedConfirmers(cfg, users, w.vouches, after.votes, r.now)|, cfg.requireEstablished)
  {
    hide Step, Settled, EstablishedConfirmers, ClassifiedConfirmers, CountOf, SignedSum, Voters, Moves;
    var w, r := At(cfg, rs, k), rs[k];
    SettledByVote(cfg, w, r);
    var before, after := w.reports[r.id], At(cfg, rs, k + 1).reports[r.id];
    VotesExplainReport(cfg, rs, k + 1, r.id);
    var users := w.users[r.voter := Known(w.users, r.voter)];
    QueryCountsEstablished(cfg, users, w.vouches, after.votes, r.now);
    SettledMoves(before.status, after.score, after.confirms, after.denies,
                 |EstablishedConfirmers(cfg, users, w.vouches, after.votes, r.now)|, cfg.requireEstablished);
  }

  /** In every reachable state nothing verified is outnumbered by denials, and nothing pending is down to -5 points. */
  lemma {:induction false} VerifiedIsNotOutnumbered(cfg: Config, rs: seq<Request>, n: nat, id: ReportId)
    requires n <= |rs| && id in At(cfg, rs, n).reports
    ensures var r := At(cfg, rs, n).reports[id];
            var c, d := CountOf(r.votes, Confirm), CountOf(r.votes, Deny);
            && (r.status in {Verified, Authoritative} ==> d < 3 || d <= c)
            && (r.status == Pending ==> r.seed + SignedSum(r.votes) > -5)
  {
    hide Step, CountOf, SignedSum;
    var k := n - 1;
    assert At(cfg, rs, n) == Step(cfg, At(cfg, rs, k), rs[k]).world;
    if VotesAt(cfg, rs, k) && rs[k].id == id {
      StatusFollowsLedger(cfg, rs, k);
      VoteLands(cfg, rs, k);
      if id in At(cfg, rs, k).reports {
        VerifiedIsNotOutnumbered(cfg, rs, k, id);
      }
    } else if id in At(cfg, rs, k).reports {
      OtherRequestsKeep(cfg, rs, k, id);
      VerifiedIsNotOutnumbered(cfg, rs, k, id);
    } else {
      BornPending(cfg, rs, k, id);
    }
  }

  lemma OtherRequestsKeep(cfg: Config, rs: seq<Request>, k: nat, id: ReportId)
    requires k < |rs| && id in At(cfg, rs, k).reports && !(VotesAt(cfg, rs, k) && rs[k].id == id)
    ensures id in At(cfg, rs, k + 1).reports && At(cfg, rs, k + 1).reports[id] == At(cfg, rs, k).reports[id]
  {
    hide EstablishedConfirmers, Settled, Rewarded, Tally;
  }

  lemma BornPending(cfg: Config, rs: seq<Request>, k: nat, id: ReportId)
    requires k < |rs| && id !in At(cfg, rs, k).reports && id in At(cfg, rs, k + 1).reports
    ensures var r := At(cfg, rs, k + 1).reports[id]; r.status == Pending && r.votes == [] && r.seed + SignedSum(r.votes) > -5
  {
    hide EstablishedConfirmers, Settled, Rewarded, Tally;
  }

  // ----- decay

  /** A decay read takes exactly the users verified once, more than the grace days ago, and above the floor. */
  lemma ReadTakes(cfg: Config, rs: seq<Request>, k: nat, s: Snapshot)
    requires k < |rs| && rs[k].ReadForDecay?
    ensures var w, now := At(cfg, rs, k), rs[k].now;
            s in At(cfg, rs, k + 1).snapshots <==>
            || s in w.snapshots
            || (&& s.pubkey in w.users && w.users[s.pubkey].lastVerified.Some?
                && now - w.users[s.pubkey].lastVerified.value > cfg.graceDays * 86400 && w.users[s.pubkey].score > cfg.floor
                && s.earned == w.users[s.pubkey].score && s.accurate == w.users[s.pubkey].accurate
                && s.total == w.users[s.pubkey].total
                && s.days * 86400 <= now - w.users[s.pubkey].lastVerified.value < (s.days + 1) * 86400)
  {
  }

  /** A decay write puts its user on the decay curve of what was read, and touches nobody else. */
  lemma WriteLands(cfg: Config, rs: seq<Request>, k: nat, u: Pubkey)
    requires k < |rs| && rs[k].WriteDecay? && rs[k].snapshot in At(cfg, rs, k).snapshots && u in At(cfg, rs, k).users
    ensures u in At(cfg, rs, k + 1).users
    ensures var s, user, user' := rs[k].snapshot, At(cfg, rs, k).users[u], At(cfg, rs, k + 1).users[u];
            && user' == user.(effective := user'.effective, tier := user'.tier)
            && (u != s.pubkey ==> user' == user)
            && (u == s.pubkey ==>
                  user'.effective == EffectiveScore(s.earned, s.days, AccuracyRatio(s.accurate, s.total),
                                                    cfg.graceDays, cfg.horizonDays, cfg.floor))
  {
    hide EffectiveScore, AccuracyRatio;
  }
}
