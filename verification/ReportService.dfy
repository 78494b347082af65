/**
 `create_report`, `cast_vote` and `decay_pass` as they update the tables. Each
 performs steps of `Reports`, so every table state is a state of a run.
 */
module ReportService {
  import opened Common
  import opened Consensus
  import opened Personhood
  import opened Decay
  import opened Reports
  import opened ReportRuns

  lemma {:induction false} AtPrefix(cfg: Config, rs: seq<Request>, r: Request, n: nat)
    requires n <= |rs|
    ensures At(cfg, rs + [r], n) == At(cfg, rs, n)
  {
    hide Step;
    if n > 0 {
      AtPrefix(cfg, rs, r, n - 1);
    }
  }

  lemma PassedRow(cfg: Config, u: Pubkey, user: User, now: int)
    ensures !Decays(cfg, user, now) ==> Passed(cfg, u, user, now) == user
    ensures Decays(cfg, user, now) ==>
              && user.lastVerified.Some?
              && var s := SnapshotOf(u, user, now);
                 && s.pubkey == u
                 && Passed(cfg, u, user, now) == user.(effective := DecayedScore(cfg, s), tier := ComputeTier(DecayedScore(cfg, s)))
  {
    hide DecayedScore, ComputeTier;
  }

  class Service {
    const cfg: Config
    var users: map<Pubkey, User>
    var reports: map<ReportId, Report>
    var vouches: set<Vouching>
    ghost var snapshots: set<Snapshot>
    ghost var everVerified: set<ReportId>
    ghost var log: seq<Request>

    ghost function View(): World
      reads this
    {
      World(users, reports, vouches, snapshots, everVerified)
    }

    ghost predicate Valid()
      reads this
    {
      View() == At(cfg, log, |log|)
    }

    constructor (cfg: Config)
      ensures Valid() && this.cfg == cfg && View() == Empty && log == []
    {
      this.cfg := cfg;
      users, reports, vouches := map[], map[], {};
      snapshots, everVerified, log := {}, {}, [];
    }

    ghost method Record(before: World, r: Request)
      requires before == At(cfg, log, |log|) && View() == Step(cfg, before, r).world
      modifies this`log
      ensures log == old(log) + [r] && Valid()
    {
      hide Step;
      AtPrefix(cfg, log, r, |log|);
      log := log + [r];
    }

    method CreateReport(id: ReportId, author: Pubkey) returns (reply: Reply)
      requires Valid()
      modifies this
      ensures Valid() && log == old(log) + [Request.CreateReport(id, author)]
      ensures Outcome(View(), reply) == Step(cfg, old(View()), Request.CreateReport(id, author))
    {
      ghost var before := View();
      if id in reports {
        reply := Internal;
      } else {
        if author in users {
          users := users[author := users[author].(total := users[author].total + 1)];
        } else {
          users := users[author := NewUser.(total := 1)];
        }
        var seed := TierScore(users[author].tier);
        reports := reports[id := Report(author, seed, seed, 0, 0, Pending, [])];
        reply := Done;
      }
      Record(before, Request.CreateReport(id, author));
    }

    method CastVote(id: ReportId, voter: Pubkey, vote: string, nearby: bool, now: int) returns (reply: Reply)
      requires Valid()
      modifies this
      ensures Valid() && log == old(log) + [Request.CastVote(id, voter, vote, nearby, now)]
      ensures Outcome(View(), reply) == Step(cfg, old(View()), Request.CastVote(id, voter, vote, nearby, now))
    {
      hide EstablishedConfirmers, Settled, Voters, InlineEstablished;
      ghost var before := View();
      var ballot := ParseVote(vote);
      if ballot.None? {
        reply := BadRequest;
      } else if id !in reports {
        reply := NotFound;
      } else if reports[id].author == voter || voter in Voters(reports[id].votes) {
        reply := BadRequest;
      } else if reports[id].author !in users {
        reply := Internal;
      } else {
        Count(id, voter, ballot.value, nearby, now);
        reply := Done;
      }
      Record(before, Request.CastVote(id, voter, vote, nearby, now));
    }

    /** The statements of the vote transaction, in order. */
    method Count(id: ReportId, voter: Pubkey, ballot: Ballot, nearby: bool, now: int)
      requires id in reports && reports[id].author in users
      modifies this`users, this`reports, this`everVerified
      ensures View() == Counted(cfg, old(View()), id, voter, ballot, nearby, now)
    {
      hide EstablishedConfirmers, ComputeNewStatus, Rewarded, VoteWeight;
      var author, before := reports[id].author, reports[id].status;
      if voter !in users {
        users := users[voter := NewUser];
      }
      var weight := VoteWeight(users[voter].tier);
      var bonus := if nearby && users[voter].tier != Newcomer then 1 else 0;
      var row := Vote(voter, ballot, nearby, weight + bonus);
      reports := reports[id := Tally(reports[id], row)];
      var r := reports[id];
      var established := |EstablishedConfirmers(cfg, users, vouches, r.votes, now)|;
      var next := ComputeNewStatus(before, r.score, r.confirms, r.denies, established, cfg.requireEstablished);
      ghost var after := Settled(before, r.score, r.confirms, r.denies, established, cfg.requireEstablished);
      ghost var voting := users;
      assert voting == old(users)[voter := Known(old(users), voter)];
      if next.Some? {
        StatusClimbs(before, r.score, r.confirms, r.denies, established, cfg.requireEstablished);
        reports := reports[id := r.(status := next.value)];
        Reward(author, before, next.value, now);
      }
      UnmovedIsUnrewarded(voting[author], before, now);
      assert users == voting[author := Rewarded(voting[author], before, after, now)];
      assert reports == old(reports)[id := r.(status := after)];
      everVerified := if after == Verified then everVerified + {id} else everVerified;
    }

    /** The author's row on a status change: credit on verified, a mark on rejected. */
    method Reward(author: Pubkey, before: Status, after: Status, now: int)
      requires author in users && before != after
      modifies this`users
      ensures users == old(users)[author := Rewarded(old(users)[author], before, after, now)]
    {
      if after == Verified {
        var u := users[author];
        users := users[author := u.(accurate := u.accurate + 1, score := u.score + 10, effective := u.score + 10,
                                   lastVerified := Some(now))];
        users := users[author := users[author].(tier := ComputeTier(users[author].score))];
      } else if after == Rejected {
        users := users[author := users[author].(rejected := users[author].rejected + 1)];
      }
    }

    /** Anybody's standing as the tables show it. */
    method Standing(u: Pubkey) returns (row: Option<User>)
      requires Valid()
      ensures row == if u in users then Some(users[u]) else None
      ensures row.Some? ==>
                && row.value.effective <= row.value.score && row.value.tier == ComputeTier(row.value.effective)
                && row.value.score == 10 * row.value.accurate && row.value.accurate <= row.value.total
    {
      if u !in users {
        return None;
      }
      StandingIsBounded(cfg, log, |log|, u);
      ReputationIsConserved(cfg, log, |log|, u);
      return Some(users[u]);
    }

    /** One decay pass with nothing in between: every selected user ends at the curve's score and its tier. */
    method DecayPass(now: int)
      requires Valid()
      modifies this
      ensures Valid() && reports == old(reports) && users == AfterPass(cfg, old(users), now)
    {
      hide DecayedScore, Step, At, ComputeTier, Passed, Decays, SnapshotOf;
      var rows := SelectRows(now);
      ghost var start := users;
      var todo := rows.Keys;
      while todo != {}
        invariant Valid() && todo <= rows.Keys && reports == old(reports) && users.Keys == start.Keys
        invariant forall u :: u in rows ==> rows[u] in snapshots
        invariant forall u :: u in users ==>
                    users[u] == if u in rows && u !in todo then Passed(cfg, u, start[u], now) else start[u]
        decreases |todo|
      {
        var u :| u in todo;
        PassedRow(cfg, u, start[u], now);
        WriteBack(rows[u]);
        todo := todo - {u};
      }
      forall u | u in start
        ensures users[u] == Passed(cfg, u, start[u], now)
      {
        PassedRow(cfg, u, start[u], now);
      }
      assert users == AfterPass(cfg, start, now);
    }

    /** The selecting query of a pass. */
    method SelectRows(now: int) returns (rows: map<Pubkey, Snapshot>)
      requires Valid()
      modifies this`snapshots, this`log
      ensures Valid() && log == old(log) + [ReadForDecay(now)]
      ensures forall u :: u in rows <==> u in users && Decays(cfg, users[u], now)
      ensures forall u :: u in rows ==> rows[u] == SnapshotOf(u, users[u], now) && rows[u] in snapshots
    {
      ghost var before := View();
      rows := map u | u in users && Decays(cfg, users[u], now) :: SnapshotOf(u, users[u], now);
      snapshots := snapshots + Snapshots(cfg, users, now);
      Record(before, ReadForDecay(now));
    }

    /** One row's update, from what the pass read. */
    method WriteBack(s: Snapshot)
      requires Valid() && s in snapshots && s.pubkey in users
      modifies this`users, this`log
      ensures Valid() && log == old(log) + [WriteDecay(s)]
      ensures users == old(users)[s.pubkey := old(users)[s.pubkey].(effective := DecayedScore(cfg, s),
                                                                     tier := ComputeTier(DecayedScore(cfg, s)))]
    {
      ghost var before := View();
      var eff := EffectiveScore(s.earned, s.days, AccuracyRatio(s.accurate, s.total), cfg.graceDays, cfg.horizonDays, cfg.floor);
      users := users[s.pubkey := users[s.pubkey].(effective := eff, tier := ComputeTier(eff))];
      Record(before, WriteDecay(s));
    }
  }
}
