/**
 Community reports: the vote ledger, the counters and status it drives, the
 author's reputation those drive in turn, and the decay worker that runs without
 locks in between.
 */
module Reports {
  import opened Common
  import opened Consensus
  import opened Personhood
  import opened Decay

  type ReportId = nat

  datatype Config = Config(roots: set<Pubkey>, requireEstablished: bool, graceDays: nat, horizonDays: nat, floor: int)

  datatype Ballot = Confirm | Deny

  /** A vote row; `magnitude` is the weight it was counted with. */
  datatype Vote = Vote(voter: Pubkey, ballot: Ballot, nearby: bool, magnitude: int)

  /** A report row with its author and its vote rows; `seed` is the score it was created with. */
  datatype Report = Report(author: Pubkey, seed: int, score: int, confirms: int, denies: int, status: Status, votes: seq<Vote>)

  datatype User = User(total: int, accurate: int, rejected: int, score: int, effective: int, tier: Tier,
                       lastVerified: Option<int>)

  const NewUser := User(0, 0, 0, 0, 0, Newcomer, None)

  /** What a decay pass has read of one user and will write back from, however late. */
  datatype Snapshot = Snapshot(pubkey: Pubkey, earned: int, accurate: int, total: int, days: int)

  /** `everVerified` is history: the reports whose status has at some point been verified. */
  datatype World = World(
    users: map<Pubkey, User>,
    reports: map<ReportId, Report>,
    vouches: set<Vouching>,
    snapshots: set<Snapshot>,
    everVerified: set<ReportId>)

  datatype Request =
    | CreateReport(id: ReportId, author: Pubkey)
    | CastVote(id: ReportId, voter: Pubkey, vote: string, nearby: bool, now: int)
    | ReadForDecay(now: int)
    | WriteDecay(snapshot: Snapshot)
    | ChangeVouches(vouches: set<Vouching>)

  datatype Reply = Done | NotFound | BadRequest | Internal

  datatype Outcome = Outcome(world: World, reply: Reply)

  // ----- votes

  function ParseVote(vote: string): Option<Ballot> {
    if vote == "CONFIRM" then Some(Confirm) else if vote == "DENY" then Some(Deny) else None
  }

  function Magnitude(tier: Tier, nearby: bool): int {
    VoteWeight(tier) + if nearby && tier != Newcomer then 1 else 0
  }

  function Voters(votes: seq<Vote>): set<Pubkey> {
    set v | v in votes :: v.voter
  }

  function Tally(r: Report, v: Vote): Report {
    match v.ballot
    case Confirm => r.(score := r.score + v.magnitude, confirms := r.confirms + 1, votes := r.votes + [v])
    case Deny => r.(score := r.score - v.magnitude, denies := r.denies + 1, votes := r.votes + [v])
  }

  function Tiers(users: map<Pubkey, User>): map<Pubkey, Tier> {
    map u | u in users :: users[u].tier
  }

  /** The distinct confirmers the counting query counts. */
  function EstablishedConfirmers(cfg: Config, users: map<Pubkey, User>, vouches: set<Vouching>, votes: seq<Vote>, now: int): set<Pubkey> {
    set v | v in votes && v.ballot == Confirm && InlineEstablished(Tiers(users), vouches, cfg.roots, v.voter, now) :: v.voter
  }

  // ----- reputation

  function Credited(u: User, now: int): User {
    var earned := u.score + 10;
    u.(accurate := u.accurate + 1, score := earned, effective := earned, tier := ComputeTier(earned), lastVerified := Some(now))
  }

  /** What a status change does to the author's row. */
  function Rewarded(u: User, before: Status, after: Status, now: int): User {
    if before == after then u
    else if after == Verified then Credited(u, now)
    else if after == Rejected then u.(rejected := u.rejected + 1)
    else u
  }

  function Known(users: map<Pubkey, User>, pubkey: Pubkey): User {
    if pubkey in users then users[pubkey] else NewUser
  }

  // ----- requests

  function DoCreate(w: World, id: ReportId, author: Pubkey): Outcome {
    if id in w.reports then Outcome(w, Internal)
    else
      var row := Known(w.users, author).(total := Known(w.users, author).total + 1);
      var seed := TierScore(row.tier);
      Outcome(w.(users := w.users[author := row], reports := w.reports[id := Report(author, seed, seed, 0, 0, Pending, [])]), Done)
  }

  /** The locked part of `cast_vote`, for a voter who has not voted on this report and did not write it. */
  function Counted(cfg: Config, w: World, id: ReportId, voter: Pubkey, ballot: Ballot, nearby: bool, now: int): World
    requires id in w.reports && w.reports[id].author in w.users
  {
    var r := w.reports[id];
    var users := w.users[voter := Known(w.users, voter)];
    var tallied := Tally(r, Vote(voter, ballot, nearby, Magnitude(users[voter].tier, nearby)));
    var established := |EstablishedConfirmers(cfg, users, w.vouches, tallied.votes, now)|;
    var status := Settled(r.status, tallied.score, tallied.confirms, tallied.denies, established, cfg.requireEstablished);
    w.(users := users[r.author := Rewarded(users[r.author], r.status, status, now)],
       reports := w.reports[id := tallied.(status := status)],
       everVerified := if status == Verified then w.everVerified + {id} else w.everVerified)
  }

  /** The route's checks, the self-vote guard, and the unique (report, voter) constraint. */
  function DoVote(cfg: Config, w: World, id: ReportId, voter: Pubkey, vote: string, nearby: bool, now: int): Outcome {
    match ParseVote(vote)
    case None => Outcome(w, BadRequest)
    case Some(ballot) =>
      if id !in w.reports then Outcome(w, NotFound)
      else if w.reports[id].author == voter then Outcome(w, BadRequest)
      else if voter in Voters(w.reports[id].votes) then Outcome(w, BadRequest)
      else if w.reports[id].author !in w.users then Outcome(w, Internal)
      else Outcome(Counted(cfg, w, id, voter, ballot, nearby, now), Done)
  }

  const SECS_PER_DAY := 86400

  /** Users the decay query selects: verified once, past grace, and above the floor. */
  predicate Decays(cfg: Config, u: User, now: int) {
    u.lastVerified.Some? && u.lastVerified.value < now - cfg.graceDays * SECS_PER_DAY && u.score > cfg.floor
  }

  function SnapshotOf(pubkey: Pubkey, u: User, now: int): Snapshot
    requires u.lastVerified.Some?
  {
    Snapshot(pubkey, u.score, u.accurate, u.total, (now - u.lastVerified.value) / SECS_PER_DAY)
  }

  function Snapshots(cfg: Config, users: map<Pubkey, User>, now: int): set<Snapshot> {
    set u | u in users && Decays(cfg, users[u], now) :: SnapshotOf(u, users[u], now)
  }

  function DecayedScore(cfg: Config, s: Snapshot): int {
    EffectiveScore(s.earned, s.days, AccuracyRatio(s.accurate, s.total), cfg.graceDays, cfg.horizonDays, cfg.floor)
  }

  /** One unlocked `UPDATE users` of a decay pass, from what it read earlier. */
  function DoWriteDecay(cfg: Config, w: World, s: Snapshot): Outcome {
    if s !in w.snapshots || s.pubkey !in w.users then Outcome(w, Done)
    else
      var score := DecayedScore(cfg, s);
      Outcome(w.(users := w.users[s.pubkey := w.users[s.pubkey].(effective := score, tier := ComputeTier(score))]), Done)
  }

  function Step(cfg: Config, w: World, r: Request): Outcome {
    match r
    case CreateReport(id, author) => DoCreate(w, id, author)
    case CastVote(id, voter, vote, nearby, now) => DoVote(cfg, w, id, voter, vote, nearby, now)
    case ReadForDecay(now) => Outcome(w.(snapshots := w.snapshots + Snapshots(cfg, w.users, now)), Done)
    case WriteDecay(s) => DoWriteDecay(cfg, w, s)
    case ChangeVouches(vouches) => Outcome(w.(vouches := vouches), Done)
  }

  const Empty := World(map[], map[], {}, {}, {})

  /** The tables after the first `n` requests; every request sequence is a run. */
  function At(cfg: Config, rs: seq<Request>, n: nat): World
    requires n <= |rs|
  {
    if n == 0 then Empty else Step(cfg, At(cfg, rs, n - 1), rs[n - 1]).world
  }
}
