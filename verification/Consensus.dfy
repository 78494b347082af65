/** Reputation tiers, vote weights and the status ladder of community reports. */
module Consensus {
  import opened Common

  datatype Tier = Newcomer | Trusted | Veteran | Sentinel

  function TierScore(t: Tier): int {
    match t
    case Newcomer => 1
    case Trusted => 2
    case Veteran => 3
    case Sentinel => 4
  }

  function VoteWeight(t: Tier): int {
    match t
    case Newcomer => 1
    case Trusted => 3
    case Veteran => 6
    case Sentinel => 10
  }

  function ComputeTier(score: int): Tier {
    if score >= 50 then Sentinel
    else if score >= 20 then Veteran
    else if score >= 5 then Trusted
    else Newcomer
  }

  datatype Status = Pending | Unverified | Verified | Authoritative | Disputed | Rejected

  function Rank(s: Status): nat {
    match s
    case Pending => 0
    case Unverified => 1
    case Verified => 2
    case Authoritative => 3
    case Disputed => 4
    case Rejected => 5
  }

  function ComputeNewStatus(status: Status, score: int, confirms: int, denies: int, established: int,
                            requireEstablished: bool): Option<Status>
  {
    if status in {Pending, Disputed} && score <= -5 then Some(Rejected)
    else if status in {Unverified, Verified, Authoritative} && denies >= 3 && denies > confirms then Some(Disputed)
    else if status == Pending && score >= 3 && confirms >= 2 then Some(Unverified)
    else if status == Unverified && score >= 7 && confirms >= 3 && (!requireEstablished || established >= 2)
    then Some(Verified)
    else if status == Verified && score >= 15 && confirms >= 4 && (!requireEstablished || established >= 3)
    then Some(Authoritative)
    else None
  }

  function Settled(status: Status, score: int, confirms: int, denies: int, established: int,
                   requireEstablished: bool): Status
  {
    match ComputeNewStatus(status, score, confirms, denies, established, requireEstablished)
    case Some(s) => s
    case None => status
  }

  /** Every transition strictly climbs; verified is reached from unverified only, authoritative from verified only. */
  lemma StatusClimbs(status: Status, score: int, confirms: int, denies: int, established: int, gate: bool)
    ensures var next := ComputeNewStatus(status, score, confirms, denies, established, gate);
            next.Some? ==>
              && Rank(status) < Rank(next.value)
              && (next.value == Verified ==> status == Unverified)
              && (next.value == Authoritative ==> status == Verified)
  {
  }
}

/**
 Personhood: why a pubkey counts as established for the consensus gate.
 */
module Personhood {
  import opened Common
  import opened Consensus

  type Pubkey = string

  datatype PersonhoodSource = Nobody | Root | Reputation | Vouch | Multiple

  datatype Vouching = Vouching(voucher: Pubkey, vouchee: Pubkey, revoked: bool, expiresAt: Option<int>)

  function Count(b: bool): nat {
    if b then 1 else 0
  }

  function Classify(isRoot: bool, tierEstablished: bool, hasActiveVouch: bool): PersonhoodSource {
    match Count(isRoot) + Count(tierEstablished) + Count(hasActiveVouch)
    case 0 => Nobody
    case 1 => if isRoot then Root else if tierEstablished then Reputation else Vouch
    case _ => Multiple
  }

  /** The source names the one signal there is, and says so when there are several or none. */
  lemma ClassifyTells(isRoot: bool, tierEstablished: bool, hasActiveVouch: bool)
    ensures var s := Classify(isRoot, tierEstablished, hasActiveVouch);
            && (s == Nobody <==> !isRoot && !tierEstablished && !hasActiveVouch)
            && (s == Root <==> isRoot && !tierEstablished && !hasActiveVouch)
            && (s == Reputation <==> !isRoot && tierEstablished && !hasActiveVouch)
            && (s == Vouch <==> !isRoot && !tierEstablished && hasActiveVouch)
  {
  }

  predicate IsEstablished(s: PersonhoodSource) {
    s != Nobody
  }

  predicate TierIsEstablished(t: Tier) {
    t in {Trusted, Veteran, Sentinel}
  }

  /** The tier of a known user, newcomer for anybody else. */
  function ReputationTier(tiers: map<Pubkey, Tier>, pubkey: Pubkey): Tier {
    if pubkey in tiers then tiers[pubkey] else Newcomer
  }

  predicate IsLive(v: Vouching, now: int) {
    !v.revoked && (v.expiresAt.None? || v.expiresAt.value > now)
  }

  /** A live vouch by somebody who is right now a root or reputation-established. */
  predicate HasActiveVouch(tiers: map<Pubkey, Tier>, vouches: set<Vouching>, roots: set<Pubkey>, pubkey: Pubkey, now: int) {
    exists v :: v in vouches && v.vouchee == pubkey && IsLive(v, now) &&
                (v.voucher in roots || TierIsEstablished(ReputationTier(tiers, v.voucher)))
  }

  function Resolve(tiers: map<Pubkey, Tier>, vouches: set<Vouching>, roots: set<Pubkey>, pubkey: Pubkey, now: int): PersonhoodSource {
    Classify(pubkey in roots, TierIsEstablished(ReputationTier(tiers, pubkey)), HasActiveVouch(tiers, vouches, roots, pubkey, now))
  }

  /** The condition written out inside the vote transaction's counting query. */
  predicate InlineEstablished(tiers: map<Pubkey, Tier>, vouches: set<Vouching>, roots: set<Pubkey>, pubkey: Pubkey, now: int) {
    || pubkey in roots
    || (exists u :: u in tiers && u == pubkey && tiers[u] in {Trusted, Veteran, Sentinel})
    || (exists v :: v in vouches && v.vouchee == pubkey && !v.revoked && (v.expiresAt.None? || v.expiresAt.value > now) &&
                    (v.voucher in roots ||
                     exists u :: u in tiers && u == v.voucher && tiers[u] in {Trusted, Veteran, Sentinel}))
  }

  /** The inline query condition and the personhood classifier agree on everybody. */
  lemma InlineAgreesWithClassifier(tiers: map<Pubkey, Tier>, vouches: set<Vouching>, roots: set<Pubkey>, pubkey: Pubkey, now: int)
    ensures InlineEstablished(tiers, vouches, roots, pubkey, now)
            <==> IsEstablished(Resolve(tiers, vouches, roots, pubkey, now))
  {
  }
}
