/** The machine-origin trust tiers and the promotion decision. */
module TrustContract {

  datatype TrustTier = Heuristic | Corroborating | Confirmed

  const CORROBORATE_MIN_SOURCES := 2
  const CONFIRM_MIN_SOURCES := 3
  const CONFIRM_MIN_CHANNELS := 2

  /** The derived order: position in the declaration. */
  function Rank(t: TrustTier): nat {
    match t
    case Heuristic => 0
    case Corroborating => 1
    case Confirmed => 2
  }

  function MaxTier(a: TrustTier, b: TrustTier): TrustTier {
    if Rank(a) >= Rank(b) then a else b
  }

  function Decide(sources: nat, channels: nat): TrustTier {
    if sources >= CONFIRM_MIN_SOURCES && channels >= CONFIRM_MIN_CHANNELS then Confirmed
    else if sources >= CORROBORATE_MIN_SOURCES then Corroborating
    else Heuristic
  }

  /** More distinct evidence never lowers the decision. */
  lemma DecideMonotone(s1: nat, c1: nat, s2: nat, c2: nat)
    requires s1 <= s2 && c1 <= c2
    ensures Rank(Decide(s1, c1)) <= Rank(Decide(s2, c2))
  {
  }
}
