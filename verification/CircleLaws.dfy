/**
 Who may do what to a circle, and how its state follows from the requests that were
 accepted: memberships, names, readiness to publish and location rows.
 */
module CircleLaws {
  import opened Common
  import opened KeyWraps
  import opened Circles
  import opened CircleRuns

  // ----- authority

  function CallerOf(r: Request): Option<Pubkey> {
    match r
    case CreateCircle(caller, _) => Some(caller)
    case AddMember(caller, _, _, _, _, _) => Some(caller)
    case AcceptMember(caller) => Some(caller)
    case CommitEpoch(caller, _, _, _, _, _, _) => Some(caller)
    case RemoveMember(caller, _) => Some(caller)
    case SetEncryption(caller, _, _) => Some(caller)
    case PushEnvelope(caller, _, _, _, _, _, _, _, _) => Some(caller)
    case Sweep(_) => None
    case DeleteCircle(caller) => Some(caller)
  }

  /** The request comes from whoever has token `t`. */
  predicate By(id: string, r: Request, t: Token) {
    CallerOf(r).Some? && Token(id, CallerOf(r).value) == t
  }

  function RowOf(c: Circle, t: Token): Option<Member> {
    if c.Live? && t in c.members then Some(c.members[t]) else None
  }

  function BlobOf(c: Circle, t: Token): Option<Blob> {
    if c.Live? && t in c.blobs then Some(c.blobs[t]) else None
  }

  /** A removal is accepted exactly when the owner removes a member or a member leaves. */
  lemma RemovalIsAcceptedIff(id: string, rs: seq<Request>, k: nat)
    requires k < |rs| && rs[k].RemoveMember?
    ensures var c, t := At(id, rs, k), Token(id, rs[k].target);
            Accepted(id, rs, k) <==> c.Live? && t in c.members && (By(id, rs[k], c.owner) || By(id, rs[k], t))
  {
  }

  /** Only the owner deletes the circle or changes its name, epoch or protocol. */
  lemma CircleChangesByOwner(id: string, c: Circle, r: Request)
    requires c.Live? && !By(id, r, c.owner)
    ensures var c' := Step(id, c, r).circle;
            c'.Live? && c'.owner == c.owner && c'.name == c.name && c'.epoch == c.epoch && c'.protocol == c.protocol
  {
  }

  /** A member row is made, changed or dropped only by the owner or by the member itself. */
  lemma RowChangesByOwnerOrSelf(id: string, c: Circle, r: Request, t: Token)
    requires c.Live? && !By(id, r, c.owner) && !By(id, r, t)
    ensures RowOf(Step(id, c, r).circle, t) == RowOf(c, t)
  {
    hide ValidateKeyWrapV2, IsHex64, Lower, EnvelopeIsValid, ApplyLabels;
  }

  /** A location row appears or changes only by its sender, and goes only by the owner, its sender, or a sweep past its expiry. */
  lemma BlobChangesBySender(id: string, c: Circle, r: Request, t: Token)
    requires c.Live? && !By(id, r, t)
    ensures var b, b' := BlobOf(c, t), BlobOf(Step(id, c, r).circle, t);
            b' == b || (b.Some? && b' == None && (By(id, r, c.owner) || (r.Sweep? && b.value.expiresAt <= r.now)))
  {
    hide ValidateKeyWrapV2, IsHex64, Lower, EnvelopeIsValid, ApplyLabels, ApplyWraps, WrapTokens, LabelTokens, ActiveTokens,
      WrapIsValid;
  }

  /** The requests that do nothing but create or delete are accepted exactly from the right caller in the right state. */
  lemma LifecycleIsAcceptedIff(id: string, rs: seq<Request>, k: nat)
    requires k < |rs|
    ensures rs[k].CreateCircle? ==> (Accepted(id, rs, k) <==> At(id, rs, k).Unborn?)
    ensures rs[k].CreateCircle? && Accepted(id, rs, k) ==> At(id, rs, k + 1).Live? && By(id, rs[k], At(id, rs, k + 1).owner)
    ensures rs[k].DeleteCircle? ==> (Accepted(id, rs, k) <==> At(id, rs, k).Live? && By(id, rs[k], At(id, rs, k).owner))
    ensures rs[k].DeleteCircle? && Accepted(id, rs, k) ==> At(id, rs, k + 1).Deleted?
    ensures rs[k].SetEncryption? ==> (Accepted(id, rs, k) <==> At(id, rs, k).Live? && By(id, rs[k], At(id, rs, k).owner))
  {
  }

  /** A deleted circle stays deleted. */
  lemma {:induction false} DeletedStays(id: string, rs: seq<Request>, i: nat, n: nat)
    requires i <= n <= |rs| && At(id, rs, i).Deleted?
    ensures At(id, rs, n).Deleted?
  {
    hide Step;
    if i < n {
      DeletedStays(id, rs, i, n - 1);
      CounterStep(id, At(id, rs, n - 1), rs[n - 1]);
    }
  }

  /** An invitation is accepted exactly from the owner, for somebody else, with a fresh wrap for them at the current epoch, below 25 rows. */
  lemma InvitationIsAcceptedIff(id: string, rs: seq<Request>, k: nat)
    requires k < |rs| && rs[k].AddMember?
    ensures var c, r := At(id, rs, k), rs[k];
            Accepted(id, rs, k) <==>
            && c.Live? && By(id, r, c.owner) && |c.members| < 25
            && IsHex64(r.member) && Lower(r.member) != r.caller && r.wrapEpoch == c.epoch
            && BoundTo(r.wrapEvent, r.caller, id, c.epoch, Lower(r.member))
            && SingleTag(r.wrapEvent, "d") == Some("sentinelmesh-circle-key-v2") && r.wrapEvent.kind == 30079
            && r.now - 60 <= r.wrapEvent.createdAt <= r.now + 60 && 1 <= |r.wrapEvent.content| <= 4096
  {
    var c, r := At(id, rs, k), rs[k];
    LowerIsHex(r.member);
    hide IsHex64, Lower, BoundTo, SingleTag;
    if c.Live? {
      AcceptedIff(r.caller, id, c.epoch, r.now, r.wrapEvent, Lower(r.member));
    }
    hide ValidateKeyWrapV2, At;
  }

  lemma LowerIsHex(s: string)
    ensures IsHex64(s) ==> IsHex64(Lower(s))
  {
  }

  // ----- memberships follow from what was accepted

  predicate InvitesAt(id: string, rs: seq<Request>, k: nat, t: Token)
    requires k < |rs|
  {
    Adds(id, rs[k], t) && Accepted(id, rs, k)
  }

  predicate AcceptsAt(id: string, rs: seq<Request>, k: nat, t: Token)
    requires k < |rs|
  {
    rs[k].AcceptMember? && By(id, rs[k], t) && Accepted(id, rs, k)
  }

  predicate CommitsAt(id: string, rs: seq<Request>, k: nat)
    requires k < |rs|
  {
    rs[k].CommitEpoch? && Accepted(id, rs, k)
  }

  /** What is left of a row by a request that neither invites, activates nor removes its member. */
  predicate RowKept(m: Member, m': Member, commits: bool, relabels: bool) {
    && m'.membership == m.membership
    && (m.membership == Pending || !commits ==> m' == m.(labelText := m'.labelText))
    && (!commits && !relabels ==> m' == m)
  }

  lemma BatchKeepsRow(id: string, c: Circle, r: Request, t: Token)
    requires c.Live? && (r.CommitEpoch? || r.SetEncryption?)
    ensures var c' := Step(id, c, r).circle;
            && RowOf(c', t).Some? == RowOf(c, t).Some?
            && (RowOf(c, t).Some? ==> RowKept(RowOf(c, t).value, RowOf(c', t).value,
                                              r.CommitEpoch? && Step(id, c, r).reply == Done, r.SetEncryption?))
  {
    hide BoundTo, WrapIsValid;
    match r
    case CommitEpoch(caller, rev, next, name, labels, wraps, now) =>
      if Step(id, c, r).reply == Done {
        CommitReseals(id, c, caller, rev, next, name, labels, wraps, now);
      }
    case SetEncryption(_, _, labels) => LabelsLandOnTheirRows(c.members, labels);
  }

  lemma RequestOnRow(id: string, c: Circle, r: Request, t: Token)
    requires Step(id, c, r).circle.Live? && !r.CommitEpoch? && !r.SetEncryption?
    ensures var out := Step(id, c, r);
            var m, m' := RowOf(c, t), RowOf(out.circle, t);
            if out.reply == Done && Adds(id, r, t) then m' == Some(Member(Pending, r.labelText, r.wrapEpoch, r.wrapEvent))
            else if out.reply == Done && r.AcceptMember? && By(id, r, t)
            then m.Some? && m.value.membership == Pending && m' == Some(m.value.(membership := Active))
            else if out.reply == Done && r.RemoveMember? && Token(id, r.target) == t then m' == None
            else m' == m
  {
    hide ValidateKeyWrapV2, IsHex64, Lower, EnvelopeIsValid, Commit, Encrypt;
  }

  /** What request `k` makes of the row of `t`. */
  lemma MembershipStep(id: string, rs: seq<Request>, k: nat, t: Token)
    requires k < |rs| && At(id, rs, k + 1).Live?
    ensures var m, m' := RowOf(At(id, rs, k), t), RowOf(At(id, rs, k + 1), t);
            && (InvitesAt(id, rs, k, t) ==>
                  m' == Some(Member(Pending, rs[k].labelText, rs[k].wrapEpoch, rs[k].wrapEvent)))
            && (AcceptsAt(id, rs, k, t) ==> m.Some? && m.value.membership == Pending && m' == Some(m.value.(membership := Active)))
            && (RemovedAt(id, rs, k, t) ==> m' == None)
            && (!InvitesAt(id, rs, k, t) && !AcceptsAt(id, rs, k, t) && !RemovedAt(id, rs, k, t) ==>
                  m'.Some? == m.Some? && (m.Some? ==> RowKept(m.value, m'.value, CommitsAt(id, rs, k), rs[k].SetEncryption?)))
  {
    var c, r := At(id, rs, k), rs[k];
    if r.CommitEpoch? || r.SetEncryption? {
      WasAlive(id, rs, k + 1);
      BatchKeepsRow(id, c, r, t);
    } else {
      RequestOnRow(id, c, r, t);
    }
    hide Step;
  }

  lemma WasAlive(id: string, rs: seq<Request>, n: nat)
    requires 0 < n <= |rs| && At(id, rs, n).Live?
    ensures At(id, rs, n - 1).Live? || (rs[n - 1].CreateCircle? && At(id, rs, n - 1).Unborn? && At(id, rs, n).members == map[])
  {
  }

  /** Somebody has a member row exactly when invited and not removed since. */
  lemma {:induction false} MemberIffInvited(id: string, rs: seq<Request>, n: nat, t: Token)
    requires n <= |rs| && At(id, rs, n).Live?
    ensures t in At(id, rs, n).members <==>
            exists k :: 0 <= k < n && InvitesAt(id, rs, k, t) && forall j :: k < j < n ==> !RemovedAt(id, rs, j, t)
  {
    hide Step;
    WasAlive(id, rs, n);
    MembershipStep(id, rs, n - 1, t);
    if At(id, rs, n - 1).Live? {
      MemberIffInvited(id, rs, n - 1, t);
      if t in At(id, rs, n).members {
        if !InvitesAt(id, rs, n - 1, t) {
          var k :| 0 <= k < n - 1 && InvitesAt(id, rs, k, t) && forall j :: k < j < n - 1 ==> !RemovedAt(id, rs, j, t);
        } else {
          assert InvitesAt(id, rs, n - 1, t);
        }
      }
    } else {
      BornFresh(id, rs, n);
    }
  }

  lemma BornFresh(id: string, rs: seq<Request>, n: nat)
    requires n <= |rs| && n > 0 && At(id, rs, n - 1).Unborn?
    ensures forall k :: 0 <= k < n ==> At(id, rs, k).Unborn?
    ensures forall k :: 0 <= k < n && Accepted(id, rs, k) ==> rs[k].CreateCircle? || rs[k].Sweep?
    decreases n
  {
    if n > 1 {
      assert At(id, rs, n - 2).Unborn?;
      BornFresh(id, rs, n - 1);
    }
  }

  /** Nobody is active without consent: exactly who accepted an invitation and was neither invited again nor removed since. */
  lemma {:induction false} ActiveIffAccepted(id: string, rs: seq<Request>, n: nat, t: Token)
    requires n <= |rs| && At(id, rs, n).Live?
    ensures t in ActiveTokens(At(id, rs, n).members) <==>
            exists k :: 0 <= k < n && AcceptsAt(id, rs, k, t) &&
              forall j :: k < j < n ==> !InvitesAt(id, rs, j, t) && !RemovedAt(id, rs, j, t)
  {
    hide Step;
    WasAlive(id, rs, n);
    MembershipStep(id, rs, n - 1, t);
    if At(id, rs, n - 1).Live? {
      ActiveIffAccepted(id, rs, n - 1, t);
      if t in ActiveTokens(At(id, rs, n).members) {
        if AcceptsAt(id, rs, n - 1, t) {
          assert AcceptsAt(id, rs, n - 1, t);
        } else {
          var k :| 0 <= k < n - 1 && AcceptsAt(id, rs, k, t) &&
            forall j :: k < j < n - 1 ==> !InvitesAt(id, rs, j, t) && !RemovedAt(id, rs, j, t);
        }
      }
    } else {
      BornFresh(id, rs, n);
    }
  }

  // ----- invitations and epochs

  /** The epoch counts accepted commits: it is unchanged exactly when there was none. */
  lemma {:induction false} EpochCountsCommits(id: string, rs: seq<Request>, i: nat, n: nat)
    requires i <= n <= |rs| && At(id, rs, i).Live? && At(id, rs, n).Live?
    ensures At(id, rs, i).epoch <= At(id, rs, n).epoch
    ensures At(id, rs, i).epoch == At(id, rs, n).epoch <==> forall j :: i <= j < n ==> !CommitsAt(id, rs, j)
  {
    hide Step;
    if i < n {
      LiveSpan(id, rs, i, n);
      EpochCountsCommits(id, rs, i, n - 1);
      StepMovesEpoch(id, At(id, rs, n - 1), rs[n - 1]);
      assert CommitsAt(id, rs, n - 1) <==> rs[n - 1].CommitEpoch? && Step(id, At(id, rs, n - 1), rs[n - 1]).reply == Done;
    }
  }

  /** Between an invitation and what comes next for `t`, the row is pending with the invitation's epoch. */
  lemma {:induction false} StaysInvited(id: string, rs: seq<Request>, i: nat, n: nat, t: Token)
    requires i < n <= |rs| && InvitesAt(id, rs, i, t) && At(id, rs, n).Live?
    requires forall j :: i < j < n ==> !InvitesAt(id, rs, j, t) && !AcceptsAt(id, rs, j, t) && !RemovedAt(id, rs, j, t)
    ensures At(id, rs, i).Live?
    ensures var m := RowOf(At(id, rs, n), t);
            m.Some? && m.value.membership == Pending && m.value.wrapEpoch == At(id, rs, i).epoch
  {
    hide Step;
    InvitationIsAcceptedIff(id, rs, i);
    WasAlive(id, rs, n);
    MembershipStep(id, rs, n - 1, t);
    if i < n - 1 {
      LiveSpan(id, rs, i, n);
      StaysInvited(id, rs, i, n - 1, t);
    }
  }

  lemma AcceptanceIff(id: string, rs: seq<Request>, k: nat)
    requires k < |rs| && rs[k].AcceptMember?
    ensures var c := At(id, rs, k);
            var m := RowOf(c, Token(id, rs[k].caller));
            Accepted(id, rs, k) <==> m.Some? && m.value.membership == Pending && m.value.wrapEpoch == c.epoch
  {
  }

  /** An invitation can be accepted exactly until the next commit. */
  lemma AcceptableIffNoCommitSince(id: string, rs: seq<Request>, i: nat, k: nat, t: Token)
    requires i < k < |rs| && InvitesAt(id, rs, i, t) && At(id, rs, k).Live?
    requires forall j :: i < j < k ==> !InvitesAt(id, rs, j, t) && !AcceptsAt(id, rs, j, t) && !RemovedAt(id, rs, j, t)
    requires rs[k].AcceptMember? && By(id, rs[k], t)
    ensures Accepted(id, rs, k) <==> forall j :: i < j < k ==> !CommitsAt(id, rs, j)
  {
    hide Step;
    StaysInvited(id, rs, i, k, t);
    AcceptanceIff(id, rs, k);
    EpochCountsCommits(id, rs, i, k);
    assert !CommitsAt(id, rs, i);
  }

  /** Every stored wrap came with an accepted invitation or commit made within a minute of it. */
  lemma {:induction false} WrapsWereFresh(id: string, rs: seq<Request>, n: nat, t: Token) returns (k: nat)
    requires n <= |rs| && At(id, rs, n).Live? && t in At(id, rs, n).members
    ensures var m := At(id, rs, n).members[t];
            && k < n && WrapStoredAt(id, rs, k, t, m.wrapEpoch)
            && (rs[k].AddMember? || rs[k].CommitEpoch?) && rs[k].now - 60 <= m.wrapEvent.createdAt <= rs[k].now + 60
  {
    hide Step, BoundTo;
    WasAlive(id, rs, n);
    MembershipStep(id, rs, n - 1, t);
    if InvitesAt(id, rs, n - 1, t) {
      InvitationIsAcceptedIff(id, rs, n - 1);
      k := n - 1;
    } else if CommitsAt(id, rs, n - 1) && At(id, rs, n).members[t].membership == Active {
      CommittedWrap(id, rs, n - 1, t);
      k := n - 1;
    } else {
      k := WrapsWereFresh(id, rs, n - 1, t);
    }
  }

  lemma CommittedWrap(id: string, rs: seq<Request>, k: nat, t: Token)
    requires k < |rs| && CommitsAt(id, rs, k) && At(id, rs, k + 1).Live?
    requires t in At(id, rs, k + 1).members && At(id, rs, k + 1).members[t].membership == Active
    ensures var m := At(id, rs, k + 1).members[t];
            WrapStoredAt(id, rs, k, t, m.wrapEpoch) && rs[k].now - 60 <= m.wrapEvent.createdAt <= rs[k].now + 60
  {
    var c, r := At(id, rs, k), rs[k];
    CommitReseals(id, c, r.caller, r.expectedRevision, r.nextEpoch, r.name, r.labels, r.wraps, r.now);
    var m := At(id, rs, k + 1).members[t];
    var i :| 0 <= i < |r.wraps| && r.wraps[i] == Wrap(t, m.wrapEvent);
    assert WrapIsValid(id, r.caller, r.nextEpoch, r.now, r.wraps[i]);
    AcceptedIff(r.caller, id, r.nextEpoch, r.now, m.wrapEvent, t.pubkey);
    assert WrapTokens(r.wraps)[i] == t;
    hide BoundTo, SingleTag, IsHex64;
  }

  /** Rewriting the labels touches exactly the rows named, and each of those gets a label submitted for it. */
  lemma RelabelLands(id: string, rs: seq<Request>, k: nat, t: Token)
    requires k < |rs| && rs[k].SetEncryption? && Accepted(id, rs, k) && t in At(id, rs, k).members
    ensures At(id, rs, k + 1).Live? && t in At(id, rs, k + 1).members
    ensures var m, m' := At(id, rs, k).members[t], At(id, rs, k + 1).members[t];
            && m' == m.(labelText := m'.labelText)
            && (if t in LabelTokens(rs[k].labels) then Label(t, m'.labelText) in rs[k].labels else m' == m)
  {
    LabelsLandOnTheirRows(At(id, rs, k).members, rs[k].labels);
  }

  /** How many accepted requests among the first `n` changed a membership. */
  function Changes(id: string, rs: seq<Request>, n: nat): nat
    requires n <= |rs|
  {
    if n == 0 then 0
    else
      Changes(id, rs, n - 1) +
      if (rs[n - 1].AddMember? || rs[n - 1].AcceptMember? || rs[n - 1].RemoveMember?) && Accepted(id, rs, n - 1) then 1 else 0
  }

  /** How many commits among the first `n` requests were accepted. */
  function Commits(id: string, rs: seq<Request>, n: nat): nat
    requires n <= |rs|
  {
    if n == 0 then 0 else Commits(id, rs, n - 1) + if CommitsAt(id, rs, n - 1) then 1 else 0
  }

  /** The revision counts the accepted membership changes, and the epoch is one more than the accepted commits. */
  lemma {:induction false} CountersCount(id: string, rs: seq<Request>, n: nat)
    requires n <= |rs|
    ensures At(id, rs, n).Live? ==> At(id, rs, n).revision == Changes(id, rs, n) && At(id, rs, n).epoch == 1 + Commits(id, rs, n)
    ensures At(id, rs, n).Unborn? ==> Changes(id, rs, n) == 0 == Commits(id, rs, n)
  {
    if n > 0 {
      CountersCount(id, rs, n - 1);
      CounterStep(id, At(id, rs, n - 1), rs[n - 1]);
      hide Step;
    }
  }

  lemma CounterStep(id: string, c: Circle, r: Request)
    ensures var out := Step(id, c, r);
            var bump := (r.AddMember? || r.AcceptMember? || r.RemoveMember?) && out.reply == Done;
            && (c.Unborn? && out.circle.Live? ==> out.circle.revision == 0 && out.circle.epoch == 1)
            && (c.Unborn? ==> !bump && !(r.CommitEpoch? && out.reply == Done))
            && (out.circle.Unborn? ==> c.Unborn?)
            && (c.Deleted? ==> out.circle.Deleted?)
            && (c.Live? && out.circle.Live? ==>
                  && out.circle.revision == c.revision + (if bump then 1 else 0)
                  && out.circle.epoch == c.epoch + (if r.CommitEpoch? && out.reply == Done then 1 else 0))
  {
    hide ValidateKeyWrapV2, IsHex64, Lower, EnvelopeIsValid, ApplyLabels, ApplyWraps, WrapTokens, LabelTokens, ActiveTokens,
      WrapIsValid;
  }

  // ----- names

  /** The name that request `k` sets. */
  function NameSetAt(id: string, rs: seq<Request>, k: nat): Option<string>
    requires k < |rs|
  {
    if !Accepted(id, rs, k) then None
    else
      match rs[k]
      case CreateCircle(_, name) => Some(name)
      case CommitEpoch(_, _, _, name, _, _, _) => Some(name)
      case SetEncryption(_, name, _) => Some(name)
      case _ => None
  }

  /** The name is the one set last. */
  lemma {:induction false} NameIsLastSet(id: string, rs: seq<Request>, n: nat) returns (k: nat)
    requires n <= |rs| && At(id, rs, n).Live?
    ensures k < n && NameSetAt(id, rs, k) == Some(At(id, rs, n).name)
    ensures forall j :: k < j < n ==> NameSetAt(id, rs, j) == None
  {
    WasAlive(id, rs, n);
    NameStep(id, rs, n - 1);
    hide Step;
    if NameSetAt(id, rs, n - 1).Some? {
      k := n - 1;
    } else {
      k := NameIsLastSet(id, rs, n - 1);
    }
  }

  lemma NameStep(id: string, rs: seq<Request>, k: nat)
    requires k < |rs| && At(id, rs, k + 1).Live?
    ensures var name := NameSetAt(id, rs, k);
            if name.Some? then At(id, rs, k + 1).name == name.value else At(id, rs, k).Live? && At(id, rs, k + 1).name == At(id, rs, k).name
  {
    hide ValidateKeyWrapV2, IsHex64, Lower, EnvelopeIsValid, ApplyLabels, ApplyWraps, CommitCheck;
  }

  // ----- readiness

  predicate RemovesAt(id: string, rs: seq<Request>, k: nat)
    requires k < |rs|
  {
    rs[k].RemoveMember? && Accepted(id, rs, k)
  }

  /** The circle takes locations exactly when an epoch has been committed and nobody removed since, and at that epoch only. */
  lemma {:induction false} ReadyIffCommittedSinceRemoval(id: string, rs: seq<Request>, n: nat, e: int)
    requires n <= |rs| && At(id, rs, n).Live?
    ensures ReadyFor(At(id, rs, n), e) <==>
            && e == At(id, rs, n).epoch
            && exists k :: 0 <= k < n && CommitsAt(id, rs, k) && forall j :: k < j < n ==> !RemovesAt(id, rs, j)
  {
    hide Step;
    RekeyIff(id, rs, n);
    ReachableInv(id, rs, n);
    hide RowsOk, BlobsOk;
  }

  lemma {:induction false} RekeyIff(id: string, rs: seq<Request>, n: nat)
    requires n <= |rs| && At(id, rs, n).Live?
    ensures !At(id, rs, n).rekey <==>
            exists k :: 0 <= k < n && CommitsAt(id, rs, k) && forall j :: k < j < n ==> !RemovesAt(id, rs, j)
    ensures !At(id, rs, n).rekey ==> At(id, rs, n).protocol == 1
  {
    hide Step;
    WasAlive(id, rs, n);
    RekeyStep(id, rs, n - 1);
    if At(id, rs, n - 1).Live? {
      RekeyIff(id, rs, n - 1);
      if !At(id, rs, n).rekey && !CommitsAt(id, rs, n - 1) {
        var k :| 0 <= k < n - 1 && CommitsAt(id, rs, k) && forall j :: k < j < n - 1 ==> !RemovesAt(id, rs, j);
      }
      assert CommitsAt(id, rs, n - 1) ==> !RemovesAt(id, rs, n - 1);
    } else {
      BornFresh(id, rs, n);
    }
  }

  lemma RekeyStep(id: string, rs: seq<Request>, k: nat)
    requires k < |rs| && At(id, rs, k + 1).Live?
    ensures CommitsAt(id, rs, k) ==> !At(id, rs, k + 1).rekey && At(id, rs, k + 1).protocol == 1
    ensures RemovesAt(id, rs, k) ==> At(id, rs, k + 1).rekey
    ensures At(id, rs, k).Live? && !CommitsAt(id, rs, k) && !RemovesAt(id, rs, k) ==>
              At(id, rs, k + 1).rekey == At(id, rs, k).rekey && At(id, rs, k + 1).protocol == At(id, rs, k).protocol
    ensures !At(id, rs, k).Live? ==> At(id, rs, k + 1).rekey
  {
    hide ValidateKeyWrapV2, IsHex64, Lower, EnvelopeIsValid, ApplyLabels, ApplyWraps, WrapTokens, LabelTokens, ActiveTokens,
      WrapIsValid;
  }

  // ----- location rows

  /** A publication is accepted exactly when it is valid, in time, by the owner or an active member, and the circle is ready for its epoch. */
  lemma PublicationIsAcceptedIff(id: string, rs: seq<Request>, k: nat)
    requires k < |rs| && rs[k].PushEnvelope?
    ensures var c, r := At(id, rs, k), rs[k];
            Accepted(id, rs, k) <==>
            && r.bodyOk && r.version == 1 && r.envelopeEpoch >= 1 && r.ciphertext != ""
            && r.now < r.expiresAt <= r.now + 300 && !r.rateLimited && !r.replayed
            && c.Live? && c.protocol == 1 && !c.rekey && c.epoch == r.envelopeEpoch
            && (By(id, r, c.owner) || Token(id, r.caller) in ActiveTokens(c.members))
  {
  }

  predicate PublishesAt(id: string, rs: seq<Request>, k: nat, t: Token, b: Blob)
    requires k < |rs|
  {
    && rs[k].PushEnvelope? && By(id, rs[k], t) && Accepted(id, rs, k)
    && b == Blob(rs[k].envelopeEpoch, rs[k].ciphertext, rs[k].expiresAt)
  }

  /** Request `k` does away with location row `b` of `t`. */
  predicate ClearsAt(id: string, rs: seq<Request>, k: nat, t: Token, b: Blob)
    requires k < |rs|
  {
    || CommitsAt(id, rs, k) || RemovedAt(id, rs, k, t) || (rs[k].Sweep? && rs[k].now >= b.expiresAt)
    || (rs[k].PushEnvelope? && By(id, rs[k], t) && Accepted(id, rs, k))
  }

  lemma BlobStep(id: string, rs: seq<Request>, k: nat, t: Token, b: Blob)
    requires k < |rs| && At(id, rs, k + 1).Live?
    ensures BlobOf(At(id, rs, k + 1), t) == Some(b) <==>
            PublishesAt(id, rs, k, t, b) || (BlobOf(At(id, rs, k), t) == Some(b) && !ClearsAt(id, rs, k, t, b))
  {
    hide ValidateKeyWrapV2, IsHex64, Lower, EnvelopeIsValid, ApplyLabels, ApplyWraps, CommitCheck;
  }

  /** A location row stands exactly when its sender published it and no newer one, commit, removal or sweep came since. */
  lemma {:induction false} BlobIffPublished(id: string, rs: seq<Request>, n: nat, t: Token, b: Blob)
    requires n <= |rs| && At(id, rs, n).Live?
    ensures BlobOf(At(id, rs, n), t) == Some(b) <==>
            exists k :: 0 <= k < n && PublishesAt(id, rs, k, t, b) && forall j :: k < j < n ==> !ClearsAt(id, rs, j, t, b)
  {
    hide Step, ClearsAt;
    WasAlive(id, rs, n);
    BlobStep(id, rs, n - 1, t, b);
    if At(id, rs, n - 1).Live? {
      BlobIffPublished(id, rs, n - 1, t, b);
      if BlobOf(At(id, rs, n), t) == Some(b) && !PublishesAt(id, rs, n - 1, t, b) {
        var k :| 0 <= k < n - 1 && PublishesAt(id, rs, k, t, b) && forall j :: k < j < n - 1 ==> !ClearsAt(id, rs, j, t, b);
      }
    } else {
      BornFresh(id, rs, n);
    }
  }
}
