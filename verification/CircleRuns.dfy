/**
 What holds over every run of one circle: the row invariant of every reachable
 state, the cut-off of removed members, and the soundness of optimistic commits.
 */
module CircleRuns {
  import opened Common
  import opened KeyWraps
  import opened Circles

  // ----- the row invariant

  /** A member row: belongs to this circle, and holds a wrap by the owner for this member at `wrapEpoch`. */
  predicate MemberOk(id: string, owner: Token, epoch: int, t: Token, m: Member) {
    && t.circle == id
    && 1 <= m.wrapEpoch <= epoch
    && (m.membership == Active ==> m.wrapEpoch == epoch)
    && BoundTo(m.wrapEvent, owner.pubkey, id, m.wrapEpoch, t.pubkey)
  }

  predicate RowsOk(id: string, owner: Token, epoch: int, members: map<Token, Member>) {
    && owner !in members
    && |members| <= MAX_CIRCLE_MEMBERS
    && forall t :: t in members ==> MemberOk(id, owner, epoch, t, members[t])
  }

  /** Location rows: sealed at the current epoch, by the owner or somebody who still has a member row. */
  predicate BlobsOk(owner: Token, epoch: int, senders: set<Token>, blobs: map<Token, Blob>) {
    forall t :: t in blobs ==> blobs[t].epoch == epoch && (t == owner || t in senders)
  }

  predicate Inv(id: string, c: Circle) {
    c.Live? ==>
      && c.owner.circle == id
      && c.epoch >= 1
      && c.protocol in {0, 1}
      && (c.protocol == 1 <==> c.epoch > 1)
      && (c.epoch == 1 ==> c.rekey)
      && RowsOk(id, c.owner, c.epoch, c.members)
      && BlobsOk(c.owner, c.epoch, c.members.Keys, c.blobs)
  }

  lemma InsertKeepsRows(id: string, owner: Token, epoch: int, members: map<Token, Member>, t: Token, m: Member)
    requires RowsOk(id, owner, epoch, members) && MemberOk(id, owner, epoch, t, m)
    requires t != owner && (t in members || |members| < MAX_CIRCLE_MEMBERS)
    ensures RowsOk(id, owner, epoch, members[t := m])
  {
    hide MemberOk;
    assert members[t := m].Keys == members.Keys + {t};
    assert |members[t := m].Keys| == if t in members then |members.Keys| else |members.Keys| + 1;
  }

  lemma DropKeepsRows(id: string, owner: Token, epoch: int, members: map<Token, Member>, t: Token)
    requires RowsOk(id, owner, epoch, members)
    ensures RowsOk(id, owner, epoch, members - {t})
  {
    SubsetSize((members - {t}).Keys, members.Keys);
  }

  lemma RelabelKeepsRows(id: string, owner: Token, epoch: int, members: map<Token, Member>, labels: seq<Label>)
    requires RowsOk(id, owner, epoch, members)
    ensures RowsOk(id, owner, epoch, ApplyLabels(members, labels))
  {
    LabelsLandOnTheirRows(members, labels);
    assert |ApplyLabels(members, labels).Keys| == |members.Keys|;
  }

  lemma AddKeepsInv(id: string, c: Circle, caller: Pubkey, member: Pubkey, labelText: string, wrapEpoch: int, ev: KeyEvent, now: int)
    requires Inv(id, c)
    ensures Inv(id, Add(id, c, caller, member, labelText, wrapEpoch, ev, now).circle)
  {
    if Add(id, c, caller, member, labelText, wrapEpoch, ev, now).reply == Done {
      AcceptedWrapIsBound(caller, id, c.epoch, now, ev);
      InsertKeepsRows(id, c.owner, c.epoch, c.members, Token(id, Lower(member)), Member(Pending, labelText, wrapEpoch, ev));
    }
  }

  /** A row across an accepted commit: pending rows keep their wrap, active ones get the wrap submitted for them. */
  predicate RowResealed(id: string, owner: Pubkey, next: int, labels: seq<Label>, wraps: seq<Wrap>, t: Token,
                       before: Member, after: Member)
  {
    && after.membership == before.membership
    && (after.membership == Pending ==> after == before)
    && (after.membership == Active ==>
          && after.wrapEpoch == next
          && BoundTo(after.wrapEvent, owner, id, next, t.pubkey)
          && Wrap(t, after.wrapEvent) in wraps
          && Label(t, after.labelText) in labels)
  }

  predicate Resealed(id: string, before: map<Token, Member>, after: map<Token, Member>, owner: Pubkey, next: int,
                     labels: seq<Label>, wraps: seq<Wrap>)
  {
    && after.Keys == before.Keys
    && forall t :: t in after ==> RowResealed(id, owner, next, labels, wraps, t, before[t], after[t])
  }

  lemma CommitReseals(id: string, c: Circle, caller: Pubkey, rev: int, next: int, name: string,
                      labels: seq<Label>, wraps: seq<Wrap>, now: int)
    requires CommitCheck(id, c, caller, rev, next, labels, wraps, now) == Done
    ensures Resealed(id, c.members, Commit(id, c, caller, rev, next, name, labels, wraps, now).circle.members,
                     caller, next, labels, wraps)
  {
    forall i | 0 <= i < |wraps|
      ensures BoundTo(wraps[i].event, caller, id, next, wraps[i].token.pubkey)
    {
      assert WrapIsValid(id, caller, next, now, wraps[i]);
      AcceptedWrapIsBound(caller, id, next, now, wraps[i].event);
    }
    RowsReseal(id, c.members, caller, next, labels, wraps);
  }

  lemma RowsReseal(id: string, members: map<Token, Member>, owner: Pubkey, next: int, labels: seq<Label>, wraps: seq<Wrap>)
    requires multiset(WrapTokens(wraps)) == multiset(ActiveTokens(members)) == multiset(LabelTokens(labels))
    requires forall i :: 0 <= i < |wraps| ==> BoundTo(wraps[i].event, owner, id, next, wraps[i].token.pubkey)
    ensures Resealed(id, members, ApplyLabels(ApplyWraps(members, wraps, next), labels), owner, next, labels, wraps)
  {
    var rows := ApplyWraps(members, wraps, next);
    WrapsLandOnTheirRows(members, wraps, next);
    LabelsLandOnTheirRows(rows, labels);
    forall t | t in members
      ensures t in WrapTokens(wraps) <==> members[t].membership == Active
    {
      SubmittedIffActive(members, wraps, t);
    }
    forall t | t in members
      ensures t in LabelTokens(labels) <==> members[t].membership == Active
    {
      assert t in LabelTokens(labels) <==> t in multiset(LabelTokens(labels));
    }
    var after := ApplyLabels(rows, labels);
    forall t | t in after
      ensures RowResealed(id, owner, next, labels, wraps, t, members[t], after[t])
    {
      if members[t].membership == Active {
        var i :| 0 <= i < |wraps| && wraps[i] == Wrap(t, rows[t].wrapEvent);
      }
    }
  }

  lemma SubmittedIffActive(members: map<Token, Member>, wraps: seq<Wrap>, t: Token)
    requires multiset(WrapTokens(wraps)) == multiset(ActiveTokens(members))
    ensures t in WrapTokens(wraps) <==> t in ActiveTokens(members)
  {
    assert t in WrapTokens(wraps) <==> t in multiset(WrapTokens(wraps));
  }

  lemma ResealKeepsRows(id: string, owner: Token, epoch: int, next: int, before: map<Token, Member>, after: map<Token, Member>,
                        labels: seq<Label>, wraps: seq<Wrap>)
    requires 1 <= epoch < next && RowsOk(id, owner, epoch, before)
    requires Resealed(id, before, after, owner.pubkey, next, labels, wraps)
    ensures RowsOk(id, owner, next, after)
  {
    assert |after.Keys| == |before.Keys|;
    forall t | t in after
      ensures MemberOk(id, owner, next, t, after[t])
    {
      assert MemberOk(id, owner, epoch, t, before[t]) && RowResealed(id, owner.pubkey, next, labels, wraps, t, before[t], after[t]);
    }
  }

  lemma CommitKeepsInv(id: string, c: Circle, caller: Pubkey, rev: int, next: int, name: string,
                       labels: seq<Label>, wraps: seq<Wrap>, now: int)
    requires Inv(id, c)
    ensures Inv(id, Commit(id, c, caller, rev, next, name, labels, wraps, now).circle)
  {
    var out := Commit(id, c, caller, rev, next, name, labels, wraps, now);
    if out.reply == Done {
      CommitReseals(id, c, caller, rev, next, name, labels, wraps, now);
      ResealKeepsRows(id, c.owner, c.epoch, next, c.members, out.circle.members, labels, wraps);
    }
  }

  lemma RemoveKeepsInv(id: string, c: Circle, caller: Pubkey, target: Pubkey)
    requires Inv(id, c)
    ensures Inv(id, Remove(id, c, caller, target).circle)
  {
    if Remove(id, c, caller, target).reply == Done {
      DropKeepsRows(id, c.owner, c.epoch, c.members, Token(id, target));
    }
  }

  lemma EncryptKeepsInv(id: string, c: Circle, caller: Pubkey, name: string, labels: seq<Label>)
    requires Inv(id, c)
    ensures Inv(id, Encrypt(id, c, caller, name, labels).circle)
  {
    if c.Live? {
      RelabelKeepsRows(id, c.owner, c.epoch, c.members, labels);
      LabelsLandOnTheirRows(c.members, labels);
    }
  }

  lemma AcceptKeepsInv(id: string, c: Circle, caller: Pubkey)
    requires Inv(id, c)
    ensures Inv(id, Accept(id, c, caller).circle)
  {
    if Accept(id, c, caller).reply == Done {
      var me := Token(id, caller);
      assert MemberOk(id, c.owner, c.epoch, me, c.members[me]);
      InsertKeepsRows(id, c.owner, c.epoch, c.members, me, c.members[me].(membership := Active));
    }
  }

  lemma LocationRowsKeepInv(id: string, c: Circle, r: Request)
    requires Inv(id, c) && (r.PushEnvelope? || r.Sweep?)
    ensures Inv(id, Step(id, c, r).circle)
  {
  }

  lemma StepKeepsInv(id: string, c: Circle, r: Request)
    requires Inv(id, c)
    ensures Inv(id, Step(id, c, r).circle)
  {
    match r
    case CreateCircle(_, _) =>
    case AddMember(caller, member, labelText, wrapEpoch, ev, now) =>
      AddKeepsInv(id, c, caller, member, labelText, wrapEpoch, ev, now);
    case AcceptMember(caller) => AcceptKeepsInv(id, c, caller);
    case CommitEpoch(caller, rev, next, name, labels, wraps, now) =>
      CommitKeepsInv(id, c, caller, rev, next, name, labels, wraps, now);
    case RemoveMember(caller, target) => RemoveKeepsInv(id, c, caller, target);
    case SetEncryption(caller, name, labels) => EncryptKeepsInv(id, c, caller, name, labels);
    case DeleteCircle(_) =>
    case _ => LocationRowsKeepInv(id, c, r);
  }

  /** Every reachable state of a circle satisfies the row invariant. */
  lemma {:induction false} ReachableInv(id: string, rs: seq<Request>, n: nat)
    requires n <= |rs|
    ensures Inv(id, At(id, rs, n))
  {
    if n > 0 {
      ReachableInv(id, rs, n - 1);
      StepKeepsInv(id, At(id, rs, n - 1), rs[n - 1]);
    }
  }

  /**
   The invariant says no more than the rows allow: re-inviting an active member
   makes it pending again, and its published location row stays.
   */
  lemma ReinviteKeepsBlob(id: string, c: Circle, r: Request)
    requires c.Live? && r.AddMember? && Step(id, c, r).reply == Done
    requires Token(id, Lower(r.member)) in c.blobs
    ensures var t := Token(id, Lower(r.member));
            var c' := Step(id, c, r).circle;
            t in c'.blobs && t in c'.members && c'.members[t].membership == Pending && !MayPublish(c', t)
  {
  }

  // ----- how one request moves a live circle

  predicate SameMembership(a: map<Token, Member>, b: map<Token, Member>) {
    a.Keys == b.Keys && forall t :: t in a ==> a[t].membership == b[t].membership
  }

  /** Request `r` adds (or re-invites) the member with token `t`. */
  predicate Adds(id: string, r: Request, t: Token) {
    r.AddMember? && Token(id, Lower(r.member)) == t
  }

  /** Epochs move by accepted commits only, and only a commit clears the rekey flag. */
  lemma StepMovesEpoch(id: string, c: Circle, r: Request)
    requires c.Live?
    ensures var out := Step(id, c, r);
            !out.circle.Unborn? &&
            (out.circle.Live? ==>
               && out.circle.owner == c.owner
               && out.circle.epoch == (if r.CommitEpoch? && out.reply == Done then c.epoch + 1 else c.epoch)
               && (c.rekey && !out.circle.rekey ==> out.circle.epoch == c.epoch + 1)
               && (out.reply == Done && r.CommitEpoch? ==> r.nextEpoch == c.epoch + 1))
  {
  }

  /** Whatever changes who is in the circle, or in which state, bumps the revision. */
  lemma StepMovesRevision(id: string, c: Circle, r: Request)
    requires c.Live?
    ensures var c' := Step(id, c, r).circle;
            c'.Live? ==>
              && c'.revision >= c.revision
              && (c'.revision == c.revision ==> SameMembership(c.members, c'.members))
  {
    match r
    case CommitEpoch(caller, rev, next, name, labels, wraps, now) =>
      if Step(id, c, r).reply == Done {
        CommitReseals(id, c, caller, rev, next, name, labels, wraps, now);
        var after := Step(id, c, r).circle.members;
        assert forall t :: t in after ==> RowResealed(id, caller, next, labels, wraps, t, c.members[t], after[t]);
      }
    case SetEncryption(_, _, labels) => LabelsLandOnTheirRows(c.members, labels);
    case _ =>
  }

  /** Only an accepted invitation gives a token a member row. */
  lemma StepAddsOnlyInvited(id: string, c: Circle, r: Request, t: Token)
    requires c.Live? && t !in c.members
    ensures var out := Step(id, c, r);
            out.circle.Live? && t in out.circle.members ==> out.reply == Done && Adds(id, r, t)
  {
    match r
    case CommitEpoch(caller, rev, next, name, labels, wraps, now) =>
      if Step(id, c, r).reply == Done {
        CommitReseals(id, c, caller, rev, next, name, labels, wraps, now);
      }
    case SetEncryption(_, _, labels) => LabelsLandOnTheirRows(c.members, labels);
    case _ =>
  }

  /** Between two live states of a run the circle is live, keeps its owner, and its epoch and revision never fall. */
  lemma {:induction false} LiveSpan(id: string, rs: seq<Request>, i: nat, j: nat)
    requires i <= j <= |rs| && At(id, rs, i).Live?
    ensures var a, b := At(id, rs, i), At(id, rs, j);
            !b.Unborn? &&
            (b.Live? ==> b.owner == a.owner && b.epoch >= a.epoch && b.revision >= a.revision)
    ensures forall k :: i <= k <= j && At(id, rs, j).Live? ==> At(id, rs, k).Live?
  {
    if i < j {
      LiveSpan(id, rs, i, j - 1);
      var c := At(id, rs, j - 1);
      if c.Live? {
        StepMovesEpoch(id, c, rs[j - 1]);
        StepMovesRevision(id, c, rs[j - 1]);
      }
    }
  }

  /** A longer run has the same prefix states. */
  lemma {:induction false} AtPrefix(id: string, rs: seq<Request>, r: Request, n: nat)
    requires n <= |rs|
    ensures At(id, rs + [r], n) == At(id, rs, n)
  {
    hide Step;
    if n > 0 {
      AtPrefix(id, rs, r, n - 1);
    }
  }

  // ----- removal cuts a member off

  /** Request `k` removes the member with token `t`. */
  predicate RemovedAt(id: string, rs: seq<Request>, k: nat, t: Token)
    requires k < |rs|
  {
    rs[k].RemoveMember? && Token(id, rs[k].target) == t && Accepted(id, rs, k)
  }

  /** Request `k` publishes a location envelope. */
  predicate PublishedAt(id: string, rs: seq<Request>, k: nat)
    requires k < |rs|
  {
    rs[k].PushEnvelope? && Accepted(id, rs, k)
  }

  /** Request `k` stores a key wrap for token `t` at epoch `e`. */
  predicate WrapStoredAt(id: string, rs: seq<Request>, k: nat, t: Token, e: int)
    requires k < |rs|
  {
    Accepted(id, rs, k) &&
    match rs[k]
    case AddMember(_, _, _, wrapEpoch, _, _) => Adds(id, rs[k], t) && wrapEpoch == e
    case CommitEpoch(_, _, next, _, _, wraps, _) => t in WrapTokens(wraps) && next == e
    case _ => false
  }

  /** Nothing in `(i, n)` re-adds `t`. */
  predicate NotReAdded(id: string, rs: seq<Request>, i: nat, n: nat, t: Token)
    requires n <= |rs|
  {
    forall k :: i < k < n && Adds(id, rs[k], t) ==> !Accepted(id, rs, k)
  }

  /** Token `t` is out of the circle, and the circle is past epoch `e` or waits for a rekey. */
  predicate CutOff(c: Circle, t: Token, e: int) {
    && !c.Unborn?
    && (c.Live? ==> t !in c.members && t != c.owner && c.epoch >= e && (c.rekey || c.epoch > e))
  }

  lemma RemovalCuts(id: string, c: Circle, r: Request, t: Token)
    requires Inv(id, c) && r.RemoveMember? && Token(id, r.target) == t && Step(id, c, r).reply == Done
    ensures c.Live? && CutOff(Step(id, c, r).circle, t, c.epoch)
  {
    hide MemberOk, BlobsOk;
  }

  lemma StepKeepsCut(id: string, c: Circle, r: Request, t: Token, e: int)
    requires CutOff(c, t, e) && !(Adds(id, r, t) && Step(id, c, r).reply == Done)
    ensures CutOff(Step(id, c, r).circle, t, e)
  {
    if c.Live? {
      hide Step;
      StepMovesEpoch(id, c, r);
      StepAddsOnlyInvited(id, c, r, t);
    }
  }

  /** From a removal at epoch e until a re-invitation: no member row, and no clear rekey flag at epoch e. */
  lemma {:induction false} RemovedStaysOut(id: string, rs: seq<Request>, i: nat, n: nat, t: Token)
    requires i < n <= |rs| && RemovedAt(id, rs, i, t) && NotReAdded(id, rs, i, n, t)
    ensures At(id, rs, i).Live? && CutOff(At(id, rs, n), t, At(id, rs, i).epoch)
  {
    hide Step, Inv;
    if n == i + 1 {
      ReachableInv(id, rs, i);
      RemovalCuts(id, At(id, rs, i), rs[i], t);
    } else {
      RemovedStaysOut(id, rs, i, n - 1, t);
      StepKeepsCut(id, At(id, rs, n - 1), rs[n - 1], t, At(id, rs, i).epoch);
    }
  }

  lemma {:induction false} StoredWrapEpoch(id: string, rs: seq<Request>, k: nat, t: Token, e: int)
    requires k < |rs| && WrapStoredAt(id, rs, k, t, e)
    ensures At(id, rs, k).Live? && At(id, rs, k + 1).Live? && e == At(id, rs, k + 1).epoch
    ensures rs[k].CommitEpoch? ==> t in At(id, rs, k).members
  {
    if rs[k].CommitEpoch? {
      SubmittedIffActive(At(id, rs, k).members, rs[k].wraps, t);
    }
  }

  lemma PublicationAfterRemoval(id: string, rs: seq<Request>, i: nat, j: nat, t: Token)
    requires i < j < |rs| && RemovedAt(id, rs, i, t) && NotReAdded(id, rs, i, j, t) && PublishedAt(id, rs, j)
    ensures At(id, rs, i).Live?
    ensures rs[j].envelopeEpoch > At(id, rs, i).epoch && Token(id, rs[j].caller) != t
  {
    RemovedStaysOut(id, rs, i, j, t);
  }

  lemma NoWrapAfterRemoval(id: string, rs: seq<Request>, i: nat, n: nat, t: Token, k: nat, f: int)
    requires i < n <= |rs| && RemovedAt(id, rs, i, t) && NotReAdded(id, rs, i, n, t)
    requires k < n && WrapStoredAt(id, rs, k, t, f)
    ensures At(id, rs, i).Live? && f <= At(id, rs, i).epoch
  {
    StoredWrapEpoch(id, rs, k, t, f);
    RemovedStaysOut(id, rs, i, i + 1, t);
    if k < i {
      LiveSpan(id, rs, k + 1, i);
    } else if k > i {
      RemovedStaysOut(id, rs, i, k, t);
    }
  }

  /**
   Removal cuts a member off. Once a member is removed at epoch e, and until it is
   invited again, every accepted publication is at an epoch above e and by somebody
   else, and no step of the run, before or after the removal, stores a key wrap for
   that member at any epoch above e.
   */
  lemma RemovalCutsOff(id: string, rs: seq<Request>, i: nat, n: nat, t: Token)
    requires i < n <= |rs| && RemovedAt(id, rs, i, t) && NotReAdded(id, rs, i, n, t)
    ensures At(id, rs, i).Live?
    ensures forall j :: i < j < n && PublishedAt(id, rs, j) ==>
              rs[j].envelopeEpoch > At(id, rs, i).epoch && Token(id, rs[j].caller) != t
    ensures forall k, f :: 0 <= k < n && f > At(id, rs, i).epoch ==> !WrapStoredAt(id, rs, k, t, f)
  {
    RemovedStaysOut(id, rs, i, i + 1, t);
    forall j | i < j < n && PublishedAt(id, rs, j)
      ensures rs[j].envelopeEpoch > At(id, rs, i).epoch && Token(id, rs[j].caller) != t
    {
      PublicationAfterRemoval(id, rs, i, j, t);
    }
    forall k, f | 0 <= k < n && WrapStoredAt(id, rs, k, t, f)
      ensures f <= At(id, rs, i).epoch
    {
      NoWrapAfterRemoval(id, rs, i, n, t, k, f);
    }
  }

  // ----- optimistic epoch commits

  /** Two states of one run with equal revision have the same members in the same membership states. */
  lemma {:induction false} RevisionPinsMembership(id: string, rs: seq<Request>, i: nat, j: nat)
    requires i <= j <= |rs|
    requires At(id, rs, i).Live? && At(id, rs, j).Live? && At(id, rs, i).revision == At(id, rs, j).revision
    ensures SameMembership(At(id, rs, i).members, At(id, rs, j).members)
    ensures ActiveTokens(At(id, rs, i).members) == ActiveTokens(At(id, rs, j).members)
  {
    hide Step;
    if i < j {
      LiveSpan(id, rs, i, j);
      LiveSpan(id, rs, i, j - 1);
      var c := At(id, rs, j - 1);
      StepMovesRevision(id, c, rs[j - 1]);
      RevisionPinsMembership(id, rs, i, j - 1);
      assert SameMembership(c.members, At(id, rs, j).members);
    }
  }

  /**
   A commit prepared against the revision of an observed state wraps exactly the
   members that are active when it lands, one wrap each, and each of them then
   holds the wrap submitted for it.
   */
  lemma CommitWrapsObservedMembers(id: string, rs: seq<Request>, i: nat, j: nat)
    requires i <= j < |rs| && rs[j].CommitEpoch? && Accepted(id, rs, j)
    requires At(id, rs, i).Live? && rs[j].expectedRevision == At(id, rs, i).revision
    ensures At(id, rs, j).Live? && At(id, rs, j + 1).Live?
    ensures multiset(WrapTokens(rs[j].wraps)) == multiset(ActiveTokens(At(id, rs, i).members))
    ensures ActiveTokens(At(id, rs, i).members) == ActiveTokens(At(id, rs, j + 1).members)
    ensures forall t :: t in ActiveTokens(At(id, rs, i).members) ==>
              && t in At(id, rs, j + 1).members
              && Wrap(t, At(id, rs, j + 1).members[t].wrapEvent) in rs[j].wraps
              && Label(t, At(id, rs, j + 1).members[t].labelText) in rs[j].labels
  {
    var c, r := At(id, rs, j), rs[j];
    RevisionPinsMembership(id, rs, i, j);
    CommitReseals(id, c, r.caller, r.expectedRevision, r.nextEpoch, r.name, r.labels, r.wraps, r.now);
    var after := At(id, rs, j + 1).members;
    assert forall t :: t in after ==> RowResealed(id, r.caller, r.nextEpoch, r.labels, r.wraps, t, c.members[t], after[t]);
  }

  /**
   Conversely, a well-formed commit prepared from an observed state is accepted
   as long as neither the membership nor the epoch moved in between.
   */
  lemma PreparedCommitIsAccepted(id: string, rs: seq<Request>, i: nat, j: nat)
    requires i <= j < |rs| && rs[j].CommitEpoch?
    requires At(id, rs, i).Live? && At(id, rs, i).owner == Token(id, rs[j].caller)
    requires At(id, rs, j).Live? && At(id, rs, j).epoch == At(id, rs, i).epoch && At(id, rs, j).revision == At(id, rs, i).revision
    requires rs[j].expectedRevision == At(id, rs, i).revision && rs[j].nextEpoch == At(id, rs, i).epoch + 1
    requires multiset(WrapTokens(rs[j].wraps)) == multiset(ActiveTokens(At(id, rs, i).members))
    requires multiset(LabelTokens(rs[j].labels)) == multiset(ActiveTokens(At(id, rs, i).members))
    requires forall w :: w in rs[j].wraps ==> WrapIsValid(id, rs[j].caller, rs[j].nextEpoch, rs[j].now, w)
    ensures Accepted(id, rs, j)
  {
    RevisionPinsMembership(id, rs, i, j);
    LiveSpan(id, rs, i, j);
  }

  /** At most one commit is accepted per epoch: later commits of a run commit later epochs. */
  lemma OneCommitPerEpoch(id: string, rs: seq<Request>, i: nat, j: nat)
    requires i < j < |rs| && rs[i].CommitEpoch? && rs[j].CommitEpoch?
    requires Accepted(id, rs, i) && Accepted(id, rs, j)
    ensures rs[i].nextEpoch < rs[j].nextEpoch
  {
    StepMovesEpoch(id, At(id, rs, i), rs[i]);
    LiveSpan(id, rs, i + 1, j);
    StepMovesEpoch(id, At(id, rs, j), rs[j]);
  }
}
