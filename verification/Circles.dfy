/**
 One family circle as the gateway's tables hold it, and what each handler does to
 it. A handler is one atomic step: it either changes the rows and replies `Done`,
 or leaves them as they were and replies with an error.
 */
module Circles {
  import opened Common
  import opened KeyWraps

  const MAX_CIRCLE_MEMBERS := 25
  const MAX_EXPIRY_SECONDS := 300

  /** The per-circle HMAC token of a pubkey, taken as an ideal (injective) function. */
  datatype Token = Token(circle: string, pubkey: Pubkey)

  datatype Membership = Pending | Active

  datatype Member = Member(membership: Membership, labelText: string, wrapEpoch: int, wrapEvent: KeyEvent)

  datatype Blob = Blob(epoch: int, ciphertext: string, expiresAt: int)

  /** The circle row with its member rows and location rows; ids are never reused. */
  datatype Circle =
    | Unborn
    | Live(
        owner: Token,
        name: string,
        epoch: int,
        protocol: int,
        rekey: bool,
        revision: int,
        members: map<Token, Member>,
        blobs: map<Token, Blob>)
    | Deleted

  datatype Label = Label(token: Token, text: string)

  datatype Wrap = Wrap(token: Token, event: KeyEvent)

  /** `caller` is the authenticated pubkey; `now` is the handler's clock reading. */
  datatype Request =
    | CreateCircle(caller: Pubkey, name: string)
    | AddMember(caller: Pubkey, member: Pubkey, labelText: string, wrapEpoch: int, wrapEvent: KeyEvent, now: int)
    | AcceptMember(caller: Pubkey)
    | CommitEpoch(caller: Pubkey, expectedRevision: int, nextEpoch: int, name: string,
                  labels: seq<Label>, wraps: seq<Wrap>, now: int)
    | RemoveMember(caller: Pubkey, target: Pubkey)
    | SetEncryption(caller: Pubkey, name: string, labels: seq<Label>)
      /** `bodyOk`: size, JSON and canonical base64 pass; the rate key and the replay index answer the last two. */
    | PushEnvelope(caller: Pubkey, version: int, envelopeEpoch: int, ciphertext: string, expiresAt: int, now: int,
                   bodyOk: bool, rateLimited: bool, replayed: bool)
      /** The retention worker's deletion of expired location rows. */
    | Sweep(now: int)
    | DeleteCircle(caller: Pubkey)

  datatype Reply = Done | NotFound | Forbidden | BadRequest | Conflict | RateLimited

  datatype Outcome = Outcome(circle: Circle, reply: Reply)

  // ----- row helpers

  function ActiveTokens(members: map<Token, Member>): set<Token> {
    set t | t in members && members[t].membership == Active
  }

  function WrapTokens(wraps: seq<Wrap>): seq<Token> {
    seq(|wraps|, i requires 0 <= i < |wraps| => wraps[i].token)
  }

  function LabelTokens(labels: seq<Label>): seq<Token> {
    seq(|labels|, i requires 0 <= i < |labels| => labels[i].token)
  }

  /** One `UPDATE ... WHERE member_token` per submitted label, in order. */
  function ApplyLabels(members: map<Token, Member>, labels: seq<Label>): map<Token, Member> {
    if labels == [] then members
    else
      var before := ApplyLabels(members, labels[..|labels| - 1]);
      var l := labels[|labels| - 1];
      if l.token in before then before[l.token := before[l.token].(labelText := l.text)] else before
  }

  /** One `UPDATE ... WHERE member_token` per submitted wrap, in order. */
  function ApplyWraps(members: map<Token, Member>, wraps: seq<Wrap>, epoch: int): map<Token, Member> {
    if wraps == [] then members
    else
      var before := ApplyWraps(members, wraps[..|wraps| - 1], epoch);
      var w := wraps[|wraps| - 1];
      if w.token in before
      then before[w.token := before[w.token].(wrapEpoch := epoch, wrapEvent := w.event)]
      else before
  }

  predicate WrapIsValid(id: string, owner: Pubkey, epoch: int, now: int, w: Wrap) {
    var recipient := ValidateKeyWrapV2(owner, id, epoch, now, w.event);
    recipient.Some? && Token(id, recipient.value) == w.token
  }

  /** `validate_circle_state`: the circle publishes at its current epoch only, and not while a rekey is due. */
  predicate ReadyFor(c: Circle, envelopeEpoch: int)
    requires c.Live?
  {
    c.protocol == 1 && !c.rekey && c.epoch == envelopeEpoch
  }

  predicate MayPublish(c: Circle, sender: Token)
    requires c.Live?
  {
    sender == c.owner || (sender in c.members && c.members[sender].membership == Active)
  }

  // ----- handlers

  function Create(id: string, c: Circle, caller: Pubkey, name: string): Outcome {
    if c.Unborn?
    then Outcome(Live(Token(id, caller), name, 1, 0, true, 0, map[], map[]), Done)
    else Outcome(c, Conflict)
  }

  function Add(id: string, c: Circle, caller: Pubkey, member: Pubkey, labelText: string, wrapEpoch: int,
               wrapEvent: KeyEvent, now: int): Outcome
  {
    var pubkey := Lower(member);
    if !IsHex64(member) || pubkey == caller then Outcome(c, BadRequest)
    else if !c.Live? then Outcome(c, NotFound)
    else if c.owner != Token(id, caller) then Outcome(c, Forbidden)
    else if wrapEpoch != c.epoch then Outcome(c, BadRequest)
    else if ValidateKeyWrapV2(caller, id, c.epoch, now, wrapEvent) != Some(pubkey) then Outcome(c, BadRequest)
    else if |c.members| >= MAX_CIRCLE_MEMBERS then Outcome(c, BadRequest)
    else
      var row := Member(Pending, labelText, wrapEpoch, wrapEvent);
      Outcome(c.(members := c.members[Token(id, pubkey) := row], revision := c.revision + 1), Done)
  }

  function Accept(id: string, c: Circle, caller: Pubkey): Outcome {
    var me := Token(id, caller);
    if !c.Live? then Outcome(c, NotFound)
    else if me !in c.members then Outcome(c, Forbidden)
    else if c.members[me].membership != Pending then Outcome(c, Conflict)
    else if c.members[me].wrapEpoch != c.epoch then Outcome(c, Conflict)
    else
      var row := c.members[me].(membership := Active);
      Outcome(c.(members := c.members[me := row], revision := c.revision + 1), Done)
  }

  /** The checks of `commit_epoch` before its first write. */
  function CommitCheck(id: string, c: Circle, caller: Pubkey, expectedRevision: int, nextEpoch: int,
                       labels: seq<Label>, wraps: seq<Wrap>, now: int): Reply
  {
    if !c.Live? then NotFound
    else if c.owner != Token(id, caller) then Forbidden
    else if expectedRevision != c.revision then Conflict
    else if nextEpoch != c.epoch + 1 then BadRequest
    else if multiset(WrapTokens(wraps)) != multiset(ActiveTokens(c.members)) then Conflict
    else if multiset(LabelTokens(labels)) != multiset(ActiveTokens(c.members)) then Conflict
    else if exists i :: 0 <= i < |wraps| && !WrapIsValid(id, caller, nextEpoch, now, wraps[i]) then BadRequest
    else Done
  }

  function Commit(id: string, c: Circle, caller: Pubkey, expectedRevision: int, nextEpoch: int, name: string,
                  labels: seq<Label>, wraps: seq<Wrap>, now: int): Outcome
  {
    var reply := CommitCheck(id, c, caller, expectedRevision, nextEpoch, labels, wraps, now);
    if reply != Done then Outcome(c, reply)
    else
      var members := ApplyLabels(ApplyWraps(c.members, wraps, nextEpoch), labels);
      Outcome(c.(epoch := nextEpoch, protocol := 1, rekey := false, name := name, members := members, blobs := map[]),
              Done)
  }

  function Remove(id: string, c: Circle, caller: Pubkey, target: Pubkey): Outcome {
    var t := Token(id, target);
    if !c.Live? then Outcome(c, NotFound)
    else if c.owner != Token(id, caller) && Token(id, caller) != t then Outcome(c, Forbidden)
    else if t !in c.members then Outcome(c, NotFound)
    else
      Outcome(c.(members := c.members - {t}, blobs := c.blobs - {t}, rekey := true, revision := c.revision + 1), Done)
  }

  function Encrypt(id: string, c: Circle, caller: Pubkey, name: string, labels: seq<Label>): Outcome {
    if !c.Live? || c.owner != Token(id, caller) then Outcome(c, Forbidden)
    else Outcome(c.(name := name, members := ApplyLabels(c.members, labels)), Done)
  }

  /** `validate_body` on the fields that survive parsing. */
  predicate EnvelopeIsValid(version: int, envelopeEpoch: int, ciphertext: string, expiresAt: int, now: int, bodyOk: bool) {
    bodyOk && version == 1 && envelopeEpoch >= 1 && ciphertext != "" && now < expiresAt <= now + MAX_EXPIRY_SECONDS
  }

  function Publish(id: string, c: Circle, caller: Pubkey, version: int, envelopeEpoch: int, ciphertext: string,
                   expiresAt: int, now: int, bodyOk: bool, rateLimited: bool, replayed: bool): Outcome
  {
    var sender := Token(id, caller);
    if !EnvelopeIsValid(version, envelopeEpoch, ciphertext, expiresAt, now, bodyOk) then Outcome(c, BadRequest)
    else if !c.Live? then Outcome(c, NotFound)
    else if !MayPublish(c, sender) then Outcome(c, Forbidden)
    else if !ReadyFor(c, envelopeEpoch) then Outcome(c, Conflict)
    else if rateLimited then Outcome(c, RateLimited)
    else if replayed then Outcome(c, Conflict)
    else Outcome(c.(blobs := c.blobs[sender := Blob(envelopeEpoch, ciphertext, expiresAt)]), Done)
  }

  function Expire(c: Circle, now: int): Outcome {
    if !c.Live? then Outcome(c, Done)
    else Outcome(c.(blobs := map t | t in c.blobs && c.blobs[t].expiresAt > now :: c.blobs[t]), Done)
  }

  function Delete(id: string, c: Circle, caller: Pubkey): Outcome {
    if c.Live? && c.owner == Token(id, caller) then Outcome(Deleted, Done) else Outcome(c, Forbidden)
  }

  function Step(id: string, c: Circle, r: Request): Outcome {
    match r
    case CreateCircle(caller, name) => Create(id, c, caller, name)
    case AddMember(caller, member, labelText, wrapEpoch, ev, now) => Add(id, c, caller, member, labelText, wrapEpoch, ev, now)
    case AcceptMember(caller) => Accept(id, c, caller)
    case CommitEpoch(caller, rev, next, name, labels, wraps, now) =>
      Commit(id, c, caller, rev, next, name, labels, wraps, now)
    case RemoveMember(caller, target) => Remove(id, c, caller, target)
    case SetEncryption(caller, name, labels) => Encrypt(id, c, caller, name, labels)
    case PushEnvelope(caller, version, epoch, text, expiresAt, now, bodyOk, rateLimited, replayed) =>
      Publish(id, c, caller, version, epoch, text, expiresAt, now, bodyOk, rateLimited, replayed)
    case Sweep(now) => Expire(c, now)
    case DeleteCircle(caller) => Delete(id, c, caller)
  }

  /** The circle after the first `n` requests. Every request sequence is a run: refused requests change nothing. */
  function At(id: string, rs: seq<Request>, n: nat): Circle
    requires n <= |rs|
  {
    if n == 0 then Unborn else Step(id, At(id, rs, n - 1), rs[n - 1]).circle
  }

  predicate Accepted(id: string, rs: seq<Request>, k: nat)
    requires k < |rs|
  {
    Step(id, At(id, rs, k), rs[k]).reply == Done
  }

  // ----- facts about the row loops

  /** A label update touches exactly the labels of the rows it names, and each ends with a label submitted for it. */
  lemma {:induction false} LabelsLandOnTheirRows(members: map<Token, Member>, labels: seq<Label>)
    ensures var out := ApplyLabels(members, labels);
            && out.Keys == members.Keys
            && (forall t :: t in members && t !in LabelTokens(labels) ==> out[t] == members[t])
            && (forall t :: t in members && t in LabelTokens(labels) ==>
                  out[t] == members[t].(labelText := out[t].labelText) && Label(t, out[t].labelText) in labels)
  {
    if labels != [] {
      var init, last := labels[..|labels| - 1], labels[|labels| - 1];
      LabelsLandOnTheirRows(members, init);
      assert labels == init + [last];
      assert LabelTokens(labels) == LabelTokens(init) + [last.token];
    }
  }

  /** A wrap update touches exactly the rows it names, and each named row ends with a wrap submitted for it. */
  lemma {:induction false} WrapsLandOnTheirRows(members: map<Token, Member>, wraps: seq<Wrap>, epoch: int)
    ensures var out := ApplyWraps(members, wraps, epoch);
            && out.Keys == members.Keys
            && (forall t :: t in members && t !in WrapTokens(wraps) ==> out[t] == members[t])
            && (forall t :: t in members && t in WrapTokens(wraps) ==>
                  && out[t] == members[t].(wrapEpoch := epoch, wrapEvent := out[t].wrapEvent)
                  && Wrap(t, out[t].wrapEvent) in wraps)
  {
    if wraps != [] {
      var init, last := wraps[..|wraps| - 1], wraps[|wraps| - 1];
      WrapsLandOnTheirRows(members, init, epoch);
      assert wraps == init + [last];
      assert WrapTokens(wraps) == WrapTokens(init) + [last.token];
    }
  }
}
