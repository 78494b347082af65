/**
 The circle handlers as they run: columns and row tables updated statement by
 statement. Each handler is proved to perform one `Step`, so every state of a
 store is a state of a run and inherits what `CircleRuns` proves of runs.
 */
module CircleStore {
  import opened Common
  import opened KeyWraps
  import opened Circles
  import opened CircleRuns

  datatype Phase = NoRow | Present | Gone

  class Store {
    const id: string
    var phase: Phase
    var ownerToken: Token
    var name: string
    var keyEpoch: int
    var protocolVersion: int
    var rekeyRequired: bool
    var membershipRevision: int
    var members: map<Token, Member>
    var blobs: map<Token, Blob>
    ghost var log: seq<Request>

    ghost function View(): Circle
      reads this
    {
      match phase
      case NoRow => Unborn
      case Gone => Deleted
      case Present => Live(ownerToken, name, keyEpoch, protocolVersion, rekeyRequired, membershipRevision, members, blobs)
    }

    /** The rows are what the logged requests led to; `ReachableInv` then gives the row invariant. */
    ghost predicate Valid()
      reads this
    {
      View() == At(id, log, |log|)
    }

    /** The store went from `before` to its present state by request `r`, answered with `reply`. */
    ghost predicate Handled(before: Circle, logged: seq<Request>, r: Request, reply: Reply)
      reads this
    {
      log == logged + [r] && Valid() && View() == Step(id, before, r).circle && reply == Step(id, before, r).reply
    }

    constructor (id: string)
      ensures Valid() && this.id == id && log == [] && View() == Unborn
    {
      this.id := id;
      phase, ownerToken, name := NoRow, Token(id, ""), "";
      keyEpoch, protocolVersion, rekeyRequired, membershipRevision := 1, 0, true, 0;
      members, blobs, log := map[], map[], [];
    }

    ghost method Record(before: Circle, r: Request)
      requires before == At(id, log, |log|) && View() == Step(id, before, r).circle
      modifies this`log
      ensures Handled(before, old(log), r, Step(id, before, r).reply)
    {
      AtPrefix(id, log, r, |log|);
      log := log + [r];
    }

    method CreateCircle(caller: Pubkey, circleName: string) returns (reply: Reply)
      requires Valid()
      modifies this
      ensures Handled(old(View()), old(log), Request.CreateCircle(caller, circleName), reply)
    {
      ghost var before := View();
      if phase == NoRow {
        phase, ownerToken, name := Present, Token(id, caller), circleName;
        keyEpoch, protocolVersion, rekeyRequired, membershipRevision := 1, 0, true, 0;
        members, blobs := map[], map[];
        reply := Done;
      } else {
        reply := Conflict;
      }
      Record(before, Request.CreateCircle(caller, circleName));
    }

    method AddMember(caller: Pubkey, member: Pubkey, labelText: string, wrapEpoch: int, wrapEvent: KeyEvent, now: int)
      returns (reply: Reply)
      requires Valid()
      modifies this
      ensures Handled(old(View()), old(log), Request.AddMember(caller, member, labelText, wrapEpoch, wrapEvent, now), reply)
    {
      ghost var before := View();
      var pubkey := Lower(member);
      if !IsHex64(member) || pubkey == caller {
        reply := BadRequest;
      } else if phase != Present {
        reply := NotFound;
      } else if ownerToken != Token(id, caller) {
        reply := Forbidden;
      } else if wrapEpoch != keyEpoch {
        reply := BadRequest;
      } else if ValidateKeyWrapV2(caller, id, keyEpoch, now, wrapEvent) != Some(pubkey) {
        reply := BadRequest;
      } else if |members| >= MAX_CIRCLE_MEMBERS {
        reply := BadRequest;
      } else {
        members := members[Token(id, pubkey) := Member(Pending, labelText, wrapEpoch, wrapEvent)];
        membershipRevision := membershipRevision + 1;
        reply := Done;
      }
      Record(before, Request.AddMember(caller, member, labelText, wrapEpoch, wrapEvent, now));
    }

    method AcceptMember(caller: Pubkey) returns (reply: Reply)
      requires Valid()
      modifies this
      ensures Handled(old(View()), old(log), Request.AcceptMember(caller), reply)
    {
      ghost var before := View();
      var me := Token(id, caller);
      if phase != Present {
        reply := NotFound;
      } else if me !in members {
        reply := Forbidden;
      } else if members[me].membership != Pending || members[me].wrapEpoch != keyEpoch {
        reply := Conflict;
      } else {
        members := members[me := members[me].(membership := Active)];
        membershipRevision := membershipRevision + 1;
        reply := Done;
      }
      Record(before, Request.AcceptMember(caller));
    }

    /** The wrap validation loop: true exactly when every submitted wrap is bound to its member. */
    method AllWrapsValid(caller: Pubkey, nextEpoch: int, wraps: seq<Wrap>, now: int) returns (ok: bool)
      ensures ok <==> forall i :: 0 <= i < |wraps| ==> WrapIsValid(id, caller, nextEpoch, now, wraps[i])
    {
      for k := 0 to |wraps|
        invariant forall i :: 0 <= i < k ==> WrapIsValid(id, caller, nextEpoch, now, wraps[i])
      {
        var recipient := ValidateKeyWrapV2(caller, id, nextEpoch, now, wraps[k].event);
        if recipient == None || Token(id, recipient.value) != wraps[k].token {
          assert !WrapIsValid(id, caller, nextEpoch, now, wraps[k]);
          return false;
        }
      }
      return true;
    }

    /** One `UPDATE` of the wrap columns per submitted wrap. */
    method StoreWraps(wraps: seq<Wrap>, epoch: int)
      modifies this`members
      ensures members == ApplyWraps(old(members), wraps, epoch)
    {
      for k := 0 to |wraps|
        invariant members == ApplyWraps(old(members), wraps[..k], epoch)
      {
        var w := wraps[k];
        assert wraps[..k + 1][..k] == wraps[..k];
        if w.token in members {
          members := members[w.token := members[w.token].(wrapEpoch := epoch, wrapEvent := w.event)];
        }
      }
      assert wraps[..|wraps|] == wraps;
    }

    /** One `UPDATE` of the label column per submitted label. */
    method StoreLabels(labels: seq<Label>)
      modifies this`members
      ensures members == ApplyLabels(old(members), labels)
    {
      for k := 0 to |labels|
        invariant members == ApplyLabels(old(members), labels[..k])
      {
        var l := labels[k];
        assert labels[..k + 1][..k] == labels[..k];
        if l.token in members {
          members := members[l.token := members[l.token].(labelText := l.text)];
        }
      }
      assert labels[..|labels|] == labels;
    }

    method CommitEpoch(caller: Pubkey, expectedRevision: int, nextEpoch: int, circleName: string,
                       labels: seq<Label>, wraps: seq<Wrap>, now: int)
      returns (reply: Reply)
      requires Valid()
      modifies this
      ensures Handled(old(View()), old(log),
                      Request.CommitEpoch(caller, expectedRevision, nextEpoch, circleName, labels, wraps, now), reply)
    {
      hide CommitCheck, ApplyWraps, ApplyLabels, At;
      ghost var before := View();
      reply := CheckCommit(caller, expectedRevision, nextEpoch, labels, wraps, now);
      if reply == Done {
        keyEpoch, protocolVersion, rekeyRequired, name := nextEpoch, 1, false, circleName;
        StoreWraps(wraps, nextEpoch);
        StoreLabels(labels);
        blobs := map[];
      }
      Record(before, Request.CommitEpoch(caller, expectedRevision, nextEpoch, circleName, labels, wraps, now));
    }

    method CheckCommit(caller: Pubkey, expectedRevision: int, nextEpoch: int, labels: seq<Label>, wraps: seq<Wrap>, now: int)
      returns (reply: Reply)
      ensures reply == CommitCheck(id, View(), caller, expectedRevision, nextEpoch, labels, wraps, now)
      ensures reply == Done ==> phase == Present
    {
      if phase != Present {
        return NotFound;
      }
      if ownerToken != Token(id, caller) {
        return Forbidden;
      }
      if expectedRevision != membershipRevision {
        return Conflict;
      }
      if nextEpoch != keyEpoch + 1 {
        return BadRequest;
      }
      var active := multiset(ActiveTokens(members));
      if multiset(WrapTokens(wraps)) != active || multiset(LabelTokens(labels)) != active {
        return Conflict;
      }
      var ok := AllWrapsValid(caller, nextEpoch, wraps, now);
      return if ok then Done else BadRequest;
    }

    method RemoveMember(caller: Pubkey, target: Pubkey) returns (reply: Reply)
      requires Valid()
      modifies this
      ensures Handled(old(View()), old(log), Request.RemoveMember(caller, target), reply)
      ensures reply == Done <==>
              && old(phase) == Present && Token(id, target) in old(members)
              && (Token(id, caller) == old(ownerToken) || caller == target)
    {
      ghost var before := View();
      var t := Token(id, target);
      if phase != Present {
        reply := NotFound;
      } else if ownerToken != Token(id, caller) && Token(id, caller) != t {
        reply := Forbidden;
      } else if t !in members {
        reply := NotFound;
      } else {
        members := members - {t};
        blobs := blobs - {t};
        rekeyRequired, membershipRevision := true, membershipRevision + 1;
        reply := Done;
      }
      Record(before, Request.RemoveMember(caller, target));
    }

    method SetEncryption(caller: Pubkey, circleName: string, labels: seq<Label>) returns (reply: Reply)
      requires Valid()
      modifies this
      ensures Handled(old(View()), old(log), Request.SetEncryption(caller, circleName, labels), reply)
    {
      ghost var before := View();
      if phase != Present || ownerToken != Token(id, caller) {
        reply := Forbidden;
      } else {
        name := circleName;
        StoreLabels(labels);
        reply := Done;
      }
      Record(before, Request.SetEncryption(caller, circleName, labels));
    }

    method PushEnvelope(caller: Pubkey, version: int, envelopeEpoch: int, ciphertext: string, expiresAt: int, now: int,
                        bodyOk: bool, rateLimited: bool, replayed: bool)
      returns (reply: Reply)
      requires Valid()
      modifies this
      ensures Handled(old(View()), old(log),
                      Request.PushEnvelope(caller, version, envelopeEpoch, ciphertext, expiresAt, now, bodyOk, rateLimited,
                                           replayed), reply)
      ensures reply == Done ==>
                Token(id, caller) in blobs && blobs[Token(id, caller)] == Blob(keyEpoch, ciphertext, expiresAt)
    {
      ghost var before := View();
      var sender := Token(id, caller);
      if !EnvelopeIsValid(version, envelopeEpoch, ciphertext, expiresAt, now, bodyOk) {
        reply := BadRequest;
      } else if phase != Present {
        reply := NotFound;
      } else if sender != ownerToken && (sender !in members || members[sender].membership != Active) {
        reply := Forbidden;
      } else if protocolVersion != 1 || rekeyRequired || keyEpoch != envelopeEpoch {
        reply := Conflict;
      } else if rateLimited {
        reply := RateLimited;
      } else if replayed {
        reply := Conflict;
      } else {
        blobs := blobs[sender := Blob(envelopeEpoch, ciphertext, expiresAt)];
        reply := Done;
      }
      Record(before, Request.PushEnvelope(caller, version, envelopeEpoch, ciphertext, expiresAt, now, bodyOk, rateLimited,
                                          replayed));
    }

    /** Serves the location rows to the owner and to active members: unexpired, and all at the current epoch. */
    method ListEnvelopes(caller: Pubkey, now: int) returns (allowed: bool, envelopes: map<Token, Blob>)
      requires Valid()
      ensures allowed <==> View().Live? && MayPublish(View(), Token(id, caller))
      ensures !allowed ==> envelopes == map[]
      ensures allowed ==> forall t :: t in envelopes <==> t in blobs && blobs[t].expiresAt > now
      ensures forall t :: t in envelopes ==> t in blobs && envelopes[t] == blobs[t] && envelopes[t].epoch == keyEpoch
    {
      ReachableInv(id, log, |log|);
      var me := Token(id, caller);
      allowed := phase == Present && (me == ownerToken || (me in members && members[me].membership == Active));
      envelopes := if allowed then map t | t in blobs && blobs[t].expiresAt > now :: blobs[t] else map[];
    }

    method Sweep(now: int) returns (reply: Reply)
      requires Valid()
      modifies this
      ensures Handled(old(View()), old(log), Request.Sweep(now), reply)
    {
      ghost var before := View();
      blobs := map t | t in blobs && blobs[t].expiresAt > now :: blobs[t];
      reply := Done;
      Record(before, Request.Sweep(now));
    }

    method DeleteCircle(caller: Pubkey) returns (reply: Reply)
      requires Valid()
      modifies this
      ensures Handled(old(View()), old(log), Request.DeleteCircle(caller), reply)
    {
      ghost var before := View();
      if phase == Present && ownerToken == Token(id, caller) {
        phase, members, blobs := Gone, map[], map[];
        reply := Done;
      } else {
        reply := Forbidden;
      }
      Record(before, Request.DeleteCircle(caller));
    }
  }
}
