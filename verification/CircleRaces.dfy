/**
 Publication without the atomicity assumption. `push_envelope` reads the circle
 and inserts the location row in two statements outside a transaction, so any
 other handler may run in between. Here the check and the insert are two steps.
 */
module CircleRaces {
  import opened Common
  import opened KeyWraps
  import opened Circles
  import opened CircleRuns

  /** A publication that passed its checks and is still to be inserted. */
  datatype Ticket = Ticket(sender: Token, blob: Blob)

  datatype World = World(circle: Circle, tickets: set<Ticket>)

  datatype Move =
    | Handle(request: Request)
    | Check(caller: Pubkey, version: int, envelopeEpoch: int, ciphertext: string, expiresAt: int, now: int, bodyOk: bool)
    | Insert(ticket: Ticket)

  predicate Authorises(c: Circle, sender: Token, epoch: int) {
    c.Live? && MayPublish(c, sender) && ReadyFor(c, epoch)
  }

  function TicketOf(id: string, m: Move): Ticket
    requires m.Check?
  {
    Ticket(Token(id, m.caller), Blob(m.envelopeEpoch, m.ciphertext, m.expiresAt))
  }

  /** The body is valid and the circle lets the caller publish at this epoch. */
  predicate Passes(id: string, c: Circle, m: Move)
    requires m.Check?
  {
    && EnvelopeIsValid(m.version, m.envelopeEpoch, m.ciphertext, m.expiresAt, m.now, m.bodyOk)
    && Authorises(c, Token(id, m.caller), m.envelopeEpoch)
  }

  /** An insert needs a ticket and a circle row to refer to, and looks at nothing else. */
  function Next(id: string, w: World, m: Move): World {
    match m
    case Handle(r) => w.(circle := Step(id, w.circle, r).circle)
    case Check(_, _, _, _, _, _, _) =>
      if Passes(id, w.circle, m) then w.(tickets := w.tickets + {TicketOf(id, m)}) else w
    case Insert(ticket) =>
      if w.circle.Live? && ticket in w.tickets
      then w.(circle := w.circle.(blobs := w.circle.blobs[ticket.sender := ticket.blob]))
      else w
  }

  function WorldAt(id: string, ms: seq<Move>, n: nat): World
    requires n <= |ms|
  {
    if n == 0 then World(Unborn, {}) else Next(id, WorldAt(id, ms, n - 1), ms[n - 1])
  }

  // ----- the race touches location rows only

  function WithoutBlobs(c: Circle): Circle {
    if c.Live? then c.(blobs := map[]) else c
  }

  /** The requests among the first `n` moves. */
  function Requests(ms: seq<Move>, n: nat): seq<Request>
    requires n <= |ms|
  {
    if n == 0 then []
    else Requests(ms, n - 1) + if ms[n - 1].Handle? then [ms[n - 1].request] else []
  }

  lemma CommitIgnoresBlobs(id: string, c: Circle, blobs: map<Token, Blob>, caller: Pubkey, rev: int, next: int, name: string,
                           labels: seq<Label>, wraps: seq<Wrap>, now: int)
    requires c.Live?
    ensures var one := Commit(id, c, caller, rev, next, name, labels, wraps, now);
            var two := Commit(id, c.(blobs := blobs), caller, rev, next, name, labels, wraps, now);
            SameButBlobs(one, two)
  {
    hide ApplyLabels, ApplyWraps, ActiveTokens, WrapTokens, LabelTokens, WrapIsValid;
  }

  predicate SameButBlobs(one: Outcome, two: Outcome) {
    WithoutBlobs(one.circle) == WithoutBlobs(two.circle) && one.reply == two.reply
  }

  lemma AddIgnoresBlobs(id: string, c: Circle, blobs: map<Token, Blob>, caller: Pubkey, member: Pubkey, labelText: string,
                        wrapEpoch: int, ev: KeyEvent, now: int)
    requires c.Live?
    ensures SameButBlobs(Add(id, c, caller, member, labelText, wrapEpoch, ev, now),
                         Add(id, c.(blobs := blobs), caller, member, labelText, wrapEpoch, ev, now))
  {
    hide ValidateKeyWrapV2, IsHex64, Lower;
  }

  lemma AcceptIgnoresBlobs(id: string, c: Circle, blobs: map<Token, Blob>, caller: Pubkey)
    requires c.Live?
    ensures SameButBlobs(Accept(id, c, caller), Accept(id, c.(blobs := blobs), caller))
  {
  }

  lemma RemovalsIgnoreBlobs(id: string, c: Circle, blobs: map<Token, Blob>, r: Request)
    requires c.Live? && (r.CreateCircle? || r.RemoveMember? || r.SetEncryption? || r.DeleteCircle?)
    ensures SameButBlobs(Step(id, c, r), Step(id, c.(blobs := blobs), r))
  {
    hide Add, Accept, Commit, Publish, Expire, ApplyLabels;
  }

  lemma LocationsIgnoreBlobs(id: string, c: Circle, blobs: map<Token, Blob>, r: Request)
    requires c.Live? && (r.PushEnvelope? || r.Sweep?)
    ensures SameButBlobs(Step(id, c, r), Step(id, c.(blobs := blobs), r))
  {
    hide Create, Add, Accept, Commit, Remove, Encrypt, Delete, EnvelopeIsValid;
  }

  /** No handler's reply or change of anything but location rows depends on location rows. */
  lemma StepIgnoresBlobs(id: string, c: Circle, d: Circle, r: Request)
    requires WithoutBlobs(c) == WithoutBlobs(d)
    ensures WithoutBlobs(Step(id, c, r).circle) == WithoutBlobs(Step(id, d, r).circle)
    ensures Step(id, c, r).reply == Step(id, d, r).reply
  {
    if c.Live? {
      assert d == c.(blobs := d.blobs);
      hide Create, Add, Accept, Commit, Remove, Encrypt, Publish, Expire, Delete;
      match r
      case CommitEpoch(caller, rev, next, name, labels, wraps, now) =>
        CommitIgnoresBlobs(id, c, d.blobs, caller, rev, next, name, labels, wraps, now);
      case AddMember(caller, member, labelText, wrapEpoch, ev, now) =>
        AddIgnoresBlobs(id, c, d.blobs, caller, member, labelText, wrapEpoch, ev, now);
      case AcceptMember(caller) => AcceptIgnoresBlobs(id, c, d.blobs, caller);
      case PushEnvelope(_, _, _, _, _, _, _, _, _) => LocationsIgnoreBlobs(id, c, d.blobs, r);
      case Sweep(_) => LocationsIgnoreBlobs(id, c, d.blobs, r);
      case _ => RemovalsIgnoreBlobs(id, c, d.blobs, r);
    }
  }

  /**
   Apart from location rows, a run with the race is the run of its requests, so
   whatever `CircleRuns` proves of epochs, members, wraps and revisions holds of it.
   */
  lemma {:induction false} RaceTouchesOnlyBlobs(id: string, ms: seq<Move>, n: nat)
    requires n <= |ms|
    ensures var rs := Requests(ms, n);
            WithoutBlobs(WorldAt(id, ms, n).circle) == WithoutBlobs(At(id, rs, |rs|))
  {
    hide Step, Passes;
    if n > 0 {
      RaceTouchesOnlyBlobs(id, ms, n - 1);
      var rs := Requests(ms, n - 1);
      if ms[n - 1].Handle? {
        var r := ms[n - 1].request;
        StepIgnoresBlobs(id, WorldAt(id, ms, n - 1).circle, At(id, rs, |rs|), r);
        AtPrefix(id, rs, r, |rs|);
      } else {
        assert Requests(ms, n) == rs;
      }
    }
  }

  /** So the row invariant of every reachable state holds but for its location rows. */
  lemma RaceKeepsRows(id: string, ms: seq<Move>, n: nat)
    requires n <= |ms|
    ensures Inv(id, WithoutBlobs(WorldAt(id, ms, n).circle))
  {
    hide At, WorldAt, RowsOk;
    var rs := Requests(ms, n);
    RaceTouchesOnlyBlobs(id, ms, n);
    ReachableInv(id, rs, |rs|);
  }

  // ----- every row was authorised once

  /** State `k` of the run authorises `sender` at `epoch`. */
  predicate AuthorisedAt(id: string, ms: seq<Move>, k: nat, sender: Token, epoch: int)
    requires k <= |ms|
  {
    Authorises(WorldAt(id, ms, k).circle, sender, epoch)
  }

  /**
   With the race, every stored location row was still authorised by some earlier
   state of the run, for its sender and at its epoch; so was every ticket in flight.
   */
  lemma {:induction false} BlobsWereAuthorised(id: string, ms: seq<Move>, n: nat)
    requires n <= |ms|
    ensures forall k :: k in WorldAt(id, ms, n).tickets ==>
              exists i :: 0 <= i <= n && AuthorisedAt(id, ms, i, k.sender, k.blob.epoch)
    ensures var c := WorldAt(id, ms, n).circle;
            c.Live? ==> forall t :: t in c.blobs ==>
              exists i :: 0 <= i <= n && AuthorisedAt(id, ms, i, t, c.blobs[t].epoch)
  {
    if n > 0 {
      BlobsWereAuthorised(id, ms, n - 1);
      var w, w' := WorldAt(id, ms, n - 1), WorldAt(id, ms, n);
      forall k | k in w'.tickets
        ensures exists i :: 0 <= i <= n && AuthorisedAt(id, ms, i, k.sender, k.blob.epoch)
      {
        if k !in w.tickets {
          assert AuthorisedAt(id, ms, n - 1, k.sender, k.blob.epoch);
        }
      }
      if w'.circle.Live? {
        forall t | t in w'.circle.blobs
          ensures exists i :: 0 <= i <= n && AuthorisedAt(id, ms, i, t, w'.circle.blobs[t].epoch)
        {
          BlobOrigin(id, w, ms[n - 1], t);
          var b := w'.circle.blobs[t];
          if Authorises(w.circle, t, b.epoch) {
            assert AuthorisedAt(id, ms, n - 1, t, b.epoch);
          }
        }
      }
    }
  }

  /** A location row after a move was there before, was inserted with a ticket, or was published atomically. */
  lemma BlobOrigin(id: string, w: World, m: Move, t: Token)
    requires Next(id, w, m).circle.Live? && t in Next(id, w, m).circle.blobs
    ensures var b := Next(id, w, m).circle.blobs[t];
            || (w.circle.Live? && t in w.circle.blobs && w.circle.blobs[t] == b)
            || Ticket(t, b) in w.tickets
            || Authorises(w.circle, t, b.epoch)
  {
  }

  /** Every ticket in flight comes from a check that its envelope passed: version 1, some ciphertext, expiring within five minutes. */
  lemma {:induction false} TicketsWereChecked(id: string, ms: seq<Move>, n: nat, ticket: Ticket) returns (i: nat)
    requires n <= |ms| && ticket in WorldAt(id, ms, n).tickets
    ensures i < n && ms[i].Check? && TicketOf(id, ms[i]) == ticket
    ensures AuthorisedAt(id, ms, i, ticket.sender, ticket.blob.epoch)
    ensures ms[i].bodyOk && ms[i].version == 1 && ms[i].envelopeEpoch >= 1 && ms[i].ciphertext != ""
    ensures ms[i].now < ms[i].expiresAt <= ms[i].now + 300
  {
    hide Step;
    if ticket in WorldAt(id, ms, n - 1).tickets {
      i := TicketsWereChecked(id, ms, n - 1, ticket);
    } else {
      i := n - 1;
    }
  }

  // ----- commits

  /** Move `k` is an accepted epoch commit. */
  predicate CommitsAt(id: string, ms: seq<Move>, k: nat)
    requires k < |ms|
  {
    ms[k].Handle? && ms[k].request.CommitEpoch? && Step(id, WorldAt(id, ms, k).circle, ms[k].request).reply == Done
  }

  lemma NextMovesEpoch(id: string, ms: seq<Move>, k: nat)
    requires k < |ms| && WorldAt(id, ms, k).circle.Live?
    ensures var c, c' := WorldAt(id, ms, k).circle, WorldAt(id, ms, k + 1).circle;
            !c'.Unborn? && (c'.Live? ==> c'.epoch == if CommitsAt(id, ms, k) then c.epoch + 1 else c.epoch)
  {
    if ms[k].Handle? {
      StepMovesEpoch(id, WorldAt(id, ms, k).circle, ms[k].request);
    }
  }

  lemma {:induction false} EpochSpan(id: string, ms: seq<Move>, i: nat, j: nat)
    requires i <= j <= |ms| && WorldAt(id, ms, i).circle.Live? && WorldAt(id, ms, j).circle.Live?
    ensures WorldAt(id, ms, i).circle.epoch <= WorldAt(id, ms, j).circle.epoch
    ensures WorldAt(id, ms, i).circle.epoch == WorldAt(id, ms, j).circle.epoch
            <==> forall k :: i <= k < j ==> !CommitsAt(id, ms, k)
  {
    hide Next;
    if i < j {
      LiveBefore(id, ms, i, j - 1);
      NextMovesEpoch(id, ms, j - 1);
      EpochSpan(id, ms, i, j - 1);
    }
  }

  /** A circle that is live at `i` is never unborn again, so live at `j` means live all the way. */
  lemma LiveBefore(id: string, ms: seq<Move>, i: nat, j: nat)
    requires i <= j < |ms| && WorldAt(id, ms, i).circle.Live? && WorldAt(id, ms, j + 1).circle.Live?
    ensures WorldAt(id, ms, j).circle.Live?
  {
    NotUnborn(id, ms, i, j);
  }

  lemma {:induction false} NotUnborn(id: string, ms: seq<Move>, i: nat, j: nat)
    requires i <= j <= |ms| && !WorldAt(id, ms, i).circle.Unborn?
    ensures !WorldAt(id, ms, j).circle.Unborn?
  {
    hide Next;
    if i < j {
      NotUnborn(id, ms, i, j - 1);
      StaysBorn(id, WorldAt(id, ms, j - 1), ms[j - 1]);
    }
  }

  lemma StaysBorn(id: string, w: World, m: Move)
    requires !w.circle.Unborn?
    ensures !Next(id, w, m).circle.Unborn?
  {
  }

  /**
   Exactly when an insert is current: a row inserted at `j` with a ticket checked at
   `i` carries the circle's epoch if and only if no commit landed in between.
   */
  lemma InsertIsCurrentIffNoCommit(id: string, ms: seq<Move>, i: nat, j: nat)
    requires i < j < |ms| && ms[i].Check? && Passes(id, WorldAt(id, ms, i).circle, ms[i])
    requires ms[j] == Insert(TicketOf(id, ms[i])) && WorldAt(id, ms, j).circle.Live?
    ensures var c := WorldAt(id, ms, j + 1).circle;
            && c.Live? && Token(id, ms[i].caller) in c.blobs
            && (c.blobs[Token(id, ms[i].caller)].epoch == c.epoch <==> forall k :: i <= k < j ==> !CommitsAt(id, ms, k))
  {
    TicketsStay(id, ms, i + 1, j, ms[j].ticket);
    EpochSpan(id, ms, i, j);
  }

  lemma {:induction false} TicketsStay(id: string, ms: seq<Move>, i: nat, j: nat, ticket: Ticket)
    requires i <= j <= |ms| && ticket in WorldAt(id, ms, i).tickets
    ensures ticket in WorldAt(id, ms, j).tickets
  {
    if i < j {
      TicketsStay(id, ms, i, j - 1, ticket);
    }
  }

  // ----- removals

  /** Move `k` removes the member with token `t`. */
  predicate RemovesAt(id: string, ms: seq<Move>, k: nat, t: Token)
    requires k < |ms|
  {
    && ms[k].Handle? && ms[k].request.RemoveMember? && Token(id, ms[k].request.target) == t
    && Step(id, WorldAt(id, ms, k).circle, ms[k].request).reply == Done
  }

  /** Move `k` invites (or re-invites) the member with token `t`. */
  predicate InvitesAt(id: string, ms: seq<Move>, k: nat, t: Token)
    requires k < |ms|
  {
    ms[k].Handle? && Adds(id, ms[k].request, t) && Step(id, WorldAt(id, ms, k).circle, ms[k].request).reply == Done
  }

  /** With the race too, a removed member has no row, and the circle is past its epoch or awaits a rekey. */
  lemma {:induction false} RemovedStaysCut(id: string, ms: seq<Move>, i: nat, n: nat, t: Token)
    requires i < n <= |ms| && RemovesAt(id, ms, i, t) && forall k :: i < k < n ==> !InvitesAt(id, ms, k, t)
    ensures WorldAt(id, ms, i).circle.Live? && CutOff(WorldAt(id, ms, n).circle, t, WorldAt(id, ms, i).circle.epoch)
  {
    hide Step;
    var w, m := WorldAt(id, ms, n - 1), ms[n - 1];
    if n == i + 1 {
      RaceKeepsRows(id, ms, i);
      hide Inv;
      var d := WithoutBlobs(w.circle);
      StepIgnoresBlobs(id, w.circle, d, m.request);
      RemovalCuts(id, d, m.request, t);
    } else {
      RemovedStaysCut(id, ms, i, n - 1, t);
      if m.Handle? {
        assert !InvitesAt(id, ms, n - 1, t);
        StepKeepsCut(id, w.circle, m.request, t, WorldAt(id, ms, i).circle.epoch);
      }
    }
  }

  /** A ticket checked since the removal is above its epoch and somebody else's. */
  lemma {:induction false} LaterTickets(id: string, ms: seq<Move>, i: nat, n: nat, t: Token, ticket: Ticket)
    requires i < n <= |ms| && RemovesAt(id, ms, i, t) && forall k :: i < k < n ==> !InvitesAt(id, ms, k, t)
    requires ticket in WorldAt(id, ms, n).tickets && ticket !in WorldAt(id, ms, i).tickets
    ensures WorldAt(id, ms, i).circle.Live?
    ensures ticket.blob.epoch > WorldAt(id, ms, i).circle.epoch && ticket.sender != t
  {
    hide Step, EnvelopeIsValid;
    if ticket in WorldAt(id, ms, n - 1).tickets {
      LaterTickets(id, ms, i, n - 1, t, ticket);
    } else {
      RemovedStaysCut(id, ms, i, n - 1, t);
    }
  }

  /** A ticket checked before the removal is at most at its epoch. */
  lemma EarlierTickets(id: string, ms: seq<Move>, i: nat, ticket: Ticket)
    requires i <= |ms| && WorldAt(id, ms, i).circle.Live? && ticket in WorldAt(id, ms, i).tickets
    ensures ticket.blob.epoch <= WorldAt(id, ms, i).circle.epoch
  {
    hide WorldAt;
    BlobsWereAuthorised(id, ms, i);
    var h :| 0 <= h <= i && AuthorisedAt(id, ms, h, ticket.sender, ticket.blob.epoch);
    EpochSpan(id, ms, h, i);
  }

  /**
   Exactly when removal cuts off a publication in flight: what is inserted after the
   removal of `t` at epoch e, and before a re-invitation, is above e and somebody
   else's if and only if it had not passed its check before the removal.
   */
  lemma CutOffIffCheckedAfter(id: string, ms: seq<Move>, i: nat, j: nat, t: Token)
    requires i < j < |ms| && RemovesAt(id, ms, i, t) && forall k :: i < k < j ==> !InvitesAt(id, ms, k, t)
    requires ms[j].Insert? && ms[j].ticket in WorldAt(id, ms, j).tickets && WorldAt(id, ms, j).circle.Live?
    ensures WorldAt(id, ms, i).circle.Live?
    ensures var c, ticket := WorldAt(id, ms, j + 1).circle, ms[j].ticket;
            c.Live? && ticket.sender in c.blobs && c.blobs[ticket.sender] == ticket.blob
    ensures (ms[j].ticket.blob.epoch > WorldAt(id, ms, i).circle.epoch && ms[j].ticket.sender != t)
            <==> ms[j].ticket !in WorldAt(id, ms, i).tickets
  {
    RemovedStaysCut(id, ms, i, j, t);
    if ms[j].ticket in WorldAt(id, ms, i).tickets {
      EarlierTickets(id, ms, i, ms[j].ticket);
    } else {
      LaterTickets(id, ms, i, j, t, ms[j].ticket);
    }
  }

  // ----- both races happen

  lemma Unroll(id: string, ms: seq<Move>, k: nat)
    requires k < |ms|
    ensures WorldAt(id, ms, k + 1) == Next(id, WorldAt(id, ms, k), ms[k])
  {
  }

  /** The circle of `owner` right after its first commit, at epoch 2. */
  function Fresh(id: string, owner: Pubkey): Circle {
    Live(Token(id, owner), "", 2, 1, false, 0, map[], map[])
  }

  /** The owner of a circle without members commits with empty lists. */
  lemma EmptyCommit(id: string, c: Circle, owner: Pubkey)
    requires c.Live? && c.owner == Token(id, owner) && c.members == map[]
    ensures Commit(id, c, owner, c.revision, c.epoch + 1, "", [], [], 0)
            == Outcome(c.(epoch := c.epoch + 1, protocol := 1, rekey := false, name := "", blobs := map[]), Done)
  {
    assert ActiveTokens(c.members) == {};
    assert WrapTokens([]) == [] && LabelTokens([]) == [];
  }

  function CreateMove(owner: Pubkey): Move {
    Handle(CreateCircle(owner, ""))
  }

  function CommitMove(owner: Pubkey, next: int): Move {
    Handle(CommitEpoch(owner, 0, next, "", [], [], 0))
  }

  /** A valid envelope of epoch 2. */
  function CheckMove(sender: Pubkey): Move {
    Check(sender, 1, 2, "AQ==", 60, 0, true)
  }

  lemma FreshIsReached(id: string, owner: Pubkey, ms: seq<Move>)
    requires |ms| >= 2 && ms[0] == CreateMove(owner) && ms[1] == CommitMove(owner, 2)
    ensures WorldAt(id, ms, 2) == World(Fresh(id, owner), {})
  {
    Unroll(id, ms, 0);
    EmptyCommit(id, WorldAt(id, ms, 1).circle, owner);
  }

  predicate HasStaleBlob(c: Circle, sender: Token) {
    c.Live? && sender in c.blobs && c.blobs[sender].epoch < c.epoch
  }

  /** In every circle: a commit between check and insert leaves a row of the epoch before. */
  lemma StaleBlobIsReachable(id: string, owner: Pubkey)
    ensures exists ms: seq<Move> :: HasStaleBlob(WorldAt(id, ms, |ms|).circle, Token(id, owner))
  {
    var check := CheckMove(owner);
    var ms := [CreateMove(owner), CommitMove(owner, 2), check, CommitMove(owner, 3), Insert(TicketOf(id, check))];
    FreshIsReached(id, owner, ms);
    Unroll(id, ms, 2);
    assert Passes(id, Fresh(id, owner), check);
    EmptyCommit(id, WorldAt(id, ms, 3).circle, owner);
    assert CommitsAt(id, ms, 3);
    Unroll(id, ms, 3);
    hide Step;
    InsertIsCurrentIffNoCommit(id, ms, 2, 4);
    LateEpoch(id, ms, 2, 4);
    assert HasStaleBlob(WorldAt(id, ms, |ms|).circle, Token(id, owner));
  }

  /** An inserted row is never ahead of the circle. */
  lemma LateEpoch(id: string, ms: seq<Move>, i: nat, j: nat)
    requires i < j < |ms| && ms[i].Check? && Passes(id, WorldAt(id, ms, i).circle, ms[i])
    requires ms[j] == Insert(TicketOf(id, ms[i])) && WorldAt(id, ms, j).circle.Live?
    ensures var c := WorldAt(id, ms, j + 1).circle;
            c.Live? && Token(id, ms[i].caller) in c.blobs && c.blobs[Token(id, ms[i].caller)].epoch <= c.epoch
  {
    TicketsStay(id, ms, i + 1, j, ms[j].ticket);
    EpochSpan(id, ms, i, j);
  }

  /** A wrap by `owner` for `member` at epoch 2. */
  function WrapFor(id: string, owner: Pubkey, member: Pubkey): KeyEvent {
    KeyEvent(true, owner, CIRCLE_KEY_EVENT_KIND, 0,
             [["d", CIRCLE_KEY_EVENT_TYPE_V2], ["circle", id], ["epoch", "2"], ["p", member]], "x")
  }

  lemma WrapIsAccepted(id: string, owner: Pubkey, member: Pubkey)
    requires IsHex64(member) && Lower(member) == member
    ensures ValidateKeyWrapV2(owner, id, 2, 0, WrapFor(id, owner, member)) == Some(member)
  {
    var ev := WrapFor(id, owner, member);
    FourTags(ev.tags, "d");
    FourTags(ev.tags, "circle");
    FourTags(ev.tags, "epoch");
    FourTags(ev.tags, "p");
    assert Decimal(2) == "2";
  }

  lemma FourTags(tags: seq<seq<string>>, name: string)
    requires |tags| == 4 && |tags[0]| == |tags[1]| == |tags[2]| == |tags[3]| == 2
    requires tags[0][0] == "d" && tags[1][0] == "circle" && tags[2][0] == "epoch" && tags[3][0] == "p"
    ensures name == "d" ==> TagValues(tags, name) == [tags[0][1]]
    ensures name == "circle" ==> TagValues(tags, name) == [tags[1][1]]
    ensures name == "epoch" ==> TagValues(tags, name) == [tags[2][1]]
    ensures name == "p" ==> TagValues(tags, name) == [tags[3][1]]
  {
    var r1 := tags[1..];
    var r2 := r1[1..];
    var r3 := r2[1..];
    assert TagValues(r3[1..], name) == [];
    assert TagValues(r3, name) == if name == "p" then [tags[3][1]] else [];
    assert TagValues(r2, name) == (if name == "epoch" then [tags[2][1]] else []) + TagValues(r3, name);
    assert TagValues(r1, name) == (if name == "circle" then [tags[1][1]] else []) + TagValues(r2, name);
    assert |"d"| != |"circle"| && |"p"| != |"circle"| && |"d"| != |"epoch"| && |"p"| != |"epoch"|;
    assert "d"[0] != "p"[0] && |"circle"| != |"epoch"|;
  }

  /** The location row of somebody who is neither owner nor member. */
  predicate HasOutsidersBlob(c: Circle, sender: Token) {
    c.Live? && sender in c.blobs && sender != c.owner && sender !in c.members
  }

  function InviteMove(id: string, owner: Pubkey, member: Pubkey): Move {
    Handle(AddMember(owner, member, "", 2, WrapFor(id, owner, member), 0))
  }

  lemma JoinedIsReached(id: string, owner: Pubkey, member: Pubkey, ms: seq<Move>)
    requires IsHex64(member) && Lower(member) == member && member != owner
    requires |ms| >= 4 && ms[0] == CreateMove(owner) && ms[1] == CommitMove(owner, 2)
    requires ms[2] == InviteMove(id, owner, member) && ms[3] == Handle(AcceptMember(member))
    ensures var w := WorldAt(id, ms, 4);
            && w.tickets == {} && Authorises(w.circle, Token(id, member), 2)
            && w.circle.owner == Token(id, owner) && Token(id, member) in w.circle.members
  {
    FreshIsReached(id, owner, ms);
    WrapIsAccepted(id, owner, member);
    hide ValidateKeyWrapV2, IsHex64, Lower;
    Unroll(id, ms, 2);
    Unroll(id, ms, 3);
  }

  /** In every circle: a removal between a member's check and its insert brings the removed member's row back. */
  lemma OutsidersBlobIsReachable(id: string, owner: Pubkey, member: Pubkey)
    requires IsHex64(member) && Lower(member) == member && member != owner
    ensures exists ms: seq<Move> :: HasOutsidersBlob(WorldAt(id, ms, |ms|).circle, Token(id, member))
  {
    var check := CheckMove(member);
    var ms := [CreateMove(owner), CommitMove(owner, 2), InviteMove(id, owner, member), Handle(AcceptMember(member)),
               check, Handle(RemoveMember(owner, member)), Insert(TicketOf(id, check))];
    JoinedIsReached(id, owner, member, ms);
    RemovedThenInserted(id, WorldAt(id, ms, 4), owner, member);
    hide Next, IsHex64, Lower;
    Unroll(id, ms, 4);
    Unroll(id, ms, 5);
    Unroll(id, ms, 6);
    assert HasOutsidersBlob(WorldAt(id, ms, |ms|).circle, Token(id, member));
  }

  lemma RemovedThenInserted(id: string, w: World, owner: Pubkey, member: Pubkey)
    requires owner != member && Authorises(w.circle, Token(id, member), 2)
    requires w.circle.owner == Token(id, owner) && Token(id, member) in w.circle.members
    ensures var check := CheckMove(member);
            var removed := Next(id, Next(id, w, check), Handle(RemoveMember(owner, member)));
            HasOutsidersBlob(Next(id, removed, Insert(TicketOf(id, check))).circle, Token(id, member))
  {
  }
}
