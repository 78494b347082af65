/**
 The chat slice of the client store: live messages and loaded histories of a channel
 merge into one list ordered by time and id.
 */
module ChatMerge {
  import opened Common

  datatype Message = Message(id: string, channel: string, sender: string, created: int, content: string)

  // ----- the order

  predicate IdLess(a: string, b: string) {
    if b == "" then false
    else if a == "" then true
    else a[0] < b[0] || (a[0] == b[0] && IdLess(a[1..], b[1..]))
  }

  /** The comparator handed to `sort`. */
  function Compare(a: Message, b: Message): int {
    if a.created != b.created then a.created - b.created else if IdLess(a.id, b.id) then -1 else 1
  }

  predicate Precedes(a: Message, b: Message) {
    Compare(a, b) < 0
  }

  lemma {:induction false} IdLessIrreflexive(a: string)
    ensures !IdLess(a, a)
  {
    if a != "" {
      IdLessIrreflexive(a[1..]);
    }
  }

  lemma {:induction false} IdLessTransitive(a: string, b: string, c: string)
    requires IdLess(a, b) && IdLess(b, c)
    ensures IdLess(a, c)
  {
    if a != "" && a[0] == b[0] == c[0] {
      IdLessTransitive(a[1..], b[1..], c[1..]);
    }
  }

  lemma {:induction false} IdLessTotal(a: string, b: string)
    requires a != b
    ensures IdLess(a, b) || IdLess(b, a)
  {
    if a != "" && b != "" && a[0] == b[0] {
      assert a == a[..1] + a[1..] && b == b[..1] + b[1..];
      IdLessTotal(a[1..], b[1..]);
    }
  }

  lemma PrecedesIsStrict(a: Message, b: Message, c: Message)
    ensures !Precedes(a, a)
    ensures Precedes(a, b) && Precedes(b, c) ==> Precedes(a, c)
  {
    IdLessIrreflexive(a.id);
    if IdLess(a.id, b.id) && IdLess(b.id, c.id) {
      IdLessTransitive(a.id, b.id, c.id);
    }
  }

  /** On messages with distinct ids the comparator is total. */
  lemma PrecedesIsTotal(a: Message, b: Message)
    requires a.id != b.id
    ensures Precedes(a, b) || Precedes(b, a)
  {
    IdLessTotal(a.id, b.id);
  }

  predicate Ordered(ms: seq<Message>) {
    forall i, j :: 0 <= i < j < |ms| ==> Precedes(ms[i], ms[j])
  }

  predicate UniqueIds(ms: seq<Message>) {
    forall i, j :: 0 <= i < j < |ms| ==> ms[i].id != ms[j].id
  }

  predicate HasId(ms: seq<Message>, id: string) {
    exists i :: 0 <= i < |ms| && ms[i].id == id
  }

  lemma HasMember(ms: seq<Message>)
    ensures ms != [] ==> exists m :: m in ms
  {
    assert ms != [] ==> ms[0] in ms;
  }

  /** An ordered list is determined by the messages in it. */
  lemma {:induction false} OrderedIsUnique(xs: seq<Message>, ys: seq<Message>)
    requires Ordered(xs) && Ordered(ys) && forall m :: m in xs <==> m in ys
    ensures xs == ys
  {
    hide Precedes;
    if xs == [] {
      HasMember(ys);
    } else {
      assert xs[0] in ys && ys[0] in xs;
      var x, y := xs[0], ys[0];
      PrecedesIsStrict(x, y, x);
      assert x == y;
      assert xs == [x] + xs[1..] && ys == [y] + ys[1..];
      forall m
        ensures m in xs[1..] <==> m in ys[1..]
      {
        PrecedesIsStrict(x, m, m);
        assert m in xs <==> m == x || m in xs[1..];
        assert m in ys <==> m == x || m in ys[1..];
      }
      OrderedIsUnique(xs[1..], ys[1..]);
    }
  }

  // ----- sorting

  function Place(ms: seq<Message>, m: Message): seq<Message> {
    if ms == [] || Precedes(m, ms[0]) then [m] + ms else [ms[0]] + Place(ms[1..], m)
  }

  function Sort(ms: seq<Message>): seq<Message> {
    if ms == [] then [] else Place(Sort(ms[..|ms| - 1]), ms[|ms| - 1])
  }

  lemma {:induction false} PlaceKeepsMessages(ms: seq<Message>, m: Message)
    ensures multiset(Place(ms, m)) == multiset(ms) + multiset{m}
    ensures forall x :: x in Place(ms, m) <==> x in ms || x == m
  {
    hide Precedes;
    if ms != [] && !Precedes(m, ms[0]) {
      PlaceKeepsMessages(ms[1..], m);
    }
    if ms != [] {
      assert ms == [ms[0]] + ms[1..];
    }
  }

  lemma {:induction false} PlaceKeepsOrder(ms: seq<Message>, m: Message)
    requires Ordered(ms) && !HasId(ms, m.id)
    ensures Ordered(Place(ms, m))
  {
    hide Precedes;
    if ms != [] {
      var a, r := ms[0], Place(ms, m);
      if Precedes(m, a) {
        forall j | 0 <= j < |ms|
          ensures Precedes(m, ms[j])
        {
          PrecedesIsStrict(m, a, ms[j]);
        }
      } else {
        PlaceKeepsOrder(ms[1..], m);
        PlaceKeepsMessages(ms[1..], m);
        PrecedesIsTotal(m, a);
        assert r[1..] == Place(ms[1..], m);
        forall j | 1 <= j < |r|
          ensures Precedes(a, r[j])
        {
          assert r[j] in r[1..];
        }
      }
    }
  }

  /** Sorting messages with distinct ids orders them and keeps each exactly once. */
  lemma {:induction false} SortIsCorrect(ms: seq<Message>)
    requires UniqueIds(ms)
    ensures Ordered(Sort(ms)) && multiset(Sort(ms)) == multiset(ms)
    ensures forall m :: m in Sort(ms) <==> m in ms
  {
    hide Precedes;
    if ms != [] {
      var init, m := ms[..|ms| - 1], ms[|ms| - 1];
      SortIsCorrect(init);
      assert ms == init + [m];
      assert forall x :: x in init ==> x.id != m.id;
      assert forall i :: 0 <= i < |Sort(init)| ==> Sort(init)[i] in init;
      PlaceKeepsOrder(Sort(init), m);
      PlaceKeepsMessages(Sort(init), m);
    }
  }

  /** Whatever algorithm `sort` runs, ordering these messages has one result. */
  lemma AnySortAgrees(ms: seq<Message>, sorted: seq<Message>)
    requires UniqueIds(ms) && Ordered(sorted) && multiset(sorted) == multiset(ms)
    ensures sorted == Sort(ms)
  {
    SortIsCorrect(ms);
    forall m
      ensures m in sorted <==> m in Sort(ms)
    {
      assert m in sorted <==> m in multiset(sorted);
      assert m in Sort(ms) <==> m in multiset(Sort(ms));
    }
    OrderedIsUnique(sorted, Sort(ms));
  }

  // ----- merging

  function InsertSorted(ms: seq<Message>, m: Message): seq<Message> {
    if HasId(ms, m.id) then ms else Sort(ms + [m])
  }

  /** The list after `received` has arrived message by message. */
  function Merge(ms: seq<Message>, received: seq<Message>): seq<Message> {
    if received == [] then ms else InsertSorted(Merge(ms, received[..|received| - 1]), received[|received| - 1])
  }

  /** A message is the first to arrive under its id. */
  predicate IsFirst(received: seq<Message>, m: Message) {
    exists i :: 0 <= i < |received| && received[i] == m && !HasId(received[..i], m.id)
  }

  lemma IsFirstStep(received: seq<Message>, last: Message, m: Message)
    ensures IsFirst(received + [last], m) <==> IsFirst(received, m) || (m == last && !HasId(received, last.id))
  {
    var all := received + [last];
    if IsFirst(received, m) {
      var i :| 0 <= i < |received| && received[i] == m && !HasId(received[..i], m.id);
      assert all[..i] == received[..i] && all[i] == m;
    }
    assert all[..|received|] == received && all[|received|] == last;
    if IsFirst(all, m) {
      var i :| 0 <= i < |all| && all[i] == m && !HasId(all[..i], m.id);
      if i < |received| {
        assert all[..i] == received[..i];
      }
    }
  }

  lemma InsertKeepsOrder(ms: seq<Message>, m: Message)
    requires Ordered(ms) && UniqueIds(ms)
    ensures Ordered(InsertSorted(ms, m)) && UniqueIds(InsertSorted(ms, m))
    ensures forall x :: x in InsertSorted(ms, m) <==> x in ms || (x == m && !HasId(ms, m.id))
    ensures |InsertSorted(ms, m)| == |ms| + if HasId(ms, m.id) then 0 else 1
  {
    hide Precedes;
    if !HasId(ms, m.id) {
      var all := ms + [m];
      SortIsCorrect(all);
      var r := Sort(all);
      assert |r| == |multiset(r)| == |multiset(all)| == |all|;
      forall i, j | 0 <= i < j < |r|
        ensures r[i].id != r[j].id
      {
        PrecedesIsStrict(r[i], r[j], r[j]);
        assert r[i] in all && r[j] in all;
        assert Precedes(r[i], r[j]);
      }
    }
  }

  /** Merging from nothing yields an ordered list of exactly the first arrival under every id. */
  lemma {:induction false} MergeIsFirstArrivals(received: seq<Message>)
    ensures Ordered(Merge([], received)) && UniqueIds(Merge([], received))
    ensures forall m :: m in Merge([], received) <==> IsFirst(received, m)
    ensures forall id :: HasId(Merge([], received), id) <==> HasId(received, id)
  {
    if received != [] {
      var init, last := received[..|received| - 1], received[|received| - 1];
      MergeIsFirstArrivals(init);
      var ms := Merge([], init);
      InsertKeepsOrder(ms, last);
      hide Ordered, UniqueIds, InsertSorted, IsFirst;
      assert received == init + [last];
      forall m
        ensures m in Merge([], received) <==> IsFirst(received, m)
      {
        IsFirstStep(init, last, m);
      }
      IdsOfInsert(ms, last, Merge([], received));
      forall id
        ensures HasId(received, id) <==> HasId(init, id) || last.id == id
      {
        if HasId(init, id) {
          var i :| 0 <= i < |init| && init[i].id == id;
          assert received[i].id == id;
        }
        assert received[|init|] == last;
      }
    }
  }

  lemma IdsOfInsert(ms: seq<Message>, m: Message, r: seq<Message>)
    requires forall x :: x in r <==> x in ms || (x == m && !HasId(ms, m.id))
    ensures forall id :: HasId(r, id) <==> HasId(ms, id) || m.id == id
  {
    forall id
      ensures HasId(r, id) <==> HasId(ms, id) || m.id == id
    {
      if HasId(r, id) {
        var i :| 0 <= i < |r| && r[i].id == id;
        assert r[i] in r;
      }
      if HasId(ms, id) {
        var i :| 0 <= i < |ms| && ms[i].id == id;
        assert ms[i] in r;
      } else if m.id == id {
        assert m in r;
      }
    }
  }

  /** Equal ids carry equal messages. */
  predicate Consistent(received: seq<Message>) {
    forall i, j :: 0 <= i < |received| && 0 <= j < |received| && received[i].id == received[j].id ==> received[i] == received[j]
  }

  lemma {:induction false} FirstArrivalExists(received: seq<Message>, k: nat)
    requires k < |received|
    ensures exists i :: 0 <= i <= k && received[i].id == received[k].id && !HasId(received[..i], received[k].id)
  {
    if HasId(received[..k], received[k].id) {
      var i :| 0 <= i < k && received[..k][i].id == received[k].id;
      FirstArrivalExists(received, i);
    }
  }

  lemma MergeIsReceivedSet(received: seq<Message>)
    requires Consistent(received)
    ensures forall m :: m in Merge([], received) <==> m in received
  {
    MergeIsFirstArrivals(received);
    hide Merge, Ordered, UniqueIds;
    forall m | m in received
      ensures IsFirst(received, m)
    {
      var k :| 0 <= k < |received| && received[k] == m;
      FirstArrivalExists(received, k);
    }
  }

  /** Order, repetition and batching do not matter: the list depends on the set of messages alone. */
  lemma MergeDependsOnSet(xs: seq<Message>, ys: seq<Message>)
    requires Consistent(xs) && Consistent(ys) && forall m :: m in xs <==> m in ys
    ensures Merge([], xs) == Merge([], ys)
  {
    MergeIsReceivedSet(xs);
    MergeIsReceivedSet(ys);
    MergeIsFirstArrivals(xs);
    MergeIsFirstArrivals(ys);
    hide Merge, Ordered, IsFirst, Consistent;
    OrderedIsUnique(Merge([], xs), Merge([], ys));
  }

  ghost predicate SameMessages(xs: seq<Message>, ys: seq<Message>) {
    forall m :: m in xs <==> m in ys
  }

  lemma ConsistencyIsOfTheSet(xs: seq<Message>, ys: seq<Message>)
    requires Consistent(xs) && SameMessages(xs, ys)
    ensures Consistent(ys)
  {
    assert forall i :: 0 <= i < |ys| ==> ys[i] in xs;
  }

  lemma FirstIsKept(m: Message, received: seq<Message>)
    ensures m in Merge([], [m] + received)
  {
    hide Merge, Ordered, UniqueIds;
    MergeIsFirstArrivals([m] + received);
    assert ([m] + received)[0] == m && !HasId(([m] + received)[..0], m.id);
  }

  /**
   The list depends on the set of messages alone exactly when equal ids carry equal
   messages: otherwise the first of two messages under one id wins.
   */
  lemma SetDecidesIffConsistent(xs: seq<Message>)
    ensures (forall ys :: SameMessages(xs, ys) ==> Merge([], ys) == Merge([], xs)) <==> Consistent(xs)
  {
    hide Merge;
    if Consistent(xs) {
      forall ys | SameMessages(xs, ys)
        ensures Merge([], ys) == Merge([], xs)
      {
        ConsistencyIsOfTheSet(xs, ys);
        MergeDependsOnSet(ys, xs);
      }
    } else {
      var i, j :| 0 <= i < |xs| && 0 <= j < |xs| && xs[i].id == xs[j].id && xs[i] != xs[j];
      var a, b := xs[i], xs[j];
      FirstIsKept(a, xs);
      FirstIsKept(b, xs);
      assert SameMessages(xs, [a] + xs) && SameMessages(xs, [b] + xs);
      MergeIsFirstArrivals(xs);
      assert !(a in Merge([], xs) && b in Merge([], xs));
    }
  }

  lemma {:induction false} MergeInBatches(ms: seq<Message>, xs: seq<Message>, ys: seq<Message>)
    ensures Merge(ms, xs + ys) == Merge(Merge(ms, xs), ys)
  {
    hide InsertSorted;
    if ys == [] {
      assert xs + ys == xs;
    } else {
      var init := ys[..|ys| - 1];
      MergeInBatches(ms, xs, init);
      assert (xs + ys)[..|xs + ys| - 1] == xs + init;
    }
  }

  // ----- the reducers

  datatype Action =
    | StateLoaded(channel: string)
    | MessageReceived(channel: string, message: Message)
    | HistoryLoaded(channel: string, history: seq<Message>)
    | UnreadCleared(channel: string)
    | ActiveChanged(active: Option<string>)
    | Reset

  datatype Chat = Chat(messages: map<string, seq<Message>>, unread: map<string, nat>, active: Option<string>)

  function List(s: Chat, channel: string): seq<Message> {
    if channel in s.messages then s.messages[channel] else []
  }

  function Unread(s: Chat, channel: string): nat {
    if channel in s.unread then s.unread[channel] else 0
  }

  function Reduce(s: Chat, a: Action): Chat {
    match a
    case StateLoaded(c) => s.(active := Some(c))
    case MessageReceived(c, m) =>
      if HasId(List(s, c), m.id) then s
      else
        var t := s.(messages := s.messages[c := InsertSorted(List(s, c), m)]);
        if s.active == Some(c) then t else t.(unread := t.unread[c := Unread(s, c) + 1])
    case HistoryLoaded(c, h) => s.(messages := s.messages[c := Merge(List(s, c), h)])
    case UnreadCleared(c) => s.(unread := s.unread[c := 0])
    case ActiveChanged(c) =>
      var t := s.(active := c);
      // an empty channel name is falsy and clears nothing
      if c.Some? && c.value != "" then t.(unread := t.unread[c.value := 0]) else t
    case Reset => Chat(map[], map[], None)
  }

  function After(actions: seq<Action>): Chat {
    if actions == [] then Chat(map[], map[], None)
    else Reduce(After(actions[..|actions| - 1]), actions[|actions| - 1])
  }

  lemma AfterOneMore(actions: seq<Action>, a: Action)
    ensures After(actions + [a]) == Reduce(After(actions), a)
  {
    hide Reduce;
    assert (actions + [a])[..|actions|] == actions;
  }

  /** What an action brings to a channel. */
  function Brought(a: Action, channel: string): seq<Message> {
    match a
    case MessageReceived(c, m) => if c == channel then [m] else []
    case HistoryLoaded(c, h) => if c == channel then h else []
    case _ => []
  }

  /** The messages a channel received since the last reset, live or as history, in order of arrival. */
  function Arrivals(actions: seq<Action>, channel: string): seq<Message> {
    if actions == [] then []
    else
      var a := actions[|actions| - 1];
      if a.Reset? then [] else Arrivals(actions[..|actions| - 1], channel) + Brought(a, channel)
  }

  lemma MergeOne(ms: seq<Message>, m: Message)
    ensures Merge(ms, []) == ms && Merge(ms, [m]) == InsertSorted(ms, m)
    ensures HasId(ms, m.id) ==> Merge(ms, [m]) == ms
  {
    assert [m][..0] == [];
  }

  /** Every action but a reset merges what it brings into the channel's list. */
  lemma ReduceMerges(s: Chat, a: Action, channel: string)
    ensures List(Reduce(s, a), channel) == if a.Reset? then [] else Merge(List(s, channel), Brought(a, channel))
  {
    hide InsertSorted, HasId, Merge;
    MergeOne(List(s, channel), if a.MessageReceived? then a.message else Message("", "", "", 0, ""));
  }

  /** In every run a channel's list is the merge of what it received. */
  lemma {:induction false} ListIsMerge(actions: seq<Action>, channel: string)
    ensures List(After(actions), channel) == Merge([], Arrivals(actions, channel))
  {
    hide InsertSorted, List, Reduce, Brought;
    if actions != [] {
      var before, a := actions[..|actions| - 1], actions[|actions| - 1];
      ListIsMerge(before, channel);
      ReduceMerges(After(before), a, channel);
      MergeInBatches([], Arrivals(before, channel), Brought(a, channel));
    } else {
      assert List(After([]), channel) == [] by {
        NothingYet(channel);
      }
    }
  }

  lemma NothingYet(channel: string)
    ensures List(After([]), channel) == []
  {
  }

  /** Any mix of actions leaves every channel ordered by time and id, with no id twice and none lost. */
  lemma ListsStayOrdered(actions: seq<Action>, channel: string)
    ensures var ms := List(After(actions), channel);
            && Ordered(ms) && UniqueIds(ms)
            && (forall m :: m in ms <==> IsFirst(Arrivals(actions, channel), m))
            && (forall id :: HasId(ms, id) <==> HasId(Arrivals(actions, channel), id))
  {
    ListIsMerge(actions, channel);
    MergeIsFirstArrivals(Arrivals(actions, channel));
  }

  /** `a` comes before `b` in the dictionary: at the first difference it ends or has the smaller character. */
  ghost predicate Alphabetical(a: string, b: string) {
    exists p :: 0 <= p <= |a| && p < |b| && a[..p] == b[..p] && (p == |a| || a[p] < b[p])
  }

  lemma {:induction false} IdLessMeans(a: string, b: string)
    ensures IdLess(a, b) ==> Alphabetical(a, b)
  {
    if IdLess(a, b) {
      if a == "" || a[0] < b[0] {
        assert a[..0] == b[..0];
      } else {
        IdLessMeans(a[1..], b[1..]);
        var p :| 0 <= p <= |a[1..]| && p < |b[1..]| && a[1..][..p] == b[1..][..p] && (p == |a[1..]| || a[1..][p] < b[1..][p]);
        assert a[..p + 1] == [a[0]] + a[1..][..p] && b[..p + 1] == [b[0]] + b[1..][..p];
      }
    }
  }

  /** Every channel reads oldest first, and by id where the times are equal. */
  lemma ListsReadOldestFirst(actions: seq<Action>, channel: string, i: nat, j: nat)
    requires i < j < |List(After(actions), channel)|
    ensures var a, b := List(After(actions), channel)[i], List(After(actions), channel)[j];
            a.created < b.created || (a.created == b.created && Alphabetical(a.id, b.id))
  {
    ListsStayOrdered(actions, channel);
    hide After, List, IdLess, IsFirst, Arrivals, UniqueIds, HasId;
    var a, b := List(After(actions), channel)[i], List(After(actions), channel)[j];
    assert Precedes(a, b);
    IdLessMeans(a.id, b.id);
  }

  /** Runs whose arrivals are the same set show the same list, whatever else happened. */
  lemma ListDependsOnArrivals(one: seq<Action>, two: seq<Action>, channel: string)
    requires Consistent(Arrivals(one, channel)) && Consistent(Arrivals(two, channel))
    requires forall m :: m in Arrivals(one, channel) <==> m in Arrivals(two, channel)
    ensures List(After(one), channel) == List(After(two), channel)
  {
    hide After, Arrivals, Consistent, Merge, List;
    ListIsMerge(one, channel);
    ListIsMerge(two, channel);
    MergeDependsOnSet(Arrivals(one, channel), Arrivals(two, channel));
  }

  lemma {:induction false} MergeGrows(ms: seq<Message>, received: seq<Message>)
    requires Ordered(ms) && UniqueIds(ms)
    ensures Ordered(Merge(ms, received)) && UniqueIds(Merge(ms, received)) && |Merge(ms, received)| >= |ms|
  {
    hide InsertSorted, Ordered, UniqueIds, HasId;
    if received != [] {
      MergeGrows(ms, received[..|received| - 1]);
      InsertKeepsOrder(Merge(ms, received[..|received| - 1]), received[|received| - 1]);
    }
  }

  /** A channel never counts more unread messages than it shows. */
  lemma {:induction false} UnreadAreShown(actions: seq<Action>, channel: string)
    ensures Unread(After(actions), channel) <= |List(After(actions), channel)|
  {
    if actions != [] {
      var before, a := actions[..|actions| - 1], actions[|actions| - 1];
      UnreadAreShown(before, channel);
      ListsStayOrdered(before, channel);
      hide InsertSorted, Ordered, UniqueIds, HasId, IsFirst, Arrivals;
      match a
      case MessageReceived(c, m) => InsertKeepsOrder(List(After(before), channel), m);
      case HistoryLoaded(c, h) => MergeGrows(List(After(before), channel), h);
      case _ =>
    }
  }

  /** The channel an action makes active, if it sets that. */
  function Activates(a: Action): Option<Option<string>> {
    match a
    case StateLoaded(c) => Some(Some(c))
    case ActiveChanged(c) => Some(c)
    case Reset => Some(None)
    case _ => None
  }

  /** The active channel is the one set last, and none before that. */
  lemma {:induction false} ActiveIsLastSet(actions: seq<Action>)
    ensures || (After(actions).active == None && forall i :: 0 <= i < |actions| ==> Activates(actions[i]) == None)
            || exists k :: 0 <= k < |actions| && Activates(actions[k]) == Some(After(actions).active) &&
                 forall i :: k < i < |actions| ==> Activates(actions[i]) == None
  {
    hide InsertSorted, HasId, Merge;
    if actions != [] {
      var n := |actions| - 1;
      ActiveIsLastSet(actions[..n]);
      assert forall i :: 0 <= i < n ==> actions[..n][i] == actions[i];
      if Activates(actions[n]) == None && exists k :: 0 <= k < n && Activates(actions[k]) != None {
        var k :| 0 <= k < n && Activates(actions[..n][k]) == Some(After(actions[..n]).active) &&
                 forall i :: k < i < n ==> Activates(actions[..n][i]) == None;
        assert Activates(actions[k]) == Some(After(actions).active);
      }
    }
  }

  /** Action `i` is a live message, new to channel `c`, while `c` is not active. */
  predicate CountsAt(actions: seq<Action>, i: nat, c: string)
    requires i < |actions|
  {
    && actions[i].MessageReceived? && actions[i].channel == c
    && !HasId(Arrivals(actions[..i], c), actions[i].message.id)
    && After(actions[..i]).active != Some(c)
  }

  /** The action marks channel `c` read. */
  predicate Reads(a: Action, c: string) {
    || a == UnreadCleared(c)
    || (a == ActiveChanged(Some(c)) && c != "")
    || a == Reset
  }

  /** The live messages of `c` that came while it was not active and have not been read since. */
  function UnreadAt(actions: seq<Action>, c: string): set<nat> {
    set i | 0 <= i < |actions| && CountsAt(actions, i, c) && forall j :: i < j < |actions| ==> !Reads(actions[j], c)
  }

  lemma UnreadStep(s: Chat, a: Action, c: string)
    ensures Unread(Reduce(s, a), c) ==
            if Reads(a, c) then 0
            else Unread(s, c) + (if a.MessageReceived? && a.channel == c && !HasId(List(s, c), a.message.id) && s.active != Some(c) then 1 else 0)
  {
    hide InsertSorted, HasId, Merge;
  }

  lemma UnreadAtNext(actions: seq<Action>, c: string)
    requires actions != []
    ensures var n := |actions| - 1;
            UnreadAt(actions, c) ==
            if Reads(actions[n], c) then {} else UnreadAt(actions[..n], c) + if CountsAt(actions, n, c) then {n} else {}
  {
    var n := |actions| - 1;
    hide HasId, Arrivals, After, Reads;
    assert forall i: nat :: i < n ==> actions[..n][..i] == actions[..i] && actions[..n][i] == actions[i];
    assert forall i: nat :: i < n ==> (CountsAt(actions, i, c) <==> CountsAt(actions[..n], i, c));
    if Reads(actions[n], c) {
      assert !CountsAt(actions, n, c) by {
        ReadsCountNothing(actions[n], c);
      }
    }
  }

  lemma ReadsCountNothing(a: Action, c: string)
    requires Reads(a, c)
    ensures !a.MessageReceived?
  {
  }

  /** The unread count of a channel is exactly the number of its unread messages. */
  lemma {:induction false} UnreadIsCounted(actions: seq<Action>, c: string)
    ensures Unread(After(actions), c) == |UnreadAt(actions, c)|
  {
    if actions == [] {
      assert UnreadAt(actions, c) == {};
    } else {
      var n := |actions| - 1;
      UnreadIsCounted(actions[..n], c);
      UnreadAtNext(actions, c);
      UnreadStep(After(actions[..n]), actions[n], c);
      ListsStayOrdered(actions[..n], c);
      hide Reduce, Reads, HasId, List, Unread, UnreadAt, Ordered, UniqueIds, IsFirst, Arrivals;
      assert n !in UnreadAt(actions[..n], c) by {
        UnreadAtBound(actions[..n], c);
      }
    }
  }

  lemma UnreadAtBound(actions: seq<Action>, c: string)
    ensures forall i :: i in UnreadAt(actions, c) ==> i < |actions|
  {
  }

  /** The slice: its reducers assign into the three tables. */
  class ChatSlice {
    var messages: map<string, seq<Message>>
    var unread: map<string, nat>
    var active: Option<string>
    ghost var log: seq<Action>

    ghost function State(): Chat
      reads this
    {
      Chat(messages, unread, active)
    }

    ghost predicate Valid()
      reads this
    {
      State() == After(log)
    }

    constructor ()
      ensures Valid() && log == []
    {
      messages, unread, active := map[], map[], None;
      log := [];
    }

    method ChannelStateLoaded(channel: string)
      requires Valid()
      modifies this
      ensures Valid() && log == old(log) + [StateLoaded(channel)]
    {
      log := log + [StateLoaded(channel)];
      active := Some(channel);
    }

    method ChannelMessageReceived(channel: string, message: Message)
      requires Valid()
      modifies this
      ensures Valid() && log == old(log) + [MessageReceived(channel, message)]
    {
      hide After, InsertSorted, Ordered, UniqueIds, HasId, IsFirst, Arrivals, Sort, Merge;
      ListsStayOrdered(log, channel);
      AfterOneMore(log, MessageReceived(channel, message));
      log := log + [MessageReceived(channel, message)];
      var existing := if channel in messages then messages[channel] else [];
      InsertKeepsOrder(existing, message);
      var next := InsertSorted(existing, message);
      if |next| != |existing| {
        messages := messages[channel := next];
        if active != Some(channel) {
          unread := unread[channel := (if channel in unread then unread[channel] else 0) + 1];
        }
      }
    }

    method ChannelHistoryLoaded(channel: string, history: seq<Message>)
      requires Valid()
      modifies this
      ensures Valid() && log == old(log) + [HistoryLoaded(channel, history)]
    {
      log := log + [HistoryLoaded(channel, history)];
      var next := if channel in messages then messages[channel] else [];
      ghost var existing := next;
      for i := 0 to |history|
        invariant next == Merge(existing, history[..i])
      {
        assert history[..i + 1][..i] == history[..i];
        next := InsertSorted(next, history[i]);
      }
      assert history[..|history|] == history;
      messages := messages[channel := next];
    }

    method ChannelUnreadCleared(channel: string)
      requires Valid()
      modifies this
      ensures Valid() && log == old(log) + [UnreadCleared(channel)]
    {
      log := log + [UnreadCleared(channel)];
      unread := unread[channel := 0];
    }

    method ActiveChannelChanged(channel: Option<string>)
      requires Valid()
      modifies this
      ensures Valid() && log == old(log) + [ActiveChanged(channel)]
    {
      log := log + [ActiveChanged(channel)];
      active := channel;
      if channel.Some? && channel.value != "" {
        unread := unread[channel.value := 0];
      }
    }

    method ChatReset()
      requires Valid()
      modifies this
      ensures Valid() && log == old(log) + [Reset]
    {
      log := log + [Reset];
      messages, unread, active := map[], map[], None;
    }
  }
}
