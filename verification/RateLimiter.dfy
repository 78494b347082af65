/**
 The in-memory rate limiter of the report routes: per key a count and the start of
 its window. The window is fixed, opened by the first check that finds the previous
 one over.
 */
module RateLimits {
  import opened Common

  datatype Entry = Entry(count: nat, start: int)

  datatype Limits = Limits(max: nat, window: nat)

  datatype Call = Call(key: string, now: int)

  /** Time since `start`; a start in the future counts as zero. */
  function Elapsed(start: int, now: int): nat {
    if start <= now then now - start else 0
  }

  /** The entry a check works on: one that is missing is inserted with count zero. */
  function Seen(table: map<string, Entry>, c: Call): Entry {
    if c.key in table then table[c.key] else Entry(0, c.now)
  }

  function Opens(table: map<string, Entry>, c: Call, l: Limits): bool {
    Elapsed(Seen(table, c).start, c.now) >= l.window
  }

  function Admits(table: map<string, Entry>, c: Call, l: Limits): bool {
    Opens(table, c, l) || Seen(table, c).count < l.max
  }

  function Checked(table: map<string, Entry>, c: Call, l: Limits): map<string, Entry> {
    var e := Seen(table, c);
    table[c.key :=
      if Opens(table, c, l) then Entry(1, c.now)
      else if e.count < l.max then e.(count := e.count + 1)
      else e]
  }

  // ----- runs

  /** The table after the first `n` calls of a run. */
  function At(cs: seq<Call>, l: Limits, n: nat): map<string, Entry>
    requires n <= |cs|
  {
    if n == 0 then map[] else Checked(At(cs, l, n - 1), cs[n - 1], l)
  }

  predicate Admitted(cs: seq<Call>, l: Limits, i: nat)
    requires i < |cs|
  {
    Admits(At(cs, l, i), cs[i], l)
  }

  /** How many calls for `key` were admitted among calls `lo..hi`. */
  function Admissions(cs: seq<Call>, l: Limits, key: string, lo: nat, hi: nat): nat
    requires lo <= hi <= |cs|
  {
    if lo == hi then 0
    else
      Admissions(cs, l, key, lo, hi - 1) + if cs[hi - 1].key == key && Admitted(cs, l, hi - 1) then 1 else 0
  }

  /** The clock never goes backwards. */
  predicate Ordered(cs: seq<Call>) {
    forall i, j :: 0 <= i < j < |cs| ==> cs[i].now <= cs[j].now
  }

  /** A key's count stays within one and the maximum, and its window never starts in the future. */
  lemma {:induction false} EntryBounds(cs: seq<Call>, l: Limits, key: string, n: nat)
    requires l.max >= 1 && n <= |cs| && Ordered(cs) && key in At(cs, l, n)
    ensures 1 <= At(cs, l, n)[key].count <= l.max
    ensures forall i :: n <= i < |cs| ==> At(cs, l, n)[key].start <= cs[i].now
  {
    if key in At(cs, l, n - 1) {
      EntryBounds(cs, l, key, n - 1);
    }
  }

  // ----- one window length

  /** Within one window length a key's window is replaced at most once, and only admissions raise its count. */
  lemma {:induction false} OneReplacement(cs: seq<Call>, l: Limits, key: string, lo: nat, hi: nat)
    requires l.max >= 1 && lo <= hi <= |cs| && Ordered(cs) && key in At(cs, l, lo)
    requires lo < hi ==> cs[hi - 1].now - cs[lo].now < l.window
    ensures key in At(cs, l, hi)
    ensures var e, f := At(cs, l, lo)[key], At(cs, l, hi)[key];
            || (f.start == e.start && Admissions(cs, l, key, lo, hi) == f.count - e.count)
            || (lo < hi && f.start >= cs[lo].now && Admissions(cs, l, key, lo, hi) <= l.max - e.count + f.count)
  {
    if lo < hi {
      OneReplacement(cs, l, key, lo, hi - 1);
      EntryBounds(cs, l, key, lo);
      EntryBounds(cs, l, key, hi - 1);
    }
  }

  /** From a key's first call on, one window length admits at most one window's worth. */
  lemma {:induction false} FirstWindow(cs: seq<Call>, l: Limits, key: string, lo: nat, hi: nat)
    requires l.max >= 1 && l.window >= 1 && lo <= hi <= |cs| && Ordered(cs) && key !in At(cs, l, lo)
    requires lo < hi ==> cs[hi - 1].now - cs[lo].now < l.window
    ensures key !in At(cs, l, hi) ==> Admissions(cs, l, key, lo, hi) == 0
    ensures key in At(cs, l, hi) ==>
              lo < hi && At(cs, l, hi)[key].start >= cs[lo].now && Admissions(cs, l, key, lo, hi) == At(cs, l, hi)[key].count
  {
    if lo < hi {
      FirstWindow(cs, l, key, lo, hi - 1);
    }
  }

  /**
   Any stretch of a run shorter than one window admits fewer than twice the maximum for
   a key: the check that opened the earlier window fell before the stretch.
   */
  lemma BurstBound(cs: seq<Call>, l: Limits, key: string, lo: nat, hi: nat)
    requires l.max >= 1 && l.window >= 1 && lo < hi <= |cs| && Ordered(cs)
    requires cs[hi - 1].now - cs[lo].now < l.window
    ensures Admissions(cs, l, key, lo, hi) <= 2 * l.max - 1
  {
    hide At, Admissions;
    if key in At(cs, l, lo) {
      OneReplacement(cs, l, key, lo, hi);
      EntryBounds(cs, l, key, lo);
    } else {
      FirstWindow(cs, l, key, lo, hi);
    }
    if key in At(cs, l, hi) {
      EntryBounds(cs, l, key, hi);
    }
  }

  // ----- the bound is reached

  function Repeat(c: Call, n: nat): (cs: seq<Call>)
    ensures |cs| == n && forall i :: 0 <= i < n ==> cs[i] == c
  {
    seq(n, _ => c)
  }

  /** One call, the rest of its window's allowance at its last instant, and a full next window. */
  function Burst(l: Limits, key: string): (cs: seq<Call>)
    requires l.max >= 1 && l.window >= 2
    ensures |cs| == 2 * l.max
    ensures forall i :: 0 <= i < |cs| ==>
              cs[i] == Call(key, if i == 0 then 0 else if i < l.max then l.window - 1 else l.window)
  {
    [Call(key, 0)] + Repeat(Call(key, l.window - 1), l.max - 1) + Repeat(Call(key, l.window), l.max)
  }

  lemma {:induction false} BurstIsAdmitted(l: Limits, key: string, n: nat)
    requires l.max >= 1 && l.window >= 2 && 1 <= n <= 2 * l.max
    ensures key in At(Burst(l, key), l, n)
    ensures At(Burst(l, key), l, n)[key] == if n <= l.max then Entry(n, 0) else Entry(n - l.max, l.window)
    ensures Admissions(Burst(l, key), l, key, 1, n) == n - 1
  {
    var cs := Burst(l, key);
    hide Burst;
    if n == 1 {
      assert At(cs, l, 0) == map[];
    } else {
      BurstIsAdmitted(l, key, n - 1);
    }
  }

  /** For every maximum there is a run in which a stretch below one window admits 2 * max - 1 calls. */
  lemma BurstBoundIsReached(l: Limits, key: string)
    requires l.max >= 1 && l.window >= 2
    ensures exists cs: seq<Call> ::
              && Ordered(cs) && |cs| == 2 * l.max && cs[|cs| - 1].now - cs[1].now < l.window
              && Admissions(cs, l, key, 1, |cs|) == 2 * l.max - 1
  {
    var cs := Burst(l, key);
    BurstIsAdmitted(l, key, |cs|);
    assert Ordered(cs);
  }

  /** What a sliding window promises: no stretch shorter than the window admits more than the maximum. */
  ghost predicate Slides(l: Limits) {
    forall cs: seq<Call>, key, lo: nat, hi: nat ::
      lo < hi <= |cs| && Ordered(cs) && cs[hi - 1].now - cs[lo].now < l.window ==> Admissions(cs, l, key, lo, hi) <= l.max
  }

  /** With a maximum of zero, a key that was refused is admitted one window later. */
  lemma ZeroStillAdmits(l: Limits, key: string)
    requires l.max == 0 && l.window >= 1
    ensures Admissions([Call(key, 0), Call(key, l.window)], l, key, 1, 2) == 1
  {
    var cs := [Call(key, 0), Call(key, l.window)];
    assert At(cs, l, 0) == map[];
    assert At(cs, l, 1) == map[key := Entry(0, 0)];
    assert Admitted(cs, l, 1);
    assert Admissions(cs, l, key, 1, 1) == 0;
  }

  /** The limiter keeps the promise of a sliding window exactly when the maximum is one. */
  lemma SlidesIffMaxIsOne(l: Limits)
    requires l.window >= 2
    ensures Slides(l) <==> l.max == 1
  {
    if l.max == 0 {
      ZeroStillAdmits(l, "");
      assert Ordered([Call("", 0), Call("", l.window)]);
    } else {
      BurstBoundIsReached(l, "");
      hide Admissions;
      if l.max == 1 {
        forall cs: seq<Call>, key, lo: nat, hi: nat | lo < hi <= |cs| && Ordered(cs) && cs[hi - 1].now - cs[lo].now < l.window
          ensures Admissions(cs, l, key, lo, hi) <= l.max
        {
          BurstBound(cs, l, key, lo, hi);
        }
      }
    }
  }

  // ----- a whole run

  /** How many windows a key has opened. */
  function Windows(cs: seq<Call>, l: Limits, key: string, n: nat): nat
    requires n <= |cs|
  {
    if n == 0 then 0
    else
      Windows(cs, l, key, n - 1) +
      if cs[n - 1].key == key && (key !in At(cs, l, n - 1) || Opens(At(cs, l, n - 1), cs[n - 1], l)) then 1 else 0
  }

  function Times(n: int, k: int): int {
    n * k
  }

  lemma TimesNext(n: int, k: int)
    ensures Times(n, k) == Times(n - 1, k) + k
  {
  }

  /** Windows do not overlap, and each admits at most the maximum. */
  lemma {:induction false} WindowsAreSpaced(cs: seq<Call>, l: Limits, key: string, first: nat, n: nat)
    requires l.max >= 1 && l.window >= 1 && first < n <= |cs| && Ordered(cs)
    requires cs[first].key == key && forall i :: 0 <= i < first ==> cs[i].key != key
    ensures key in At(cs, l, n) && Windows(cs, l, key, n) >= 1
    ensures At(cs, l, n)[key].start >= cs[first].now + Times(Windows(cs, l, key, n) - 1, l.window)
    ensures Admissions(cs, l, key, 0, n) <= Times(Windows(cs, l, key, n) - 1, l.max) + At(cs, l, n)[key].count
  {
    if n - 1 == first {
      Untouched(cs, l, key, first);
    } else {
      WindowsAreSpaced(cs, l, key, first, n - 1);
      EntryBounds(cs, l, key, n - 1);
      var w := Windows(cs, l, key, n - 1);
      TimesNext(w, l.window);
      TimesNext(w, l.max);
      hide Times;
    }
  }

  lemma {:induction false} Untouched(cs: seq<Call>, l: Limits, key: string, n: nat)
    requires n <= |cs| && forall i :: 0 <= i < n ==> cs[i].key != key
    ensures key !in At(cs, l, n) && Windows(cs, l, key, n) == 0 && Admissions(cs, l, key, 0, n) == 0
  {
    if n > 0 {
      Untouched(cs, l, key, n - 1);
    }
  }

  lemma QuotientBound(n: int, window: int, duration: int)
    requires window >= 1 && Times(n, window) <= duration
    ensures n <= duration / window
  {
    assert duration < (duration / window + 1) * window;
  }

  lemma TimesMonotone(a: int, b: int, k: nat)
    requires a <= b
    ensures Times(a, k) <= Times(b, k)
  {
  }

  /** A run lasting `duration` from a key's first call admits at most one allowance per window begun. */
  lemma RunBound(cs: seq<Call>, l: Limits, key: string, first: nat, duration: nat)
    requires l.max >= 1 && l.window >= 1 && first < |cs| && Ordered(cs)
    requires cs[first].key == key && forall i :: 0 <= i < first ==> cs[i].key != key
    requires cs[|cs| - 1].now - cs[first].now <= duration
    ensures Admissions(cs, l, key, 0, |cs|) <= l.max * (duration / l.window + 1)
  {
    hide Admissions, Windows;
    WindowsAreSpaced(cs, l, key, first, |cs|);
    EntryBounds(cs, l, key, |cs|);
    LastStart(cs, l, key, |cs|);
    hide At;
    var w, q := Windows(cs, l, key, |cs|), duration / l.window;
    QuotientBound(w - 1, l.window, duration);
    TimesNext(w, l.max);
    TimesMonotone(w, q + 1, l.max);
    assert Times(q + 1, l.max) == l.max * (q + 1);
    hide Times;
  }

  lemma {:induction false} LastStart(cs: seq<Call>, l: Limits, key: string, n: nat)
    requires 0 < n <= |cs| && Ordered(cs) && key in At(cs, l, n)
    ensures At(cs, l, n)[key].start <= cs[n - 1].now
  {
    if key in At(cs, l, n - 1) {
      LastStart(cs, l, key, n - 1);
    }
  }

  // ----- refusals

  /** The call that opened a key's current window. */
  function Opening(cs: seq<Call>, l: Limits, key: string, n: nat): nat
    requires n <= |cs|
  {
    if n == 0 then 0
    else if cs[n - 1].key == key && (key !in At(cs, l, n - 1) || Opens(At(cs, l, n - 1), cs[n - 1], l)) then n - 1
    else Opening(cs, l, key, n - 1)
  }

  /** The count is exactly what the key's current window has admitted. */
  lemma {:induction false} CountIsAdmissions(cs: seq<Call>, l: Limits, key: string, n: nat)
    requires l.max >= 1 && n <= |cs| && key in At(cs, l, n)
    ensures var o := Opening(cs, l, key, n);
            && o < n && cs[o].now == At(cs, l, n)[key].start
            && Admissions(cs, l, key, o, n) == At(cs, l, n)[key].count
  {
    if cs[n - 1].key == key && (key !in At(cs, l, n - 1) || Opens(At(cs, l, n - 1), cs[n - 1], l)) {
      assert Admissions(cs, l, key, n - 1, n - 1) == 0;
    } else {
      CountIsAdmissions(cs, l, key, n - 1);
    }
  }

  /** No spurious refusal: a refused key was admitted the full maximum less than one window ago. */
  lemma RefusedMeansFull(cs: seq<Call>, l: Limits, i: nat)
    requires l.max >= 1 && i < |cs| && Ordered(cs) && !Admitted(cs, l, i)
    ensures exists o: nat :: o < i && cs[i].now - cs[o].now < l.window && Admissions(cs, l, cs[i].key, o, i) == l.max
  {
    var key := cs[i].key;
    assert key in At(cs, l, i);
    EntryBounds(cs, l, key, i);
    CountIsAdmissions(cs, l, key, i);
    var o := Opening(cs, l, key, i);
    assert Admissions(cs, l, key, o, i) == l.max;
  }

  // ----- keys do not interfere

  /** The calls of one key. */
  function Own(cs: seq<Call>, key: string): seq<Call> {
    if cs == [] then []
    else Own(cs[..|cs| - 1], key) + if cs[|cs| - 1].key == key then [cs[|cs| - 1]] else []
  }

  lemma {:induction false} AtPrefix(cs: seq<Call>, more: seq<Call>, l: Limits, n: nat)
    requires n <= |cs|
    ensures At(cs + more, l, n) == At(cs, l, n)
  {
    if n > 0 {
      AtPrefix(cs, more, l, n - 1);
    }
  }

  lemma {:induction false} AdmissionsPrefix(cs: seq<Call>, more: seq<Call>, l: Limits, key: string, n: nat)
    requires n <= |cs|
    ensures Admissions(cs + more, l, key, 0, n) == Admissions(cs, l, key, 0, n)
  {
    if n > 0 {
      AdmissionsPrefix(cs, more, l, key, n - 1);
      AtPrefix(cs, more, l, n - 1);
    }
  }

  /** What a key has in a table after a whole run, and how often it was admitted. */
  function Outcome(cs: seq<Call>, l: Limits, key: string): (Option<Entry>, nat) {
    var table := At(cs, l, |cs|);
    (if key in table then Some(table[key]) else None, Admissions(cs, l, key, 0, |cs|))
  }

  /** The outcome of one more call, in terms of the key's own outcome so far. */
  function Extend(before: (Option<Entry>, nat), c: Call, l: Limits): (Option<Entry>, nat) {
    var table := if before.0.Some? then map[c.key := before.0.value] else map[];
    (Some(Checked(table, c, l)[c.key]), before.1 + if Admits(table, c, l) then 1 else 0)
  }

  lemma OutcomeOfOneMore(cs: seq<Call>, c: Call, l: Limits, key: string)
    ensures Outcome(cs + [c], l, key) == if c.key == key then Extend(Outcome(cs, l, key), c, l) else Outcome(cs, l, key)
  {
    AtPrefix(cs, [c], l, |cs|);
    AdmissionsPrefix(cs, [c], l, key, |cs|);
  }

  /** A key's entry and admissions depend on its own calls alone. */
  lemma {:induction false} KeysAreIndependent(cs: seq<Call>, l: Limits, key: string)
    ensures Outcome(cs, l, key) == Outcome(Own(cs, key), l, key)
  {
    hide Outcome, Extend;
    if cs != [] {
      var init, c := cs[..|cs| - 1], cs[|cs| - 1];
      KeysAreIndependent(init, l, key);
      assert cs == init + [c];
      assert Own(cs, key) == if c.key == key then Own(init, key) + [c] else Own(init, key);
      OutcomeOfOneMore(init, c, l, key);
      OutcomeOfOneMore(Own(init, key), c, l, key);
    }
  }

  // ----- the limiter

  /** The shared table and its two constants. */
  class Limiter {
    var entries: map<string, Entry>
    const limits: Limits
    ghost var log: seq<Call>

    ghost predicate Valid()
      reads this
    {
      entries == At(log, limits, |log|)
    }

    constructor (max: nat, window: nat)
      ensures Valid() && log == [] && limits == Limits(max, window)
    {
      entries := map[];
      limits := Limits(max, window);
      log := [];
    }

    method Check(key: string, now: int) returns (ok: bool)
      requires Valid()
      modifies this
      ensures Valid() && log == old(log) + [Call(key, now)]
      ensures ok == Admitted(log, limits, |log| - 1)
    {
      log := log + [Call(key, now)];
      AtPrefix(old(log), [Call(key, now)], limits, |old(log)|);
      if key !in entries {
        entries := entries[key := Entry(0, now)];
      }
      if Elapsed(entries[key].start, now) >= limits.window {
        entries := entries[key := Entry(1, now)];
        return true;
      }
      if entries[key].count < limits.max {
        entries := entries[key := entries[key].(count := entries[key].count + 1)];
        ok := true;
      } else {
        ok := false;
      }
    }
  }
}
