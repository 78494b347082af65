/**
 Version-2 circle key wraps: owner-signed events that carry an encrypted circle
 key to one recipient for one epoch. Signatures are ideal (`signatureOk`), and
 the wrapped content is opaque to the gateway.
 */
module KeyWraps {
  import opened Common

  type Pubkey = string

  const CIRCLE_KEY_EVENT_KIND := 30079
  const CIRCLE_KEY_EVENT_TYPE_V2 := "sentinelmesh-circle-key-v2"
  const MAX_KEY_WRAP_CONTENT_LEN := 4096
  const KEY_WRAP_FRESHNESS_SECS := 60

  datatype KeyEvent = KeyEvent(
    signatureOk: bool,
    pubkey: Pubkey,
    kind: int,
    createdAt: int,
    tags: seq<seq<string>>,
    content: string)

  /** Second entries of the tags called `name`, in order; tags without one are skipped. */
  function TagValues(tags: seq<seq<string>>, name: string): seq<string> {
    if tags == [] then []
    else
      var rest := TagValues(tags[1..], name);
      if |tags[0]| >= 2 && tags[0][0] == name then [tags[0][1]] + rest else rest
  }

  /** The value of the only `name` tag, if there is exactly one. */
  function SingleTag(ev: KeyEvent, name: string): Option<string> {
    var values := TagValues(ev.tags, name);
    if |values| == 1 then Some(values[0]) else None
  }

  function LowerChar(c: char): char {
    if 'A' <= c <= 'Z' then c - 'A' + 'a' else c
  }

  function Lower(s: string): string {
    seq(|s|, i requires 0 <= i < |s| => LowerChar(s[i]))
  }

  predicate IsHexDigit(c: char) {
    '0' <= c <= '9' || 'a' <= c <= 'f' || 'A' <= c <= 'F'
  }

  predicate IsHex64(s: string) {
    |s| == 64 && forall i :: 0 <= i < |s| ==> IsHexDigit(s[i])
  }

  function DecimalNat(n: nat): string {
    var digit := '0' + (n % 10) as char;
    if n < 10 then [digit] else DecimalNat(n / 10) + [digit]
  }

  /** The decimal text of an epoch, as `to_string` prints it. */
  function Decimal(n: int): string {
    if n < 0 then "-" + DecimalNat(-n) else DecimalNat(n)
  }

  function Abs(x: int): nat {
    if x < 0 then -x else x
  }

  /** Accepts `ev` as a wrap by `owner` for `circle` at `epoch` and names its recipient. */
  function ValidateKeyWrapV2(owner: Pubkey, circle: string, epoch: int, now: int, ev: KeyEvent): Option<Pubkey> {
    if !ev.signatureOk then None
    else if ev.pubkey != owner || ev.kind != CIRCLE_KEY_EVENT_KIND then None
    else if Abs(now - ev.createdAt) > KEY_WRAP_FRESHNESS_SECS then None
    else
      match (SingleTag(ev, "d"), SingleTag(ev, "circle"), SingleTag(ev, "epoch"), SingleTag(ev, "p"))
      case (Some(d), Some(c), Some(e), Some(p)) =>
        var recipient := Lower(p);
        if d != CIRCLE_KEY_EVENT_TYPE_V2 || c != circle || e != Decimal(epoch) || !IsHex64(recipient) then None
        else if ev.content == "" || |ev.content| > MAX_KEY_WRAP_CONTENT_LEN then None
        else Some(recipient)
      case _ => None
  }

  /** What a stored wrap is bound to for good: its signer, circle, epoch and recipient. */
  predicate BoundTo(ev: KeyEvent, owner: Pubkey, circle: string, epoch: int, recipient: Pubkey) {
    && ev.signatureOk
    && ev.pubkey == owner
    && SingleTag(ev, "circle") == Some(circle)
    && SingleTag(ev, "epoch") == Some(Decimal(epoch))
    && SingleTag(ev, "p").Some?
    && Lower(SingleTag(ev, "p").value) == recipient
  }

  lemma {:induction false} DecimalNatInjective(m: nat, n: nat)
    requires DecimalNat(m) == DecimalNat(n)
    ensures m == n
  {
    var s, t := DecimalNat(m), DecimalNat(n);
    assert s[|s| - 1] == '0' + (m % 10) as char && t[|t| - 1] == '0' + (n % 10) as char;
    assert m % 10 == n % 10;
    DecimalNatNonEmpty(m / 10);
    DecimalNatNonEmpty(n / 10);
    if m >= 10 && n >= 10 {
      assert s[..|s| - 1] == DecimalNat(m / 10) && t[..|t| - 1] == DecimalNat(n / 10);
      DecimalNatInjective(m / 10, n / 10);
    }
  }

  lemma {:induction false} DecimalNatNonEmpty(n: nat)
    ensures |DecimalNat(n)| >= 1 && '0' <= DecimalNat(n)[0] <= '9'
  {
    if n >= 10 {
      DecimalNatNonEmpty(n / 10);
    }
  }

  /** Two epochs never print alike, so an epoch tag names one epoch. */
  lemma DecimalInjective(m: int, n: int)
    requires Decimal(m) == Decimal(n)
    ensures m == n
  {
    DecimalNatNonEmpty(Abs(m));
    DecimalNatNonEmpty(Abs(n));
    if m < 0 && n < 0 {
      assert Decimal(m)[1..] == DecimalNat(-m) && Decimal(n)[1..] == DecimalNat(-n);
      DecimalNatInjective(-m, -n);
    } else if m >= 0 && n >= 0 {
      DecimalNatInjective(m, n);
    }
  }

  /** An accepted wrap is bound to exactly what it was accepted for. */
  lemma AcceptedWrapIsBound(owner: Pubkey, circle: string, epoch: int, now: int, ev: KeyEvent)
    requires ValidateKeyWrapV2(owner, circle, epoch, now, ev).Some?
    ensures BoundTo(ev, owner, circle, epoch, ValidateKeyWrapV2(owner, circle, epoch, now, ev).value)
  {
  }

  /** Tag `i` is called `name` and has a value. */
  predicate Names(tags: seq<seq<string>>, i: int, name: string) {
    0 <= i < |tags| && |tags[i]| >= 2 && tags[i][0] == name
  }

  lemma NamesShift(tags: seq<seq<string>>, name: string)
    requires tags != []
    ensures forall i :: Names(tags[1..], i, name) ==> Names(tags, i + 1, name) && tags[i + 1] == tags[1..][i]
    ensures forall i :: i > 0 && Names(tags, i, name) ==> Names(tags[1..], i - 1, name)
  {
  }

  lemma {:induction false} ValuesAreNamed(tags: seq<seq<string>>, name: string)
    ensures |TagValues(tags, name)| == 0 <==> forall i :: !Names(tags, i, name)
    ensures |TagValues(tags, name)| == 1 ==>
              exists i :: Names(tags, i, name) && TagValues(tags, name)[0] == tags[i][1] && forall j :: Names(tags, j, name) ==> j == i
    ensures |TagValues(tags, name)| >= 2 ==> exists i, j :: i != j && Names(tags, i, name) && Names(tags, j, name)
  {
    if tags != [] {
      var rest := tags[1..];
      ValuesAreNamed(rest, name);
      NamesShift(tags, name);
      var first := Names(tags, 0, name);
      assert TagValues(tags, name) == if first then [tags[0][1]] + TagValues(rest, name) else TagValues(rest, name);
      hide Names, TagValues;
      assert forall i :: Names(tags, i, name) ==> i == 0 || i > 0 by {
        NamesAreIndices(tags, name);
      }
      if |TagValues(rest, name)| >= 2 {
        var i, j :| i != j && Names(rest, i, name) && Names(rest, j, name);
        assert Names(tags, i + 1, name) && Names(tags, j + 1, name);
      } else if |TagValues(rest, name)| == 1 {
        var i :| Names(rest, i, name) && TagValues(rest, name)[0] == rest[i][1] && forall j :: Names(rest, j, name) ==> j == i;
        assert Names(tags, i + 1, name);
        NamesAreIndices(rest, name);
        if first {
          assert 0 != i + 1;
        }
      }
    }
  }

  lemma NamesAreIndices(tags: seq<seq<string>>, name: string)
    ensures forall i :: Names(tags, i, name) ==> 0 <= i < |tags|
  {
  }

  /** A single tag is the only one of its name that has a value. */
  lemma SingleTagIff(ev: KeyEvent, name: string, value: string)
    ensures SingleTag(ev, name) == Some(value) <==>
            exists i :: Names(ev.tags, i, name) && ev.tags[i][1] == value && forall j :: Names(ev.tags, j, name) ==> j == i
  {
    hide Names;
    ValuesAreNamed(ev.tags, name);
  }

  /**
   Exactly what is accepted: an event signed by the owner, of the key kind and type, made
   within a minute of now, with some content, and bound once to this circle, epoch and recipient.
   */
  lemma AcceptedIff(owner: Pubkey, circle: string, epoch: int, now: int, ev: KeyEvent, recipient: Pubkey)
    ensures ValidateKeyWrapV2(owner, circle, epoch, now, ev) == Some(recipient) <==>
            && BoundTo(ev, owner, circle, epoch, recipient) && IsHex64(recipient)
            && SingleTag(ev, "d") == Some("sentinelmesh-circle-key-v2") && ev.kind == 30079
            && now - 60 <= ev.createdAt <= now + 60 && 1 <= |ev.content| <= 4096
  {
  }

  /**
   A wrap cannot be replayed: whoever it is accepted for, in whichever circle, at
   whichever epoch and time, it is always the same owner, circle, epoch and recipient.
   */
  lemma WrapBindsOnce(ev: KeyEvent, o1: Pubkey, c1: string, e1: int, now1: int, o2: Pubkey, c2: string, e2: int, now2: int)
    requires ValidateKeyWrapV2(o1, c1, e1, now1, ev).Some?
    requires ValidateKeyWrapV2(o2, c2, e2, now2, ev).Some?
    ensures o1 == o2 && c1 == c2 && e1 == e2
    ensures ValidateKeyWrapV2(o1, c1, e1, now1, ev) == ValidateKeyWrapV2(o2, c2, e2, now2, ev)
  {
    DecimalInjective(e1, e2);
  }
}
