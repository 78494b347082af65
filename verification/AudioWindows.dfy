/**
 The audio worklet that cuts a sample stream, delivered in blocks of any length, into
 windows of fixed size.
 */
module AudioWindows {
  const WINDOW_SAMPLES := 15360

  // ----- what the stream should be cut into

  /** The complete windows of a stream. */
  function Windows(s: seq<real>): seq<seq<real>> {
    if |s| < WINDOW_SAMPLES then [] else [s[..WINDOW_SAMPLES]] + Windows(s[WINDOW_SAMPLES..])
  }

  /** The samples after the last complete window. */
  function Rest(s: seq<real>): (r: seq<real>)
    ensures |r| < WINDOW_SAMPLES
  {
    if |s| < WINDOW_SAMPLES then s else Rest(s[WINDOW_SAMPLES..])
  }

  function Concat(blocks: seq<seq<real>>): seq<real> {
    if blocks == [] then [] else blocks[0] + Concat(blocks[1..])
  }

  /** The windows and the rest are the stream: nothing lost, repeated or reordered. */
  lemma {:induction false} CutKeepsStream(s: seq<real>)
    ensures Concat(Windows(s)) + Rest(s) == s
    ensures |Rest(s)| < 15360 && forall i :: 0 <= i < |Windows(s)| ==> |Windows(s)[i]| == 15360
  {
    if |s| >= WINDOW_SAMPLES {
      CutKeepsStream(s[WINDOW_SAMPLES..]);
      assert s == s[..WINDOW_SAMPLES] + s[WINDOW_SAMPLES..];
    }
  }

  /** Any cut of a stream into full windows and a shorter rest is this one. */
  lemma {:induction false} CutIsUnique(ws: seq<seq<real>>, r: seq<real>)
    requires |r| < WINDOW_SAMPLES && forall i :: 0 <= i < |ws| ==> |ws[i]| == WINDOW_SAMPLES
    ensures Windows(Concat(ws) + r) == ws && Rest(Concat(ws) + r) == r
  {
    if ws == [] {
      assert Concat(ws) + r == r;
    } else {
      CutIsUnique(ws[1..], r);
      var s := Concat(ws) + r;
      assert s == ws[0] + (Concat(ws[1..]) + r);
      assert s[..WINDOW_SAMPLES] == ws[0] && s[WINDOW_SAMPLES..] == Concat(ws[1..]) + r;
    }
  }

  /** The i-th window holds samples `i * 15360` up to `(i + 1) * 15360`. */
  lemma {:induction false} WindowAt(s: seq<real>, i: nat)
    requires (i + 1) * 15360 <= |s|
    ensures i < |Windows(s)| && Windows(s)[i] == s[i * 15360..(i + 1) * 15360]
  {
    if i > 0 {
      WindowAt(s[WINDOW_SAMPLES..], i - 1);
    }
  }

  lemma {:induction false} Grow(s: seq<real>, t: seq<real>)
    requires |Rest(s)| + |t| <= WINDOW_SAMPLES
    ensures |Rest(s)| + |t| < WINDOW_SAMPLES ==> Windows(s + t) == Windows(s) && Rest(s + t) == Rest(s) + t
    ensures |Rest(s)| + |t| == WINDOW_SAMPLES ==> Windows(s + t) == Windows(s) + [Rest(s) + t] && Rest(s + t) == []
  {
    if |s| >= WINDOW_SAMPLES {
      Grow(s[WINDOW_SAMPLES..], t);
      assert (s + t)[..WINDOW_SAMPLES] == s[..WINDOW_SAMPLES];
      assert (s + t)[WINDOW_SAMPLES..] == s[WINDOW_SAMPLES..] + t;
    } else if |s + t| == WINDOW_SAMPLES {
      assert (s + t)[..WINDOW_SAMPLES] == s + t && (s + t)[WINDOW_SAMPLES..] == [];
    }
  }

  // ----- the worklet

  /** What one call of `process` takes in: the first channel of the first input, if there is one. */
  function Heard(inputs: seq<seq<seq<real>>>): seq<real> {
    if inputs == [] || inputs[0] == [] then [] else inputs[0][0]
  }

  class Processor {
    const buffer: array<real>
    var offset: nat
    /** The windows posted to the main thread, each an array of its own. */
    var posted: seq<array<real>>
    /** Everything heard so far. */
    ghost var input: seq<real>

    ghost predicate Valid()
      reads this, buffer, posted
    {
      && buffer.Length == WINDOW_SAMPLES && offset < WINDOW_SAMPLES
      && buffer !in posted && (forall i, j :: 0 <= i < j < |posted| ==> posted[i] != posted[j])
      && |posted| == |Windows(input)|
      && (forall i :: 0 <= i < |posted| ==> posted[i][..] == Windows(input)[i])
      && buffer[..offset] == Rest(input)
    }

    constructor ()
      ensures Valid() && fresh(buffer) && posted == [] && input == []
    {
      buffer := new real[WINDOW_SAMPLES];
      offset := 0;
      posted := [];
      input := [];
    }

    /** `buffer.set(samples, offset)` */
    method Fill(samples: seq<real>)
      requires offset + |samples| <= buffer.Length
      modifies buffer, this`offset
      ensures offset == old(offset) + |samples| && buffer[..offset] == old(buffer[..offset]) + samples
    {
      forall k | 0 <= k < |samples| {
        buffer[offset + k] := samples[k];
      }
      offset := offset + |samples|;
      assert forall k :: old(offset) <= k < offset ==> buffer[k] == samples[k - old(offset)];
    }

    /** Posts a copy of the full buffer and starts over. */
    method Post()
      requires offset == buffer.Length
      modifies this`offset, this`posted
      ensures offset == 0 && |posted| == |old(posted)| + 1 && posted[..|old(posted)|] == old(posted)
      ensures fresh(posted[|old(posted)|]) && posted[|old(posted)|][..] == buffer[..]
    {
      var copy := new real[buffer.Length];
      forall k | 0 <= k < buffer.Length {
        copy[k] := buffer[k];
      }
      posted := posted + [copy];
      offset := 0;
    }

    /** Copies as much as fits, posting the buffer when that fills it. */
    method Take(samples: seq<real>)
      requires Valid() && 0 < |samples| <= WINDOW_SAMPLES - offset
      modifies this, buffer
      ensures Valid() && input == old(input) + samples
      ensures |old(posted)| <= |posted| && posted[..|old(posted)|] == old(posted)
      ensures forall i :: |old(posted)| <= i < |posted| ==> fresh(posted[i])
    {
      Grow(input, samples);
      ghost var before := input;
      hide Windows, Rest;
      input := input + samples;
      Fill(samples);
      assert buffer[..offset] == Rest(before) + samples;
      if offset == WINDOW_SAMPLES {
        assert buffer[..] == Rest(before) + samples;
        Post();
        assert buffer[..offset] == [];
      }
    }

    method Process(inputs: seq<seq<seq<real>>>) returns (live: bool)
      requires Valid()
      modifies this, buffer
      ensures Valid() && live && input == old(input) + Heard(inputs)
      ensures |old(posted)| <= |posted| && posted[..|old(posted)|] == old(posted)
      ensures forall i :: |old(posted)| <= i < |posted| ==> fresh(posted[i])
    {
      if inputs == [] || inputs[0] == [] {
        assert input == old(input) + Heard(inputs);
        return true;
      }
      var channel := inputs[0][0];
      var src := 0;
      while src < |channel|
        invariant 0 <= src <= |channel| && Valid() && input == old(input) + channel[..src]
        invariant |old(posted)| <= |posted| && posted[..|old(posted)|] == old(posted)
        invariant forall i :: |old(posted)| <= i < |posted| ==> fresh(posted[i])
      {
        var space := WINDOW_SAMPLES - offset;
        var count := if space <= |channel| - src then space else |channel| - src;
        assert channel[..src] + channel[src..src + count] == channel[..src + count];
        Take(channel[src..src + count]);
        src := src + count;
      }
      assert channel[..|channel|] == channel;
      live := true;
    }
  }

  /** What is posted depends on the stream alone, not on how it was split into calls. */
  method Stream(blocks: seq<seq<real>>) returns (windows: seq<seq<real>>, held: seq<real>)
    ensures windows == Windows(Concat(blocks)) && held == Rest(Concat(blocks))
    ensures Concat(windows) + held == Concat(blocks)
  {
    hide Windows, Rest;
    var p := new Processor();
    for n := 0 to |blocks|
      invariant p.Valid() && fresh(p) && fresh(p.buffer) && p.input + Concat(blocks[n..]) == Concat(blocks)
    {
      var live := p.Process([[blocks[n]]]);
      assert blocks[n..][1..] == blocks[n + 1..];
    }
    assert p.input == Concat(blocks) by {
      assert Concat(blocks[|blocks|..]) == [];
    }
    windows := seq(|p.posted|, i requires 0 <= i < |p.posted| reads p, p.posted => p.posted[i][..]);
    held := p.buffer[..p.offset];
    assert windows == Windows(p.input);
    CutKeepsStream(p.input);
  }
}
