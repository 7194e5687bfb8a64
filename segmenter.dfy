/** The transcript segmenter of `Subtitle::from_transcribe_output`: ASR items
    are merged into cues, a cue being closed by an item that is exactly `.`
    or `?`. Times are whole milliseconds; a start time of 0 doubles as the
    "no cue open" marker, exactly as the f32 `0.0` does in the source. */
module Segmenter {
  import opened Wrappers

  /** One transcript item: the content of its first alternative and its
      optional start and end times. */
  datatype Token = Token(content: string, startTime: Option<nat>, endTime: Option<nat>)

  /** One subtitle cue (`SubtitleItem`). */
  datatype Cue = Cue(startTime: nat, endTime: nat, content: string)

  /** `SubtitleItem::default()`: the accumulator when no cue is open. */
  const Unstarted := Cue(0, 0, "")

  predicate IsTerminator(t: Token) { t.content == "." || t.content == "?" }

  predicate EndsWithTerminator(s: string) { |s| > 0 && (s[|s| - 1] == '.' || s[|s| - 1] == '?') }

  /** The accumulator after `t` arrives while no cue is open. */
  function Open(t: Token): Cue
  {
    Cue(t.startTime.GetOr(0), t.endTime.GetOr(0), t.content)
  }

  // ------------------------------------------------------------------
  // The loop, read as a function of the accumulator and the items left.

  /** Cues emitted from `tokens` when the accumulator holds `item`, the
      final flush included. */
  function Run(item: Cue, tokens: seq<Token>): seq<Cue>
    decreases |tokens|
  {
    if tokens == [] then (if item.startTime != 0 then [item] else [])
    else
      var t := tokens[0];
      if item.startTime == 0 then Run(Open(t), tokens[1..])
      else if !IsTerminator(t) then
        Run(item.(content := item.content + " " + t.content, endTime := t.endTime.GetOr(item.endTime)),
            tokens[1..])
      else [item.(content := item.content + t.content)] + Run(Unstarted, tokens[1..])
  }

  function Segmentation(tokens: seq<Token>): seq<Cue>
  {
    Run(Unstarted, tokens)
  }

  /** The segmentation loop of `from_transcribe_output`, over items already
      decoded from the transcription job's JSON. */
  method SegmentTranscript(tokens: seq<Token>) returns (items: seq<Cue>)
    ensures items == Segmentation(tokens)
  {
    items := [];
    var item := Unstarted;
    for i := 0 to |tokens|
      invariant items + Run(item, tokens[i..]) == Segmentation(tokens)
    {
      var it := tokens[i];
      assert tokens[i..][1..] == tokens[i + 1..];
      if item.startTime == 0 {
        item := Cue(it.startTime.GetOr(0), it.endTime.GetOr(0), it.content);
      } else if it.content != "." && it.content != "?" {
        item := item.(content := item.content + " " + it.content);
        if it.endTime.Some? {
          item := item.(endTime := it.endTime.value);
        }
      } else {
        item := item.(content := item.content + it.content);
        items := items + [item];
        item := Unstarted;
      }
    }
    if item.startTime != 0 {
      items := items + [item];
    }
  }

  // ------------------------------------------------------------------
  // The same segmentation, read cue by cue: a cue is an opener with a
  // nonzero start, the run of non-terminators after it and, unless the
  // items ran out, the terminator that closes it.

  /** Index of the first terminator in `tokens`, or `|tokens|`. */
  function FirstTerminator(tokens: seq<Token>): (k: nat)
    ensures k <= |tokens|
    ensures forall j :: 0 <= j < k ==> !IsTerminator(tokens[j])
    ensures k < |tokens| ==> IsTerminator(tokens[k])
  {
    if tokens == [] || IsTerminator(tokens[0]) then 0 else 1 + FirstTerminator(tokens[1..])
  }

  /** Each item's content, each preceded by one space. */
  function Words(tokens: seq<Token>): string
  {
    if tokens == [] then "" else " " + tokens[0].content + Words(tokens[1..])
  }

  /** The end time of the last item in `tokens` that has one, else `e`. */
  function LastEnd(e: nat, tokens: seq<Token>): nat
  {
    if tokens == [] then e
    else if tokens[|tokens| - 1].endTime.Some? then tokens[|tokens| - 1].endTime.value
    else LastEnd(e, tokens[..|tokens| - 1])
  }

  /** The number of items with a nonzero start time. */
  function OpenerCount(tokens: seq<Token>): nat
  {
    if tokens == [] then 0
    else (if tokens[0].startTime.GetOr(0) != 0 then 1 else 0) + OpenerCount(tokens[1..])
  }

  /** The cues of `tokens` when no cue is open. An item with no start time,
      or a start time of 0, opens nothing and is dropped. */
  function Cues(tokens: seq<Token>): (r: seq<Cue>)
    ensures forall i :: 0 <= i < |r| ==> r[i].startTime != 0
    ensures forall i :: 0 <= i < |r| - 1 ==> EndsWithTerminator(r[i].content)
    ensures |r| <= OpenerCount(tokens)
    decreases |tokens|, 1
  {
    if tokens == [] then []
    else if tokens[0].startTime.GetOr(0) == 0 then Cues(tokens[1..])
    else CuesFrom(Open(tokens[0]), tokens[1..])
  }

  /** The cues of `tokens` when `item` is open: the open cue takes every item
      up to the first terminator, each after a space, then the terminator
      with no space; its end time is the last end time among those items
      (never the terminator's). */
  function CuesFrom(item: Cue, tokens: seq<Token>): (r: seq<Cue>)
    requires item.startTime != 0
    ensures |r| >= 1 && r[0].startTime == item.startTime
    ensures forall i :: 0 <= i < |r| ==> r[i].startTime != 0
    ensures forall i :: 0 <= i < |r| - 1 ==> EndsWithTerminator(r[i].content)
    ensures |r| <= 1 + OpenerCount(tokens)
    decreases |tokens|, 0
  {
    var k := FirstTerminator(tokens);
    var cue := item.(content := item.content + Words(tokens[..k]),
                     endTime := LastEnd(item.endTime, tokens[..k]));
    if k == |tokens| then [cue]
    else
      OpenerCountSuffix(tokens, k + 1);
      [cue.(content := cue.content + tokens[k].content)] + Cues(tokens[k + 1..])
  }

  lemma {:induction false} OpenerCountSuffix(tokens: seq<Token>, k: nat)
    requires k <= |tokens|
    ensures OpenerCount(tokens[k..]) <= OpenerCount(tokens)
  {
    if k > 0 {
      assert tokens[k..] == tokens[1..][k - 1..];
      OpenerCountSuffix(tokens[1..], k - 1);
    }
  }

  lemma {:induction false} LastEndCons(e: nat, t: Token, tokens: seq<Token>)
    ensures LastEnd(e, [t] + tokens) == LastEnd(t.endTime.GetOr(e), tokens)
  {
    if tokens != [] {
      var all := [t] + tokens;
      assert all[..|all| - 1] == [t] + tokens[..|tokens| - 1];
      LastEndCons(e, t, tokens[..|tokens| - 1]);
    }
  }

  /** The part of the open cue before its terminator, as `CuesFrom` builds it. */
  function OpenPart(item: Cue, tokens: seq<Token>): Cue
  {
    var k := FirstTerminator(tokens);
    Cue(item.startTime, LastEnd(item.endTime, tokens[..k]), item.content + Words(tokens[..k]))
  }

  lemma OpenPartExtend(item: Cue, tokens: seq<Token>)
    requires tokens != [] && !IsTerminator(tokens[0])
    ensures FirstTerminator(tokens) == FirstTerminator(tokens[1..]) + 1
    ensures OpenPart(item, tokens)
            == OpenPart(item.(content := item.content + " " + tokens[0].content,
                              endTime := tokens[0].endTime.GetOr(item.endTime)),
                        tokens[1..])
  {
    var t, rest := tokens[0], tokens[1..];
    var ws := rest[..FirstTerminator(rest)];
    PrefixCons(tokens);
    OpenWordsExtend(item.content, t, ws);
    LastEndCons(item.endTime, t, ws);
  }

  lemma OpenWordsExtend(s: string, t: Token, ws: seq<Token>)
    ensures s + Words([t] + ws) == s + " " + t.content + Words(ws)
  {
    WordsCons(t, ws);
    assert s + (" " + t.content + Words(ws)) == s + " " + t.content + Words(ws);
  }

  lemma PrefixCons(tokens: seq<Token>)
    requires tokens != [] && !IsTerminator(tokens[0])
    ensures FirstTerminator(tokens) == FirstTerminator(tokens[1..]) + 1
    ensures tokens[..FirstTerminator(tokens)] == [tokens[0]] + tokens[1..][..FirstTerminator(tokens[1..])]
  {
  }

  lemma WordsCons(t: Token, ws: seq<Token>)
    ensures Words([t] + ws) == " " + t.content + Words(ws)
  {
    assert ([t] + ws)[1..] == ws;
  }

  /** Extending the open cue by a non-terminator and moving on. */
  lemma CuesFromExtend(item: Cue, tokens: seq<Token>)
    requires item.startTime != 0 && tokens != [] && !IsTerminator(tokens[0])
    ensures CuesFrom(item, tokens)
            == CuesFrom(item.(content := item.content + " " + tokens[0].content,
                              endTime := tokens[0].endTime.GetOr(item.endTime)),
                        tokens[1..])
  {
    hide CuesFrom, Cues, OpenPart;
    var t, rest := tokens[0], tokens[1..];
    var next := item.(content := item.content + " " + t.content, endTime := t.endTime.GetOr(item.endTime));
    var k, k' := FirstTerminator(tokens), FirstTerminator(rest);
    OpenPartExtend(item, tokens);
    var cue := OpenPart(item, tokens);
    CuesFromUnfold(item, tokens);
    CuesFromUnfold(next, rest);
    if k < |tokens| {
      assert tokens[k] == rest[k'] && tokens[k + 1..] == rest[k' + 1..];
    }
  }

  lemma CuesFromUnfold(item: Cue, tokens: seq<Token>)
    requires item.startTime != 0
    ensures var k, cue := FirstTerminator(tokens), OpenPart(item, tokens);
            CuesFrom(item, tokens)
            == if k == |tokens| then [cue]
               else [cue.(content := cue.content + tokens[k].content)] + Cues(tokens[k + 1..])
  {
  }

  lemma {:induction false} RunUnstarted(item: Cue, tokens: seq<Token>)
    requires item.startTime == 0
    ensures Run(item, tokens) == Cues(tokens)
    decreases |tokens|, 1
  {
    if tokens != [] {
      var t := Open(tokens[0]);
      if t.startTime == 0 {
        RunUnstarted(t, tokens[1..]);
      } else {
        RunOpen(t, tokens[1..]);
      }
    }
  }

  lemma {:induction false} RunOpen(item: Cue, tokens: seq<Token>)
    requires item.startTime != 0
    ensures Run(item, tokens) == CuesFrom(item, tokens)
    decreases |tokens|, 0
  {
    if tokens == [] {
      assert item.content + Words([]) == item.content;
    } else if IsTerminator(tokens[0]) {
      assert tokens[..0] == [];
      assert item.content + Words([]) == item.content;
      RunUnstarted(Unstarted, tokens[1..]);
    } else {
      var t := tokens[0];
      var next := item.(content := item.content + " " + t.content, endTime := t.endTime.GetOr(item.endTime));
      RunOpen(next, tokens[1..]);
      CuesFromExtend(item, tokens);
    }
  }

  /** The streaming loop and the cue-by-cue reading agree on every input. */
  lemma SegmentationIsCues(tokens: seq<Token>)
    ensures Segmentation(tokens) == Cues(tokens)
  {
    RunUnstarted(Unstarted, tokens);
  }

  /** What the segmenter promises of every cue list it emits: every cue
      starts at a nonzero time; every cue but the last ends with `.` or `?`;
      there are no more cues than items with a nonzero start time, so no
      items give no cues. */
  lemma SegmentationShape(tokens: seq<Token>)
    ensures forall i :: 0 <= i < |Segmentation(tokens)| ==> Segmentation(tokens)[i].startTime != 0
    ensures forall i :: 0 <= i < |Segmentation(tokens)| - 1 ==> EndsWithTerminator(Segmentation(tokens)[i].content)
    ensures |Segmentation(tokens)| <= OpenerCount(tokens)
    ensures tokens == [] ==> Segmentation(tokens) == []
  {
    SegmentationIsCues(tokens);
  }

  /** An item starting at 0 opens a cue that the next item overwrites: here
      "Hello" is lost and the cue starts at "world". */
  lemma SentinelDropsZeroStart()
    ensures Segmentation([Token("Hello", Some(0), Some(500)), Token("world", Some(500), Some(1000)),
                          Token(".", None, None)])
            == [Cue(500, 1000, "world.")]
  {
    var stop := Token(".", None, None);
    var ts := [Token("Hello", Some(0), Some(500)), Token("world", Some(500), Some(1000)), stop];
    assert ts[1..] == [Token("world", Some(500), Some(1000)), stop] && ts[1..][1..] == [stop];
    assert "world" + "." == "world.";
    assert [stop][1..] == [];
  }

  /** With a nonzero first start the words join with single spaces, the
      terminator joins with none and leaves the timing alone. */
  lemma TerminatorClosesCue()
    ensures Segmentation([Token("Hello", Some(100), Some(500)), Token("world", Some(500), Some(1000)),
                          Token(".", None, None)])
            == [Cue(100, 1000, "Hello world.")]
  {
    var stop := Token(".", None, None);
    var ts := [Token("Hello", Some(100), Some(500)), Token("world", Some(500), Some(1000)), stop];
    assert ts[1..] == [Token("world", Some(500), Some(1000)), stop] && ts[1..][1..] == [stop];
    assert "Hello" + " " + "world" == "Hello world";
    assert "Hello world" + "." == "Hello world.";
    assert [stop][1..] == [];
  }

  /** Untimed leading punctuation is dropped; `,` and `!` do not close a
      cue; an unterminated tail is still flushed. */
  lemma PunctuationAndFlush()
    ensures Segmentation([Token(",", None, None), Token("Hi", Some(10), Some(20)), Token("!", None, None),
                          Token("there", Some(30), Some(40))])
            == [Cue(10, 40, "Hi ! there")]
  {
    var there := Token("there", Some(30), Some(40));
    var bang := Token("!", None, None);
    var ts := [Token(",", None, None), Token("Hi", Some(10), Some(20)), bang, there];
    assert ts[1..] == [Token("Hi", Some(10), Some(20)), bang, there];
    assert ts[1..][1..] == [bang, there] && [bang, there][1..] == [there] && [there][1..] == [];
    assert "Hi" + " " + "!" + " " + "there" == "Hi ! there";
  }
}
