/** `Subtitle`: the cue list built by the segmenter, its renderings (WebVTT,
    SRT and the "time body" text fed to the search index) and its
    translation. */
module Subtitles {
  import opened Wrappers
  import opened Text
  import opened TimeCodec
  import opened Segmenter

  // ------------------------------------------------------------------
  // Renderings, as functions of the cue list.

  /** `start --> end` with separator `d`. */
  function Timing(c: Cue, d: string): string
  {
    TimeLabel(c.startTime, d) + " --> " + TimeLabel(c.endTime, d)
  }

  /** One cue block: timing line, content, blank line. */
  function Block(c: Cue, d: string): string
  {
    Timing(c, d) + "\n" + c.content + "\n\n"
  }

  function VttBlocks(cues: seq<Cue>): (r: string)
    ensures r == [] <==> cues == []
    ensures r != [] ==> r[|r| - 1] == '\n'
  {
    if cues == [] then "" else VttBlocks(cues[..|cues| - 1]) + Block(cues[|cues| - 1], ".")
  }

  /** The WebVTT file: header `WEBVTT` and a blank line, then a block per cue. */
  function VttOf(cues: seq<Cue>): string
  {
    "WEBVTT\n\n" + VttBlocks(cues)
  }

  /** One SRT entry: the cue's 1-based number `n` on a line, then its block
      with `,` as the separator. */
  function SrtEntry(n: nat, c: Cue): string
  {
    Digits(n) + "\n" + Block(c, ",")
  }

  /** The SRT file: an entry per cue. */
  function SrtOf(cues: seq<Cue>): (r: string)
    ensures r == [] <==> cues == []
    ensures r != [] ==> r[|r| - 1] == '\n'
  {
    if cues == [] then "" else SrtOf(cues[..|cues| - 1]) + SrtEntry(|cues|, cues[|cues| - 1])
  }

  /** One line of the index body: start label, a space, the content. */
  function IndexLine(c: Cue): string
  {
    TimeLabel(c.startTime, ".") + " " + c.content + "\n"
  }

  /** The index body: one line per cue, each ended by a newline. */
  function IndexBodyOf(cues: seq<Cue>): (r: string)
    ensures r == [] <==> cues == []
    ensures r != [] ==> r[|r| - 1] == '\n'
  {
    if cues == [] then "" else IndexBodyOf(cues[..|cues| - 1]) + IndexLine(cues[|cues| - 1])
  }

  // ------------------------------------------------------------------
  // Reading the renderings back line by line.

  predicate AllSingleLine(cues: seq<Cue>)
  {
    forall i :: 0 <= i < |cues| ==> SingleLine(cues[i].content)
  }

  lemma LabelSingleLine(t: nat, d: string)
    requires '\n' !in d
    ensures SingleLine(TimeLabel(t, d))
  {
    var c := ClockOf(t);
    var l := TimeLabel(t, d);
    var ms := Pad(c.millis, 3);
    assert l == Pad(c.hours, 2) + ":" + Pad(c.minutes, 2) + ":" + Pad(c.seconds, 2) + d + ms;
    assert l[|l| - 1] == ms[|ms| - 1];
    assert IsDigit(ms[|ms| - 1]);
    if '\n' in l {
      TimeLabelChars(t, d, '\n');
    }
  }

  lemma TimingSingleLine(c: Cue, d: string)
    requires '\n' !in d
    ensures SingleLine(Timing(c, d))
  {
    var a, b := TimeLabel(c.startTime, d), TimeLabel(c.endTime, d);
    LabelSingleLine(c.startTime, d);
    LabelSingleLine(c.endTime, d);
    assert SingleLine(" --> ");
    hide TimeLabel, SingleLine;
    SingleLineJoin(a, " --> ");
    SingleLineJoin(a + " --> ", b);
  }

  lemma BlockSplit(c: Cue, d: string)
    ensures Block(c, d) == Timing(c, d) + "\n" + (c.content + "\n\n")
  {
    hide TimeLabel;
  }

  /** The lines of a cue block, given a separator without newlines. */
  lemma BlockLines(c: Cue, d: string)
    requires SingleLine(c.content) && '\n' !in d
    ensures Lines(Block(c, d)) == [Timing(c, d), c.content, ""]
  {
    hide TimeLabel;
    TimingSingleLine(c, d);
    BlockSplit(c, d);
    LinesKeep(Timing(c, d), c.content + "\n\n");
    LinesThenBlank(c.content);
  }

  /** The lines a list of cue blocks reads back as. */
  function BlockLineList(cues: seq<Cue>, d: string): seq<string>
  {
    if cues == [] then []
    else BlockLineList(cues[..|cues| - 1], d) + [Timing(cues[|cues| - 1], d), cues[|cues| - 1].content, ""]
  }

  function SrtLineList(cues: seq<Cue>): seq<string>
  {
    if cues == [] then []
    else SrtLineList(cues[..|cues| - 1])
         + [Digits(|cues|), Timing(cues[|cues| - 1], ","), cues[|cues| - 1].content, ""]
  }

  lemma {:induction false} VttBlocksLines(cues: seq<Cue>)
    requires AllSingleLine(cues)
    ensures Lines(VttBlocks(cues)) == BlockLineList(cues, ".")
  {
    hide TimeLabel;
    if cues != [] {
      var pre, c := cues[..|cues| - 1], cues[|cues| - 1];
      VttBlocksLines(pre);
      LinesAppend(VttBlocks(pre), Block(c, "."));
      BlockLines(c, ".");
    }
  }

  /** The WebVTT text reads back as `WEBVTT`, a blank line, and per cue its
      timing line, its content and a blank line. */
  lemma VttLines(cues: seq<Cue>)
    requires AllSingleLine(cues)
    ensures Lines(VttOf(cues)) == ["WEBVTT", ""] + BlockLineList(cues, ".")
  {
    hide TimeLabel;
    VttBlocksLines(cues);
    assert SingleLine("WEBVTT");
    assert "WEBVTT" + "\n\n" == "WEBVTT\n\n";
    LinesAfterBlank("WEBVTT", VttBlocks(cues));
  }

  lemma NumberSingleLine(n: nat)
    ensures SingleLine(Digits(n))
  {
    var number := Digits(n);
    assert forall j :: 0 <= j < |number| ==> IsDigit(number[j]);
  }

  lemma SrtEntryLines(c: Cue, n: nat)
    requires SingleLine(c.content)
    ensures Lines(SrtEntry(n, c)) == [Digits(n), Timing(c, ","), c.content, ""]
  {
    hide TimeLabel;
    NumberSingleLine(n);
    LinesKeep(Digits(n), Block(c, ","));
    BlockLines(c, ",");
  }

  /** The SRT text reads back as, per cue, its number, its timing line, its
      content and a blank line. */
  lemma {:induction false} SrtLines(cues: seq<Cue>)
    requires AllSingleLine(cues)
    ensures Lines(SrtOf(cues)) == SrtLineList(cues)
  {
    hide TimeLabel;
    if cues != [] {
      var pre, c := cues[..|cues| - 1], cues[|cues| - 1];
      SrtLines(pre);
      LinesAppend(SrtOf(pre), SrtEntry(|cues|, c));
      SrtEntryLines(c, |cues|);
    }
  }

  lemma {:induction false} BlockLineListAt(cues: seq<Cue>, d: string, i: nat)
    requires i < |cues|
    ensures |BlockLineList(cues, d)| == 3 * |cues|
    ensures BlockLineList(cues, d)[3 * i] == Timing(cues[i], d)
    ensures BlockLineList(cues, d)[3 * i + 1] == cues[i].content
    ensures BlockLineList(cues, d)[3 * i + 2] == ""
  {
    hide TimeLabel;
    var pre := cues[..|cues| - 1];
    if i < |cues| - 1 {
      BlockLineListAt(pre, d, i);
    } else if pre != [] {
      BlockLineListAt(pre, d, 0);
    }
  }

  lemma {:induction false} SrtLineListAt(cues: seq<Cue>, i: nat)
    requires i < |cues|
    ensures |SrtLineList(cues)| == 4 * |cues|
    ensures SrtLineList(cues)[4 * i] == Digits(i + 1)
    ensures SrtLineList(cues)[4 * i + 1] == Timing(cues[i], ",")
    ensures SrtLineList(cues)[4 * i + 2] == cues[i].content
    ensures SrtLineList(cues)[4 * i + 3] == ""
  {
    hide TimeLabel;
    var pre := cues[..|cues| - 1];
    if i < |cues| - 1 {
      SrtLineListAt(pre, i);
    } else if pre != [] {
      SrtLineListAt(pre, 0);
    }
  }

  /** Where cue `i` sits in the WebVTT text: two header lines, then three
      lines per cue. */
  lemma VttCueLines(cues: seq<Cue>, i: nat)
    requires AllSingleLine(cues) && i < |cues|
    ensures |Lines(VttOf(cues))| == 2 + 3 * |cues|
    ensures Lines(VttOf(cues))[2 + 3 * i] == Timing(cues[i], ".")
    ensures Lines(VttOf(cues))[3 + 3 * i] == cues[i].content
    ensures Lines(VttOf(cues))[4 + 3 * i] == ""
  {
    hide TimeLabel;
    VttLines(cues);
    BlockLineListAt(cues, ".", i);
    hide Lines, VttOf, BlockLineList, Timing;
  }

  /** Where cue `i` sits in the SRT text: four lines per cue. */
  lemma SrtCueLines(cues: seq<Cue>, i: nat)
    requires AllSingleLine(cues) && i < |cues|
    ensures |Lines(SrtOf(cues))| == 4 * |cues|
    ensures Lines(SrtOf(cues))[4 * i] == Digits(i + 1)
    ensures Lines(SrtOf(cues))[4 * i + 1] == Timing(cues[i], ",")
    ensures Lines(SrtOf(cues))[4 * i + 2] == cues[i].content
    ensures Lines(SrtOf(cues))[4 * i + 3] == ""
  {
    hide TimeLabel;
    SrtLines(cues);
    SrtLineListAt(cues, i);
    hide Lines, SrtOf, SrtLineList, Timing;
  }

  /** The line of the index body for one cue, without its newline. */
  function IndexText(c: Cue): string
  {
    TimeLabel(c.startTime, ".") + " " + c.content
  }

  lemma IndexLineLines(c: Cue)
    requires SingleLine(c.content)
    ensures Lines(IndexLine(c)) == [IndexText(c)]
  {
    hide TimeLabel;
    var stamp := TimeLabel(c.startTime, ".");
    LabelSingleLine(c.startTime, ".");
    var line := stamp + " " + c.content;
    assert line[|line| - 1] == if c.content == [] then ' ' else c.content[|c.content| - 1];
    assert SingleLine(line);
    LinesOne(line);
  }

  /** The lines the index body is meant to hold, one per cue. */
  function IndexTexts(cues: seq<Cue>): seq<string>
  {
    if cues == [] then [] else IndexTexts(cues[..|cues| - 1]) + [IndexText(cues[|cues| - 1])]
  }

  lemma {:induction false} IndexTextsAt(cues: seq<Cue>, i: nat)
    requires i < |cues|
    ensures |IndexTexts(cues)| == |cues| && IndexTexts(cues)[i] == IndexText(cues[i])
  {
    hide TimeLabel;
    var pre := cues[..|cues| - 1];
    if i < |cues| - 1 {
      IndexTextsAt(pre, i);
    } else if pre != [] {
      IndexTextsAt(pre, 0);
    }
  }

  /** The index body reads back as one line `label content` per cue, in
      order, when no content holds a line break. */
  lemma {:induction false} IndexBodyLines(cues: seq<Cue>)
    requires AllSingleLine(cues)
    ensures Lines(IndexBodyOf(cues)) == IndexTexts(cues)
  {
    hide TimeLabel;
    if cues != [] {
      var pre, c := cues[..|cues| - 1], cues[|cues| - 1];
      IndexBodyLines(pre);
      LinesAppend(IndexBodyOf(pre), IndexLine(c));
      IndexLineLines(c);
    }
  }

  // ------------------------------------------------------------------
  // Translation.

  /** The translation service: source language, target language and text to
      a translated text (possibly absent) or an error. */
  type Translator = (string, string, string) -> Result<Option<string>, string>

  /** The first cue whose translation call fails, or `|cues|`. */
  function FirstFailure(cues: seq<Cue>, source: string, target: string, translate: Translator): (k: nat)
    ensures k <= |cues|
    ensures forall j :: 0 <= j < k ==> translate(source, target, cues[j].content).Ok?
    ensures k < |cues| ==> translate(source, target, cues[k].content).Err?
  {
    if cues == [] || translate(source, target, cues[0].content).Err? then 0
    else 1 + FirstFailure(cues[1..], source, target, translate)
  }

  /** The cue list after translation, or the error of the first failing call. */
  function Translated(cues: seq<Cue>, source: string, target: string, translate: Translator)
    : (r: Result<seq<Cue>, string>)
    ensures r.Err? <==> exists j :: 0 <= j < |cues| && translate(source, target, cues[j].content).Err?
    ensures r.Ok? ==> |r.value| == |cues|
    ensures r.Ok? ==> forall j :: 0 <= j < |cues| ==>
              && r.value[j].startTime == cues[j].startTime
              && r.value[j].endTime == cues[j].endTime
              && r.value[j].content == translate(source, target, cues[j].content).value.GetOr("")
  {
    var k := FirstFailure(cues, source, target, translate);
    if k < |cues| then Err(translate(source, target, cues[k].content).error)
    else Ok(seq(|cues|, j requires 0 <= j < |cues| =>
                  cues[j].(content := translate(source, target, cues[j].content).value.GetOr(""))))
  }

  // ------------------------------------------------------------------
  // The subtitle object.

  class Subtitle {
    var items: seq<Cue>

    /** `Subtitle::from_transcribe_output`, from the decoded items. */
    constructor FromTranscribeOutput(tokens: seq<Token>)
      ensures items == Segmentation(tokens)
    {
      var cues := SegmentTranscript(tokens);
      items := cues;
    }

    /** `translate`: builds the translated list call by call and assigns it
        only when every call succeeded. */
    method Translate(source: string, target: string, translate: Translator)
      returns (outcome: Outcome<string>)
      modifies this
      ensures Translated(old(items), source, target, translate).Err? ==>
                outcome == Fail(Translated(old(items), source, target, translate).error)
                && items == old(items)
      ensures Translated(old(items), source, target, translate).Ok? ==>
                outcome == Pass && items == Translated(old(items), source, target, translate).value
    {
      var cues := items;
      var translatedItems: seq<Cue> := [];
      for i := 0 to |cues|
        invariant forall j :: 0 <= j < i ==> translate(source, target, cues[j].content).Ok?
        invariant |translatedItems| == i
        invariant forall j :: 0 <= j < i ==>
                    translatedItems[j]
                    == cues[j].(content := translate(source, target, cues[j].content).value.GetOr(""))
      {
        var item := cues[i];
        var response := translate(source, target, item.content);
        if response.Err? {
          assert FirstFailure(cues, source, target, translate) == i;
          return Fail(response.error);
        }
        item := item.(content := response.value.GetOr(""));
        translatedItems := translatedItems + [item];
      }
      assert FirstFailure(cues, source, target, translate) == |cues|;
      items := translatedItems;
      outcome := Pass;
    }

    /** `vtt()`: the WebVTT text, grown block by block. */
    method Vtt() returns (text: string)
      ensures text == VttOf(items)
    {
      hide TimeLabel;
      text := "WEBVTT\n\n";
      assert items[..0] == [];
      for i := 0 to |items|
        invariant text == VttOf(items[..i])
      {
        var item := items[i];
        var start := TimeFormat(item.startTime, ".");
        var end := TimeFormat(item.endTime, ".");
        var before := text;
        text := text + (start + " --> " + end + "\n");
        text := text + item.content;
        text := text + "\n\n";
        assert text == before + Block(item, ".");
        VttSnoc(items, i);
      }
      assert items[..|items|] == items;
    }

    /** The text `save_as_srt` writes. */
    method SaveAsSrt() returns (text: string)
      ensures text == SrtOf(items)
    {
      hide TimeLabel;
      text := "";
      for i := 0 to |items|
        invariant text == SrtOf(items[..i])
      {
        var item := items[i];
        var before := text;
        text := text + (Digits(i + 1) + "\n");
        var start := TimeFormat(item.startTime, ",");
        var end := TimeFormat(item.endTime, ",");
        text := text + (start + " --> " + end + "\n");
        text := text + item.content;
        text := text + "\n\n";
        assert text == before + SrtEntry(i + 1, item);
        SrtSnoc(items, i);
      }
      assert items[..|items|] == items;
    }

    /** `index_body()`: one line per cue. */
    method IndexBody() returns (body: string)
      ensures body == IndexBodyOf(items)
    {
      hide TimeLabel;
      body := "";
      for i := 0 to |items|
        invariant body == IndexBodyOf(items[..i])
      {
        var item := items[i];
        var start := TimeFormat(item.startTime, ".");
        var before := body;
        body := body + (start + " " + item.content + "\n");
        assert body == before + IndexLine(item);
        IndexBodySnoc(items, i);
      }
      assert items[..|items|] == items;
    }
  }

  lemma VttSnoc(cues: seq<Cue>, i: nat)
    requires i < |cues|
    ensures VttOf(cues[..i + 1]) == VttOf(cues[..i]) + Block(cues[i], ".")
  {
    hide TimeLabel;
    assert cues[..i + 1][..i] == cues[..i];
    hide Block;
    assert VttBlocks(cues[..i + 1]) == VttBlocks(cues[..i]) + Block(cues[i], ".");
  }

  lemma SrtSnoc(cues: seq<Cue>, i: nat)
    requires i < |cues|
    ensures SrtOf(cues[..i + 1]) == SrtOf(cues[..i]) + SrtEntry(i + 1, cues[i])
  {
    hide TimeLabel;
    assert cues[..i + 1][..i] == cues[..i];
  }

  lemma IndexBodySnoc(cues: seq<Cue>, i: nat)
    requires i < |cues|
    ensures IndexBodyOf(cues[..i + 1]) == IndexBodyOf(cues[..i]) + IndexLine(cues[i])
  {
    hide TimeLabel;
    assert cues[..i + 1][..i] == cues[..i];
  }
}
