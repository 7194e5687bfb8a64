/** The subtitle handler: per queued message, segment the stored transcript,
    translate it when asked, store the WebVTT text under the output
    language, record that language on the video, and publish the index
    body. */
module SubtitleHandler {
  import opened Wrappers
  import opened Segmenter
  import opened Subtitles
  import opened IndexSubtitle

  // ------------------------------------------------------------------
  // The language list of a video.

  predicate NoDuplicates(xs: seq<string>)
  {
    forall i, j :: 0 <= i < j < |xs| ==> xs[i] != xs[j]
  }

  /** `a` is `b` with some elements dropped, order kept. */
  predicate Subsequence(a: seq<string>, b: seq<string>)
    decreases |b|
  {
    if a == [] then true
    else if b == [] then false
    else if a[0] == b[0] then Subsequence(a[1..], b[1..])
    else Subsequence(a, b[1..])
  }

  /** `unique()` after `seen`: each element the first time it appears. */
  function UniqueFrom(xs: seq<string>, seen: set<string>): (r: seq<string>)
    ensures forall i :: 0 <= i < |r| ==> r[i] !in seen
    ensures NoDuplicates(r)
    ensures Subsequence(r, xs)
    decreases |xs|
  {
    if xs == [] then []
    else if xs[0] in seen then UniqueFrom(xs[1..], seen)
    else
      var rest := UniqueFrom(xs[1..], seen + {xs[0]});
      assert forall j :: 0 < j < |[xs[0]] + rest| ==> ([xs[0]] + rest)[j] == rest[j - 1];
      [xs[0]] + rest
  }

  /** Exactly the elements not seen before are kept. */
  lemma {:induction false} UniqueFromMembers(xs: seq<string>, seen: set<string>)
    ensures forall x :: x in UniqueFrom(xs, seen) <==> x in xs && x !in seen
    decreases |xs|
  {
    if xs != [] {
      UniqueFromMembers(xs[1..], if xs[0] in seen then seen else seen + {xs[0]});
      assert forall x :: x in xs <==> x == xs[0] || x in xs[1..];
    }
  }

  function Unique(xs: seq<string>): (r: seq<string>)
    ensures forall x :: x in r <==> x in xs
    ensures NoDuplicates(r) && Subsequence(r, xs)
  {
    UniqueFromMembers(xs, {});
    UniqueFrom(xs, {})
  }

  lemma UniqueFromStep(xs: seq<string>, seen: set<string>)
    requires xs != []
    ensures UniqueFrom(xs, seen)
            == if xs[0] in seen then UniqueFrom(xs[1..], seen)
               else [xs[0]] + UniqueFrom(xs[1..], seen + {xs[0]})
  {
  }

  /** Appending to the input only appends to the output: the elements
      already kept stay first and in order. */
  lemma {:induction false} UniqueFromAppend(xs: seq<string>, seen: set<string>, x: string)
    ensures UniqueFrom(xs + [x], seen)
            == UniqueFrom(xs, seen) + (if x in xs || x in seen then [] else [x])
    decreases |xs|
  {
    if xs == [] {
      assert xs + [x] == [x];
      UniqueFromStep([x], seen);
      assert [x][1..] == [];
    } else if xs[0] in seen {
      UniqueFromSkip(xs, seen, x);
    } else {
      UniqueFromKeep(xs, seen, x);
    }
  }

  lemma {:induction false} UniqueFromSkip(xs: seq<string>, seen: set<string>, x: string)
    requires xs != [] && xs[0] in seen
    ensures UniqueFrom(xs + [x], seen)
            == UniqueFrom(xs, seen) + (if x in xs || x in seen then [] else [x])
    decreases |xs|, 0
  {
    hide NoDuplicates, Subsequence;
    var ys := xs + [x];
    assert ys[0] == xs[0] && ys[1..] == xs[1..] + [x];
    UniqueFromStep(xs, seen);
    UniqueFromStep(ys, seen);
    assert (x in xs[1..] || x in seen) == (x in xs || x in seen);
    UniqueFromAppend(xs[1..], seen, x);
  }

  lemma {:induction false} UniqueFromKeep(xs: seq<string>, seen: set<string>, x: string)
    requires xs != [] && xs[0] !in seen
    ensures UniqueFrom(xs + [x], seen)
            == UniqueFrom(xs, seen) + (if x in xs || x in seen then [] else [x])
    decreases |xs|, 0
  {
    hide NoDuplicates, Subsequence;
    var ys := xs + [x];
    var seen' := seen + {xs[0]};
    assert ys[0] == xs[0] && ys[1..] == xs[1..] + [x];
    UniqueFromStep(xs, seen);
    UniqueFromStep(ys, seen);
    assert (x in xs[1..] || x in seen') == (x in xs || x in seen);
    UniqueFromAppend(xs[1..], seen', x);
  }

  /** A list without duplicates is its own `unique()`. */
  lemma {:induction false} UniqueFromDistinct(xs: seq<string>, seen: set<string>)
    requires NoDuplicates(xs) && forall x :: x in xs ==> x !in seen
    ensures UniqueFrom(xs, seen) == xs
    decreases |xs|
  {
    if xs != [] {
      assert xs[0] in xs;
      forall x | x in xs[1..]
        ensures x !in seen + {xs[0]}
      {
        var j :| 0 <= j < |xs[1..]| && xs[1..][j] == x;
        assert xs[j + 1] == x;
      }
      UniqueFromDistinct(xs[1..], seen + {xs[0]});
    }
  }

  /** `unique()` of a longer list: the elements kept so far stay first and
      in order, and the new element follows only if it is new. With
      `Unique([]) == []` this fixes `Unique` on every list. */
  lemma UniqueSnoc(xs: seq<string>, x: string)
    ensures Unique([]) == []
    ensures Unique(xs + [x]) == Unique(xs) + (if x in xs then [] else [x])
  {
    UniqueFromAppend(xs, {}, x);
  }

  /** The new subtitle list when the video already has one. */
  function MergeSubtitles(subtitles: seq<string>, lang: string): seq<string>
  {
    Unique(subtitles + [lang])
  }

  /** The merged list holds `lang` once, holds every old language, keeps the
      old languages' first occurrences first and in order, and adds `lang`
      at the end only if it was new. */
  lemma MergeSubtitlesSpec(subtitles: seq<string>, lang: string)
    ensures lang in MergeSubtitles(subtitles, lang)
    ensures NoDuplicates(MergeSubtitles(subtitles, lang))
    ensures forall x :: x in subtitles ==> x in MergeSubtitles(subtitles, lang)
    ensures MergeSubtitles(subtitles, lang)
            == Unique(subtitles) + (if lang in subtitles then [] else [lang])
  {
    UniqueFromAppend(subtitles, {}, lang);
  }

  /** A list without duplicates that already holds `lang` is left as is;
      one without `lang` just gains it at the end. */
  lemma MergeDistinct(subtitles: seq<string>, lang: string)
    requires NoDuplicates(subtitles)
    ensures lang in subtitles ==> MergeSubtitles(subtitles, lang) == subtitles
    ensures lang !in subtitles ==> MergeSubtitles(subtitles, lang) == subtitles + [lang]
  {
    MergeSubtitlesSpec(subtitles, lang);
    UniqueFromDistinct(subtitles, {});
  }

  /** A video's record: its subtitle list if it has one, and its other
      attributes, which the handler leaves alone. */
  datatype VideoRecord = VideoRecord(subtitles: Option<seq<string>>, others: map<string, string>)

  /** The new subtitle list of a record. */
  function NewSubtitles(current: Option<seq<string>>, lang: string): seq<string>
  {
    match current
    case Some(ss) => MergeSubtitles(ss, lang)
    case None => [lang]
  }

  /** The video table, keyed by video id. */
  class VideoTable {
    var records: map<string, VideoRecord>

    constructor (records: map<string, VideoRecord>)
      ensures this.records == records
    {
      this.records := records;
    }

    /** `update_subtitle(id, lang)`: a missing record is not created. */
    method UpdateSubtitle(id: string, lang: string)
      modifies this
      ensures id !in old(records) ==> records == old(records)
      ensures id in old(records) ==>
                records == old(records)[id := old(records)[id].(subtitles := Some(NewSubtitles(old(records)[id].subtitles, lang)))]
    {
      if id in records {
        var item := records[id];
        var subtitles: seq<string>;
        if item.subtitles.Some? {
          var ss := item.subtitles.value;
          ss := ss + [lang];
          subtitles := Unique(ss);
        } else {
          subtitles := [lang];
        }
        records := records[id := item.(subtitles := Some(subtitles))];
      }
    }
  }

  /** After the update, the record (if any) lists `lang`, without duplicates. */
  lemma UpdatedListsLang(current: Option<seq<string>>, lang: string)
    ensures lang in NewSubtitles(current, lang) && NoDuplicates(NewSubtitles(current, lang))
    ensures current.None? ==> NewSubtitles(current, lang) == [lang]
  {
    if current.Some? {
      MergeSubtitlesSpec(current.value, lang);
    }
  }

  // ------------------------------------------------------------------
  // Keys and language choice.

  /** `SubtitleQueueMessage`. */
  datatype SubtitleQueueMessage = SubtitleQueueMessage(
    videoId: string, contentLanguage: string, translateLanguage: Option<string>)

  /** The language the subtitle is stored and indexed under: the translation
      target when there is one, else the spoken language. */
  function OutputLanguage(msg: SubtitleQueueMessage): (lang: string)
    ensures msg.translateLanguage.Some? ==> lang == msg.translateLanguage.value
    ensures msg.translateLanguage.None? ==> lang == msg.contentLanguage
  {
    if msg.translateLanguage.Some? then msg.translateLanguage.value else msg.contentLanguage
  }

  /** `transcription/{id}`. */
  function TranscriptionKey(id: string): (key: string)
    ensures |key| == 14 + |id| && key[..14] == "transcription/" && key[14..] == id
  {
    "transcription/" + id
  }

  /** `subtitle/{id}/{lang}.vtt`. */
  function SubtitleKey(id: string, lang: string): (key: string)
    ensures |key| == 14 + |id| + |lang|
    ensures key[..9] == "subtitle/" && key[9..9 + |id|] == id && key[9 + |id|] == '/'
    ensures key[10 + |id|..10 + |id| + |lang|] == lang && key[|key| - 4..] == ".vtt"
  {
    "subtitle/" + id + "/" + lang + ".vtt"
  }

  /** For one video, distinct languages get distinct subtitle keys. */
  lemma SubtitleKeyInjective(id: string, a: string, b: string)
    requires SubtitleKey(id, a) == SubtitleKey(id, b)
    ensures a == b
  {
    var k := SubtitleKey(id, a);
    assert a == k[10 + |id|..10 + |id| + |a|];
  }

  // ------------------------------------------------------------------
  // One message.

  /** The objects of the bucket, by key. */
  class Bucket {
    var objects: map<string, string>

    constructor (objects: map<string, string>)
      ensures this.objects == objects
    {
      this.objects := objects;
    }

    method Put(key: string, content: string)
      modifies this
      ensures objects == old(objects)[key := content]
    {
      objects := objects[key := content];
    }
  }

  /** The cues that end up stored for a message, or the translation error. */
  function OutputCues(tokens: seq<Token>, msg: SubtitleQueueMessage, translate: Translator)
    : Result<seq<Cue>, string>
  {
    var cues := Segmentation(tokens);
    match msg.translateLanguage
    case None => Ok(cues)
    case Some(target) => Translated(cues, msg.contentLanguage, target, translate)
  }

  /** One record of `handler`. The transcript store holds the decoded
      transcripts by key; a missing transcript or a failed translation ends
      the record with an error before anything is written. On success the
      WebVTT text is stored, the video's list gains the language and the
      returned message is what is published to the index topic. */
  method HandleRecord(msg: SubtitleQueueMessage, transcripts: map<string, seq<Token>>,
                      translate: Translator, bucket: Bucket, table: VideoTable)
    returns (published: Result<IndexTopicMessage, string>)
    modifies bucket, table
    ensures TranscriptionKey(msg.videoId) !in transcripts ==>
              published.Err? && bucket.objects == old(bucket.objects) && table.records == old(table.records)
    ensures TranscriptionKey(msg.videoId) in transcripts ==>
              var out := OutputCues(transcripts[TranscriptionKey(msg.videoId)], msg, translate);
              var lang := OutputLanguage(msg);
              && (out.Err? ==> published == Err(out.error)
                               && bucket.objects == old(bucket.objects) && table.records == old(table.records))
              && (out.Ok? ==>
                    && published == Ok(IndexTopicMessage(msg.videoId, lang, IndexBodyOf(out.value)))
                    && bucket.objects == old(bucket.objects)[SubtitleKey(msg.videoId, lang) := VttOf(out.value)]
                    && (msg.videoId in old(table.records) ==>
                          table.records == old(table.records)[msg.videoId :=
                            old(table.records)[msg.videoId].(subtitles := Some(NewSubtitles(old(table.records)[msg.videoId].subtitles, lang)))])
                    && (msg.videoId !in old(table.records) ==> table.records == old(table.records)))
  {
    hide VttOf, VttBlocks, IndexBodyOf, Segmentation, Run, Translated, Unique, UniqueFrom;
    var transcriptionKey := "transcription/" + msg.videoId;
    if transcriptionKey !in transcripts {
      return Err("no such key: " + transcriptionKey);
    }
    var subtitle := new Subtitle.FromTranscribeOutput(transcripts[transcriptionKey]);
    var lang: string;
    if msg.translateLanguage.Some? {
      var outcome := subtitle.Translate(msg.contentLanguage, msg.translateLanguage.value, translate);
      if outcome.Fail? {
        return Err(outcome.error);
      }
      lang := msg.translateLanguage.value;
    } else {
      lang := msg.contentLanguage;
    }
    var vtt := subtitle.Vtt();
    bucket.Put("subtitle/" + msg.videoId + "/" + lang + ".vtt", vtt);
    table.UpdateSubtitle(msg.videoId, lang);
    var body := subtitle.IndexBody();
    published := Ok(IndexTopicMessage(msg.videoId, lang, body));
  }
}
