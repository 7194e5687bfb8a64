/** The re-index handler: for each message, the documents of its video in
    the index for its language are replaced by one document per line of the
    message body (delete by key, commit, add, commit). */
module IndexSubtitle {
  import opened Wrappers
  import opened Text
  import opened TimeCodec
  import opened Segmenter
  import opened Subtitles
  import opened Tantivy

  /** A search document: the `video_id`, `time` and `body` fields. */
  datatype Document = Document(videoId: string, time: string, body: string)

  /** An index writer operation not yet committed. */
  datatype Operation = DeleteTerm(videoId: string) | AddDocument(doc: Document)

  /** `IndexTopicMessage`: which video, which language, and the index body. */
  datatype IndexTopicMessage = IndexTopicMessage(videoId: string, lang: string, body: string)

  // ------------------------------------------------------------------
  // The document store.

  /** The documents not keyed by `v`, in order. */
  function WithoutVideo(docs: seq<Document>, v: string): (r: seq<Document>)
    ensures |r| <= |docs|
    ensures forall d :: d in r <==> d in docs && d.videoId != v
  {
    if docs == [] then []
    else (if docs[0].videoId != v then [docs[0]] else []) + WithoutVideo(docs[1..], v)
  }

  /** The documents keyed by `v`, in order. */
  function OfVideo(docs: seq<Document>, v: string): (r: seq<Document>)
    ensures |r| <= |docs|
    ensures forall d :: d in r <==> d in docs && d.videoId == v
  {
    if docs == [] then []
    else (if docs[0].videoId == v then [docs[0]] else []) + OfVideo(docs[1..], v)
  }

  /** The effect of one operation on the committed documents: a delete by
      term removes every document with that exact `video_id`. */
  function Applied(docs: seq<Document>, op: Operation): seq<Document>
  {
    match op
    case DeleteTerm(v) => WithoutVideo(docs, v)
    case AddDocument(d) => docs + [d]
  }

  function AppliedAll(docs: seq<Document>, ops: seq<Operation>): seq<Document>
    decreases |ops|
  {
    if ops == [] then docs else AppliedAll(Applied(docs, ops[0]), ops[1..])
  }

  function Adds(docs: seq<Document>): (r: seq<Operation>)
    ensures |r| == |docs| && forall i :: 0 <= i < |docs| ==> r[i] == AddDocument(docs[i])
  {
    if docs == [] then [] else Adds(docs[..|docs| - 1]) + [AddDocument(docs[|docs| - 1])]
  }

  /** Committing additions only appends the added documents, in order. */
  lemma {:induction false} AppliedAdds(docs: seq<Document>, added: seq<Document>)
    ensures AppliedAll(docs, Adds(added)) == docs + added
    decreases |added|
  {
    if added != [] {
      var ops := Adds(added);
      assert ops[0] == AddDocument(added[0]);
      assert ops[1..] == Adds(added[1..]);
      AppliedAdds(docs + [added[0]], added[1..]);
      assert docs + [added[0]] + added[1..] == docs + added;
    }
  }

  /** A writer over the committed documents of one index; operations take
      effect on `Commit`. */
  class IndexWriter {
    var committed: seq<Document>
    var pending: seq<Operation>

    constructor (docs: seq<Document>)
      ensures committed == docs && pending == []
    {
      committed := docs;
      pending := [];
    }

    method DeleteTerm(v: string)
      modifies this
      ensures pending == old(pending) + [Operation.DeleteTerm(v)] && committed == old(committed)
    {
      pending := pending + [Operation.DeleteTerm(v)];
    }

    method AddDocument(d: Document)
      modifies this
      ensures pending == old(pending) + [Operation.AddDocument(d)] && committed == old(committed)
    {
      pending := pending + [Operation.AddDocument(d)];
    }

    method Commit()
      modifies this
      ensures committed == AppliedAll(old(committed), old(pending)) && pending == []
    {
      committed := AppliedAll(committed, pending);
      pending := [];
    }
  }

  // ------------------------------------------------------------------
  // Documents from the body.

  /** The lines holding a space. */
  function SpacedLines(lines: seq<string>): nat
  {
    if lines == [] then 0
    else SpacedLines(lines[..|lines| - 1]) + (if ' ' in lines[|lines| - 1] then 1 else 0)
  }

  /** The document of one line: split at its first space, or none when it
      has no space. */
  function LineDocument(v: string, line: string): (r: Option<Document>)
    ensures r.Some? <==> ' ' in line
    ensures r.Some? ==> r.value.videoId == v && ' ' !in r.value.time
                        && line == r.value.time + " " + r.value.body
  {
    match SplitOnce(line, ' ')
    case None => None
    case Some((time, body)) => Some(Document(v, time, body))
  }

  /** The documents added for `lines`: one per line holding a space, keyed
      by `v`, in line order. */
  function LineDocuments(v: string, lines: seq<string>): (r: seq<Document>)
    ensures |r| == SpacedLines(lines)
    ensures forall d :: d in r ==> d.videoId == v && ' ' !in d.time && d.time + " " + d.body in lines
  {
    if lines == [] then []
    else
      var pre, line := lines[..|lines| - 1], lines[|lines| - 1];
      LineDocuments(v, pre) + (match LineDocument(v, line) case None => [] case Some(d) => [d])
  }

  /** The documents after handling a message for video `v` with `body`. */
  function Upserted(docs: seq<Document>, v: string, body: string): seq<Document>
  {
    WithoutVideo(docs, v) + LineDocuments(v, Lines(body))
  }

  lemma LineDocumentsSnoc(v: string, lines: seq<string>, i: nat)
    requires i < |lines|
    ensures LineDocuments(v, lines[..i + 1])
            == LineDocuments(v, lines[..i])
               + (match LineDocument(v, lines[i]) case None => [] case Some(d) => [d])
  {
    assert lines[..i + 1][..i] == lines[..i];
  }

  /** The block of the handler for one message, on the writer of the index
      for its language: delete the video's documents, commit, add one
      document per line with a space, commit. */
  method IndexMessage(writer: IndexWriter, msg: IndexTopicMessage)
    requires writer.pending == []
    modifies writer
    ensures writer.committed == Upserted(old(writer.committed), msg.videoId, msg.body)
    ensures writer.pending == []
  {
    writer.DeleteTerm(msg.videoId);
    writer.Commit();
    assert writer.committed == WithoutVideo(old(writer.committed), msg.videoId);
    var lines := Lines(msg.body);
    ghost var added: seq<Document> := [];
    for i := 0 to |lines|
      invariant writer.committed == WithoutVideo(old(writer.committed), msg.videoId)
      invariant added == LineDocuments(msg.videoId, lines[..i])
      invariant writer.pending == Adds(added)
    {
      LineDocumentsSnoc(msg.videoId, lines, i);
      match SplitOnce(lines[i], ' ')
      case None =>
      case Some((time, body)) =>
        writer.AddDocument(Document(msg.videoId, time, body));
        added := added + [Document(msg.videoId, time, body)];
    }
    assert lines[..|lines|] == lines;
    AppliedAdds(writer.committed, added);
    writer.Commit();
  }

  // ------------------------------------------------------------------
  // What an upsert promises.

  lemma {:induction false} WithoutVideoAppend(a: seq<Document>, b: seq<Document>, v: string)
    ensures WithoutVideo(a + b, v) == WithoutVideo(a, v) + WithoutVideo(b, v)
    decreases |a|
  {
    if a == [] {
      assert a + b == b;
    } else {
      assert (a + b)[1..] == a[1..] + b;
      WithoutVideoAppend(a[1..], b, v);
    }
  }

  lemma {:induction false} OfVideoAppend(a: seq<Document>, b: seq<Document>, v: string)
    ensures OfVideo(a + b, v) == OfVideo(a, v) + OfVideo(b, v)
    decreases |a|
  {
    if a == [] {
      assert a + b == b;
    } else {
      assert (a + b)[1..] == a[1..] + b;
      OfVideoAppend(a[1..], b, v);
    }
  }

  lemma {:induction false} WithoutVideoKeeps(docs: seq<Document>, v: string)
    requires forall d :: d in docs ==> d.videoId != v
    ensures WithoutVideo(docs, v) == docs && OfVideo(docs, v) == []
  {
    if docs != [] {
      assert docs[0] in docs;
      assert forall d :: d in docs[1..] ==> d in docs;
      WithoutVideoKeeps(docs[1..], v);
    }
  }

  lemma {:induction false} OfVideoKeeps(docs: seq<Document>, v: string)
    requires forall d :: d in docs ==> d.videoId == v
    ensures OfVideo(docs, v) == docs && WithoutVideo(docs, v) == []
  {
    if docs != [] {
      assert docs[0] in docs;
      assert forall d :: d in docs[1..] ==> d in docs;
      OfVideoKeeps(docs[1..], v);
    }
  }

  /** After an upsert the video's documents are exactly the new ones (none
      of its old documents is left), and every other video's documents are
      the same, in the same order. */
  lemma UpsertReplacesVideo(docs: seq<Document>, v: string, body: string)
    ensures OfVideo(Upserted(docs, v, body), v) == LineDocuments(v, Lines(body))
    ensures WithoutVideo(Upserted(docs, v, body), v) == WithoutVideo(docs, v)
  {
    var kept, added := WithoutVideo(docs, v), LineDocuments(v, Lines(body));
    WithoutVideoAppend(kept, added, v);
    OfVideoAppend(kept, added, v);
    WithoutVideoKeeps(kept, v);
    OfVideoKeeps(added, v);
  }

  /** Handling the same message twice leaves what handling it once left. */
  lemma UpsertIdempotent(docs: seq<Document>, v: string, body: string)
    ensures Upserted(Upserted(docs, v, body), v, body) == Upserted(docs, v, body)
  {
    UpsertReplacesVideo(docs, v, body);
  }

  // ------------------------------------------------------------------
  // The index body parses back into its cues.

  /** The documents a cue list is meant to give: per cue, its start label and
      its content, in order. */
  function CueDocuments(v: string, cues: seq<Cue>): (r: seq<Document>)
    ensures |r| == |cues|
  {
    if cues == [] then []
    else CueDocuments(v, cues[..|cues| - 1])
         + [Document(v, TimeLabel(cues[|cues| - 1].startTime, "."), cues[|cues| - 1].content)]
  }

  /** Document `i` belongs to cue `i`. */
  lemma {:induction false} CueDocumentsAt(v: string, cues: seq<Cue>, i: nat)
    requires i < |cues|
    ensures CueDocuments(v, cues)[i] == Document(v, TimeLabel(cues[i].startTime, "."), cues[i].content)
  {
    hide TimeLabel;
    var n := |cues| - 1;
    if i < n {
      CueDocumentsAt(v, cues[..n], i);
    }
  }

  lemma IndexTextDocument(v: string, c: Cue)
    ensures LineDocument(v, IndexText(c)) == Some(Document(v, TimeLabel(c.startTime, "."), c.content))
  {
    var stamp := TimeLabel(c.startTime, ".");
    if ' ' in stamp {
      TimeLabelChars(c.startTime, ".", ' ');
    }
    assert IndexText(c) == stamp + [' '] + c.content;
    IndexOfAfter(stamp, ' ', c.content);
    assert IndexText(c)[..|stamp|] == stamp;
    assert IndexText(c)[|stamp| + 1..] == c.content;
  }

  lemma {:induction false} CueDocumentsOfTexts(v: string, cues: seq<Cue>)
    ensures LineDocuments(v, IndexTexts(cues)) == CueDocuments(v, cues)
  {
    hide TimeLabel;
    if cues != [] {
      var pre, c := cues[..|cues| - 1], cues[|cues| - 1];
      CueDocumentsOfTexts(v, pre);
      var texts := IndexTexts(cues);
      assert texts[..|texts| - 1] == IndexTexts(pre);
      IndexTextDocument(v, c);
    }
  }

  /** When no cue content holds a line break, the handler reads the index
      body back into exactly one document per cue: its start label as
      `time` and its content as `body`, in cue order. */
  lemma IndexBodyRoundTrip(v: string, cues: seq<Cue>)
    requires AllSingleLine(cues)
    ensures LineDocuments(v, Lines(IndexBodyOf(cues))) == CueDocuments(v, cues)
  {
    hide TimeLabel;
    IndexBodyLines(cues);
    CueDocumentsOfTexts(v, cues);
  }

  // ------------------------------------------------------------------
  // The indexes under the mount, one per language.

  /** The documents of the index at `path`; a new index starts empty. */
  function Stored(indexes: map<string, seq<Document>>, path: string): seq<Document>
  {
    if path in indexes then indexes[path] else []
  }

  function Handled(indexes: map<string, seq<Document>>, mount: string, msg: IndexTopicMessage)
    : map<string, seq<Document>>
  {
    var path := IndexPath(mount, msg.lang);
    indexes[path := Upserted(Stored(indexes, path), msg.videoId, msg.body)]
  }

  /** The indexes after handling `msgs` in order. */
  function HandledAll(indexes: map<string, seq<Document>>, mount: string, msgs: seq<IndexTopicMessage>)
    : map<string, seq<Document>>
  {
    if msgs == [] then indexes
    else Handled(HandledAll(indexes, mount, msgs[..|msgs| - 1]), mount, msgs[|msgs| - 1])
  }

  /** The directories under the mount and the documents of each index. */
  class SearchIndexes {
    var indexes: map<string, seq<Document>>

    constructor (indexes: map<string, seq<Document>>)
      ensures this.indexes == indexes
    {
      this.indexes := indexes;
    }

    /** One record of the handler: open the index for the message's
        language, upsert, and keep what was committed. */
    method Handle(mount: string, msg: IndexTopicMessage)
      modifies this
      ensures indexes == Handled(old(indexes), mount, msg)
    {
      hide Upserted, LineDocuments, WithoutVideo, Lines, SchemaOf, TokenizersOf;
      var index := OpenIndex(mount, msg.lang);
      FieldsPresent(msg.lang);
      var docs := if index.path in indexes then indexes[index.path] else [];
      var writer := new IndexWriter(docs);
      IndexMessage(writer, msg);
      indexes := indexes[index.path := writer.committed];
    }

    /** `handler`: the records in order. */
    method HandleAll(mount: string, msgs: seq<IndexTopicMessage>)
      modifies this
      ensures indexes == HandledAll(old(indexes), mount, msgs)
    {
      for i := 0 to |msgs|
        invariant indexes == HandledAll(old(indexes), mount, msgs[..i])
      {
        Handle(mount, msgs[i]);
        assert msgs[..i + 1][..i] == msgs[..i];
      }
      assert msgs[..|msgs|] == msgs;
    }
  }

  /** Messages for other languages leave the index of `lang` as it was. */
  lemma {:induction false} OtherLanguagesUntouched(
    indexes: map<string, seq<Document>>, mount: string, msgs: seq<IndexTopicMessage>, lang: string)
    requires forall i :: 0 <= i < |msgs| ==> msgs[i].lang != lang
    ensures var path := IndexPath(mount, lang);
      (path in HandledAll(indexes, mount, msgs) <==> path in indexes)
      && Stored(HandledAll(indexes, mount, msgs), path) == Stored(indexes, path)
  {
    if msgs != [] {
      var pre, m := msgs[..|msgs| - 1], msgs[|msgs| - 1];
      OtherLanguagesUntouched(indexes, mount, pre, lang);
      if IndexPath(mount, m.lang) == IndexPath(mount, lang) {
        IndexPathInjective(mount, m.lang, lang);
      }
    }
  }

  /** Handling one message upserts into the index of its language: that
      index exists afterwards, the message's video has exactly the documents
      of the new body there, and the other videos' documents are kept. */
  lemma HandledTargetsItsIndex(indexes: map<string, seq<Document>>, mount: string, msg: IndexTopicMessage)
    ensures var path := IndexPath(mount, msg.lang);
      && path in Handled(indexes, mount, msg)
      && OfVideo(Handled(indexes, mount, msg)[path], msg.videoId) == LineDocuments(msg.videoId, Lines(msg.body))
      && WithoutVideo(Handled(indexes, mount, msg)[path], msg.videoId) == WithoutVideo(Stored(indexes, path), msg.videoId)
  {
    UpsertReplacesVideo(Stored(indexes, IndexPath(mount, msg.lang)), msg.videoId, msg.body);
  }
}
