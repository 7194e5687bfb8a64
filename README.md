# Video search pipeline: subtitles and search index, in Dafny

This project models the core of the video-search demo service. When a
video is uploaded, a transcription job is started. The transcript is cut
into subtitle cues, translated when asked, and stored as WebVTT. Its
lines are then upserted into a per-language full-text index. The web
application composes search queries and formats cue positions and
content URLs. The modules are:

- `Segmenter` (segmenter.dfy): the cue segmentation loop of
  `Subtitle::from_transcribe_output`. It is modelled twice and the two
  versions are proved equal:
  - as the loop itself (`SegmentTranscript`, specified by the streaming
    function `Run`);
  - as an independent cue-by-cue reading (`Cues`/`CuesFrom`).

  Times are whole milliseconds. A start time of 0 is the "no cue open"
  marker, exactly as `0.0` is in the code. So an item that starts at 0
  opens a cue that the next item overwrites, and that item's word is
  lost (`SentinelDropsZeroStart`). The model follows the code here.
- `TimeCodec` (time_codec.dfy): `time_format`, its clock decomposition,
  and a parser that reads every label back.
- `Subtitles` (subtitle.dfy): the `Subtitle` object and its methods:
  - its renderings (WebVTT, SRT and the index body), each a loop proved
    against a function of the cue list, with lemmas that read the text
    back line by line;
  - the all-or-nothing `translate`, over an injected translation
    function.
- `Tantivy` (tantivy.dfy): the two schemas, the schema choice by
  language, the index directory, and the registration of the Korean
  tokenizer.
- `IndexSubtitle` (index_subtitle.dfy): the re-index handler. It runs
  over an index writer whose operations take effect on commit, and over
  a map from index directory to documents. The model proves:
  - the upsert: old documents of the video are deleted and new ones are
    added per line;
  - idempotence;
  - that other videos and other languages are untouched;
  - the round trip from `index_body` to documents.
- `SubtitleHandler` (subtitle_handler.dfy): the subtitle handler. This
  covers:
  - the output language and the keys;
  - the merge of a video's subtitle list (`unique` keeps first
    occurrences in order);
  - one record end to end, over a bucket and a video table.
- `Transcribe` (transcribe.dfy): the upload handler:
  - `url_decode`: percent-decoding, then `+` to space;
  - `Path::extension` and `Path::file_stem`;
  - the video filter and the title and language split;
  - the loop over the records of one notification, where the
    `expect` panics end the run.
- `AskamaFilters` (askama_filters.dfy): `second_format`, `content_url` and
  `content_url_opt`. The content host is a parameter.
- `VideoSearch` (video_search.dfy): the query and payload composed by the
  search endpoint.
- `Text` (text.dfy) and `Wrappers` (wrappers.dfy): the string helpers
  and the Option/Result types that the modules share:
  - decimal rendering and zero-padding;
  - `split_once`, `split` and `lines`;
  - ASCII lower-casing.

Some behaviours of the code are stated as they are:

- The title is percent-decoded twice and the language code once, so a
  `+` in the language code stays as it is (`StartedNames`).
- An escaped `%2B` becomes a space (`EscapedPlusBecomesSpace`).
- The user's query text is inserted unescaped, so a query can close the
  parenthesis and forge the video filter (`QueryNotEscaped`).
- Any language code other than exactly `ko` gets the default schema.
- In the transcription-start and subtitle handlers, a failed `unwrap`
  or `expect` on the record's own data (a missing bucket, key,
  extension or transcript, or a failed translation) is modelled as an
  error result (`Panicked`, `Err`, `Fail`). The state is left as the
  code would leave it at that point. The index handler has no error
  path in the model (see "Left out").

## Model

| member | source | states |
|---|---|---|
| Segmenter.SegmentTranscript | packages/lambda/src/lib/subtitle.rs:105-128 | the loop over the items, with its single accumulator and final flush, returns exactly `Segmentation(tokens)` (the invariant ties the emitted cues plus the run from the accumulator to the whole result) |
| Segmenter.FirstTerminator | packages/lambda/src/lib/subtitle.rs:114-120 | the position of the first item that is exactly `.` or `?`; every item before it is a non-terminator |
| Segmenter.Cues | packages/lambda/src/lib/subtitle.rs:109-128 | cue-by-cue reading with no cue open: every cue has a nonzero start, every cue but the last ends with `.` or `?`, and there are at most as many cues as items with a nonzero start |
| Segmenter.CuesFrom | packages/lambda/src/lib/subtitle.rs:114-128 | with a cue open, the first cue keeps the opener's start, every cue starts nonzero, all but the last are terminated, and the count is bounded by the openers left |
| Segmenter.CuesFromExtend | packages/lambda/src/lib/subtitle.rs:114-118 | a non-terminator joins the open cue after one space, and its end time (if any) replaces the cue's end time |
| Segmenter.RunUnstarted | packages/lambda/src/lib/subtitle.rs:110-113 | with no cue open (start 0), the loop emits exactly the cue-by-cue reading; an item with no start or start 0 opens nothing that survives |
| Segmenter.RunOpen | packages/lambda/src/lib/subtitle.rs:114-128 | with a cue open, the loop emits exactly `CuesFrom`; a terminator is appended with no space and never changes the timing, and an unterminated cue is flushed at the end |
| Segmenter.SegmentationIsCues | packages/lambda/src/lib/subtitle.rs:109-128 | the streaming loop and the cue-by-cue reading agree on every input |
| Segmenter.SegmentationShape | packages/lambda/src/lib/subtitle.rs:109-130 | every emitted cue has a nonzero start; all but the last end with `.` or `?`; no items give no cues; the cues are no more than the items with a nonzero start |
| Segmenter.SentinelDropsZeroStart | packages/lambda/src/lib/subtitle.rs:110-113 | an item starting at 0 is overwritten by the next one: `Hello`(0) `world`(500) `.` gives the single cue `world.` from 500 to 1000 |
| Segmenter.TerminatorClosesCue | packages/lambda/src/lib/subtitle.rs:114-123 | words join with one space, the terminator with none, and the cue ends at the last word's end time |
| Segmenter.PunctuationAndFlush | packages/lambda/src/lib/subtitle.rs:110-128 | untimed leading punctuation is dropped, `!` does not close a cue and is joined with a space, and the unterminated tail is flushed |
| TimeCodec.ClockOf | packages/lambda/src/lib/subtitle.rs:214-222 | `h*3600000 + m*60000 + s*1000 + ms == t` with `m < 60`, `s < 60`, `ms < 1000` |
| TimeCodec.ClockUnique | packages/lambda/src/lib/subtitle.rs:214-222 | that decomposition is the only one with those bounds |
| TimeCodec.TimeFormat | packages/lambda/src/lib/subtitle.rs:214-225 | peeling hours, minutes and seconds off `t` step by step gives `TimeLabel(t, d)`: the fields zero-padded to 2, 2, 2 and 3 digits with `d` before the milliseconds |
| TimeCodec.TimeLabelRoundTrip | packages/lambda/src/lib/subtitle.rs:224 | every label reads back as the time it was made from, whatever the separator |
| TimeCodec.TimeLabelWidth | packages/lambda/src/lib/subtitle.rs:224 | below 100 hours a label is exactly 11 characters plus the separator's length; from 100 hours on it is longer (hours are not truncated) |
| TimeCodec.TimeLabelChars | packages/lambda/src/lib/subtitle.rs:224 | a label holds only digits, `:` and the separator's characters |
| TimeCodec.PadExamples | packages/lambda/src/lib/subtitle.rs:224 | `{:02}` and `{:03}` pad small numbers with leading zeros (`00`, `000`, `01`, `05`) |
| TimeCodec.MillisExample | packages/lambda/src/lib/subtitle.rs:224 | a three-digit millisecond field is left as it is |
| TimeCodec.TimeLabelExample | packages/lambda/src/lib/subtitle.rs:214-225 | 3725125 ms with `.` renders as `01:02:05.125` |
| TimeCodec.TimeLabelZero | packages/lambda/src/lib/subtitle.rs:214-225 | time 0 with `,` renders as `00:00:00,000` |
| Text.Digits | packages/lambda/src/lib/subtitle.rs:157 | the decimal rendering is non-empty, all digits, and one digit exactly below 10 |
| Text.DigitsRoundTrip | packages/lambda/src/lib/subtitle.rs:157 | the decimal rendering of `n` denotes `n` |
| Text.Pad | packages/lambda/src/lib/subtitle.rs:224 | zero-padding gives digits only, of length `max(width, digits of n)` |
| Text.PadRoundTrip | packages/lambda/src/lib/subtitle.rs:224 | zero-padding never changes the number denoted |
| Text.SplitOnce | packages/lambda/src/cmd/index_subtitle.rs:57 | there is a split exactly when the separator occurs; then the text is before + separator + after, with no separator before |
| Text.Split | packages/lambda/src/cmd/transcribe.rs:66 | no piece holds the separator and the pieces joined with it give back the text, so they are exactly the runs between separators; there is one piece exactly when the separator does not occur |
| Text.SplitLast | packages/lambda/src/cmd/transcribe.rs:66 | text that ends in a separator and a run without one splits into the pieces before the separator followed by that run |
| Text.Lines | packages/lambda/src/cmd/index_subtitle.rs:56 | no line holds a line break; there are no lines exactly for the empty text |
| Text.LinesAppend | packages/lambda/src/cmd/index_subtitle.rs:56 | the lines of a text ending in a line break, followed by more text, are the lines of each part |
| Text.ToLower | packages/lambda/src/cmd/transcribe.rs:58 | lower-casing keeps the length and maps every character on its own |
| Subtitles.VttBlocks | packages/lambda/src/lib/subtitle.rs:192-198 | the cue blocks are empty exactly when there are no cues, and otherwise end with a line break |
| Subtitles.SrtOf | packages/lambda/src/lib/subtitle.rs:156-163 | the SRT text is empty exactly when there are no cues, and otherwise ends with a line break |
| Subtitles.IndexBodyOf | packages/lambda/src/lib/subtitle.rs:203-212 | the index body is empty exactly when there are no cues, and otherwise ends with a line break |
| Subtitles.LabelSingleLine | packages/lambda/src/lib/subtitle.rs:214-225 | a time label (separator without line breaks) is a single line |
| Subtitles.TimingSingleLine | packages/lambda/src/lib/subtitle.rs:193-195 | the `start --> end` timing line is a single line |
| Subtitles.BlockLines | packages/lambda/src/lib/subtitle.rs:193-197 | a cue block reads back as its timing line, its content and a blank line |
| Subtitles.VttLines | packages/lambda/src/lib/subtitle.rs:187-201 | the WebVTT text reads back as `WEBVTT`, a blank line, then per cue in order its timing, content and blank lines |
| Subtitles.VttCueLines | packages/lambda/src/lib/subtitle.rs:187-201 | the WebVTT text has `2 + 3n` lines, and cue `i` is at lines `2+3i` (timing with `.`), `3+3i` (content) and `4+3i` (blank) |
| Subtitles.SrtEntryLines | packages/lambda/src/lib/subtitle.rs:157-162 | an SRT entry reads back as its number, its timing with `,`, its content and a blank line |
| Subtitles.SrtLines | packages/lambda/src/lib/subtitle.rs:156-163 | the SRT text reads back as the entries' lines in cue order |
| Subtitles.SrtCueLines | packages/lambda/src/lib/subtitle.rs:156-163 | the SRT text has `4n` lines, and cue `i` is at lines `4i` (the 1-based number `i+1`), `4i+1` (timing), `4i+2` (content) and `4i+3` (blank) |
| Subtitles.IndexLineLines | packages/lambda/src/lib/subtitle.rs:206-208 | one index line reads back as `label content`, one line |
| Subtitles.IndexBodyLines | packages/lambda/src/lib/subtitle.rs:203-212 | the index body reads back as exactly one line per cue, in order |
| Subtitles.FirstFailure | packages/lambda/src/lib/subtitle.rs:137-146 | the first cue whose translation call fails: every call before it succeeds |
| Subtitles.Translated | packages/lambda/src/lib/subtitle.rs:133-150 | an error exactly when some call fails; on success the same number of cues, in order, with the same start and end times, each content replaced by its translation or by `""` when none is returned |
| Subtitles.Subtitle.FromTranscribeOutput | packages/lambda/src/lib/subtitle.rs:103-131 | the new subtitle's cues are the segmentation of the items |
| Subtitles.Subtitle.Translate | packages/lambda/src/lib/subtitle.rs:133-150 | on a failed call the error is returned and the cues are left exactly as they were; otherwise the cues become `Translated(...)` |
| Subtitles.Subtitle.Vtt | packages/lambda/src/lib/subtitle.rs:187-201 | the text grown block by block is `VttOf(items)`, which the lemmas above read back |
| Subtitles.Subtitle.SaveAsSrt | packages/lambda/src/lib/subtitle.rs:152-167 | the text written entry by entry is `SrtOf(items)` |
| Subtitles.Subtitle.IndexBody | packages/lambda/src/lib/subtitle.rs:203-212 | the body grown line by line is `IndexBodyOf(items)` |
| Tantivy.Union | packages/lambda/src/lib/tantivy.rs:37-39 | the union of two options is stored if either is, and indexed by the first indexing present |
| Tantivy.KoTextOption | packages/lambda/src/lib/tantivy.rs:25-32 | indexed by `lang_ko` with frequencies and positions, not stored |
| Tantivy.GetField | packages/lambda/src/cmd/index_subtitle.rs:48-50 | the position of the first field with that name, or none exactly when no field has it |
| Tantivy.SchemaBuilder.constructor | packages/lambda/src/lib/tantivy.rs:35 | a new builder has no fields |
| Tantivy.SchemaBuilder.AddTextField | packages/lambda/src/lib/tantivy.rs:37-39 | appends the field after those already added |
| Tantivy.SchemaBuilder.Build | packages/lambda/src/lib/tantivy.rs:40 | the schema has the added fields in order |
| Tantivy.EnSchema | packages/lambda/src/lib/tantivy.rs:34-41 | `video_id` and `time` as the union of `STRING` and `STORED`, `body` as the union of `TEXT` and `STORED` |
| Tantivy.KoSchema | packages/lambda/src/lib/tantivy.rs:43-53 | the same, with `body` as the union of `ko_text_option()` and `STORED` |
| Tantivy.TantivySchema | packages/lambda/src/lib/tantivy.rs:55-61 | the Korean schema exactly for `ko`, the default one otherwise |
| Tantivy.BodyTokenizer | packages/lambda/src/lib/tantivy.rs:39 | the tokenizer of the `body` field, which records frequencies and positions |
| Tantivy.SchemaShape | packages/lambda/src/lib/tantivy.rs:34-61 | exactly `video_id`, `time`, `body` in order, all stored; the first two untokenized; the body tokenized by `lang_ko` exactly when the language is `ko` |
| Tantivy.FieldsPresent | packages/lambda/src/cmd/index_subtitle.rs:48-50 | the handler's three `get_field(..).unwrap()` calls always succeed, at positions 0, 1 and 2 |
| Tantivy.IndexPath | packages/lambda/src/lib/tantivy.rs:66 | the directory is the mount, `/`, then the language |
| Tantivy.IndexPathInjective | packages/lambda/src/lib/tantivy.rs:66-69 | distinct language strings under one mount give distinct path strings |
| Tantivy.Index.OpenOrCreate | packages/lambda/src/lib/tantivy.rs:69 | an opened index has the directory and schema given, and only the built-in tokenizers |
| Tantivy.Index.Register | packages/lambda/src/lib/tantivy.rs:80-81 | registration adds the named tokenizer |
| Tantivy.OpenIndex | packages/lambda/src/lib/tantivy.rs:63-85 | a fresh index at `mount/lang` with `SchemaOf(lang)` and `TokenizersOf(lang)` |
| Tantivy.TokenizersAgree | packages/lambda/src/lib/tantivy.rs:70-82 | `lang_ko` is registered exactly for `ko`, and the body's tokenizer is always known to its index |
| IndexSubtitle.WithoutVideo | packages/lambda/src/cmd/index_subtitle.rs:53 | a delete by term keeps exactly the documents whose `video_id` differs |
| IndexSubtitle.OfVideo | packages/lambda/src/cmd/index_subtitle.rs:53 | the documents whose `video_id` is the term, which the delete removes |
| IndexSubtitle.Adds | packages/lambda/src/cmd/index_subtitle.rs:58-62 | one add operation per document, in order |
| IndexSubtitle.AppliedAdds | packages/lambda/src/cmd/index_subtitle.rs:58-66 | committing only additions appends the added documents in order |
| IndexSubtitle.IndexWriter.constructor | packages/lambda/src/cmd/index_subtitle.rs:46 | a new writer sees the committed documents and has nothing pending |
| IndexSubtitle.IndexWriter.DeleteTerm | packages/lambda/src/cmd/index_subtitle.rs:53 | queues a delete; the committed documents are unchanged until commit |
| IndexSubtitle.IndexWriter.AddDocument | packages/lambda/src/cmd/index_subtitle.rs:58-62 | queues an add; the committed documents are unchanged until commit |
| IndexSubtitle.IndexWriter.Commit | packages/lambda/src/cmd/index_subtitle.rs:54 | applies the queued operations in order and clears the queue |
| IndexSubtitle.LineDocument | packages/lambda/src/cmd/index_subtitle.rs:57-61 | a document exactly when the line holds a space: the message's video, the text before the first space as time, the rest as body |
| IndexSubtitle.LineDocuments | packages/lambda/src/cmd/index_subtitle.rs:56-64 | exactly one document per line holding a space; each is keyed by the video and is `time + " " + body` of some line |
| IndexSubtitle.IndexMessage | packages/lambda/src/cmd/index_subtitle.rs:52-66 | delete, commit, add per line, commit leaves the documents without the video followed by the new line documents, with nothing pending |
| IndexSubtitle.UpsertReplacesVideo | packages/lambda/src/cmd/index_subtitle.rs:52-64 | afterwards the video's documents are exactly the new body's documents (none of the old ones remain) and the other videos' documents are unchanged, in order |
| IndexSubtitle.UpsertIdempotent | packages/lambda/src/cmd/index_subtitle.rs:52-66 | handling the same message twice leaves what handling it once left |
| IndexSubtitle.CueDocumentsAt | packages/lambda/src/lib/subtitle.rs:206-208 | document `i` of a cue list is the video, cue `i`'s start label with `.`, and cue `i`'s content |
| IndexSubtitle.IndexTextDocument | packages/lambda/src/cmd/index_subtitle.rs:57-61 | splitting one index line at its first space gives back the cue's start label and its content |
| IndexSubtitle.IndexBodyRoundTrip | packages/lambda/src/cmd/index_subtitle.rs:56-61 | for cues whose contents are single lines, reading the index body back gives exactly `(time label, content)` per cue, in order |
| IndexSubtitle.SearchIndexes.Handle | packages/lambda/src/cmd/index_subtitle.rs:40-66 | one message upserts into the index at `mount/lang` (created empty when missing) and changes no other index |
| IndexSubtitle.SearchIndexes.HandleAll | packages/lambda/src/cmd/index_subtitle.rs:39-67 | the messages are handled in order |
| IndexSubtitle.OtherLanguagesUntouched | packages/lambda/src/cmd/index_subtitle.rs:39-46 | messages for other languages leave the index of a language (and whether it exists) as it was |
| IndexSubtitle.HandledTargetsItsIndex | packages/lambda/src/cmd/index_subtitle.rs:44-66 | after one message the index of its language exists, holds exactly the new documents for the video, and keeps the other videos' documents |
| SubtitleHandler.UniqueFrom | packages/lambda/src/cmd/subtitle.rs:123 | `unique()` after a seen set: nothing seen, no duplicates, order kept |
| SubtitleHandler.UniqueFromMembers | packages/lambda/src/cmd/subtitle.rs:123 | exactly the elements not seen before are kept |
| SubtitleHandler.Unique | packages/lambda/src/cmd/subtitle.rs:123 | `unique()` keeps every element, without duplicates, as a subsequence of the input (the order is fixed by `UniqueSnoc`) |
| SubtitleHandler.UniqueFromAppend | packages/lambda/src/cmd/subtitle.rs:123 | after a seen set, one more element at the end is kept exactly when it was neither seen nor earlier in the list |
| SubtitleHandler.UniqueSnoc | packages/lambda/src/cmd/subtitle.rs:121-123 | `unique()` of the empty list is empty, and of a list with one more element it is `unique()` of the list followed by that element only when it is new, which fixes the order of first occurrence |
| SubtitleHandler.MergeSubtitlesSpec | packages/lambda/src/cmd/subtitle.rs:119-123 | the merged list holds `lang` and every old language, has no duplicates, and is the deduplicated old list followed by `lang` only when `lang` is new |
| SubtitleHandler.MergeDistinct | packages/lambda/src/cmd/subtitle.rs:119-123 | a duplicate-free list that already holds `lang` is unchanged; otherwise it just gains `lang` at the end |
| SubtitleHandler.VideoTable.UpdateSubtitle | packages/lambda/src/cmd/subtitle.rs:110-138 | a missing record is not created; otherwise only its subtitle list changes, to the merge (or `[lang]` when it had none) |
| SubtitleHandler.UpdatedListsLang | packages/lambda/src/cmd/subtitle.rs:117-126 | the new list always holds `lang` with no duplicates, and is `[lang]` when the record had no list |
| SubtitleHandler.OutputLanguage | packages/lambda/src/cmd/subtitle.rs:64-69 | the translation target when there is one, else the content language |
| SubtitleHandler.TranscriptionKey | packages/lambda/src/cmd/subtitle.rs:59 | the transcript key is `transcription/` followed by the video id |
| SubtitleHandler.SubtitleKey | packages/lambda/src/cmd/subtitle.rs:72 | the key is `subtitle/`, the id, `/`, the language and `.vtt` |
| SubtitleHandler.SubtitleKeyInjective | packages/lambda/src/cmd/subtitle.rs:72 | for one video, distinct languages get distinct keys |
| SubtitleHandler.Bucket.Put | packages/lambda/src/cmd/subtitle.rs:97-108 | the object at the key is replaced and nothing else changes |
| SubtitleHandler.HandleRecord | packages/lambda/src/cmd/subtitle.rs:55-78 | a missing transcript or a failed translation is an error with nothing written; otherwise the WebVTT of the (translated) segmentation is stored under the output language's key, the video's list gains the language, and the published message carries the video, the language and the index body |
| Transcribe.EscapedChar | packages/lambda/src/cmd/transcribe.rs:54 | a well-formed `%XX` escape stands for an octet below 256 |
| Transcribe.PercentDecode | packages/lambda/src/cmd/transcribe.rs:54 | decoding never lengthens the text |
| Transcribe.PercentRoundTrip | packages/lambda/src/cmd/transcribe.rs:54 | percent-decoding undoes percent-encoding of any octet string |
| Transcribe.DecodePlainPrefix | packages/lambda/src/cmd/transcribe.rs:54 | text without `%` is copied unchanged |
| Transcribe.DecodeEscapePrefix | packages/lambda/src/cmd/transcribe.rs:54 | a leading escape becomes its octet and decoding goes on after it |
| Transcribe.Replace | packages/lambda/src/cmd/transcribe.rs:120 | replacing keeps the length |
| Transcribe.ReplaceAt | packages/lambda/src/cmd/transcribe.rs:120 | every position is replaced on its own |
| Transcribe.UrlDecodeSpec | packages/lambda/src/cmd/transcribe.rs:119-121 | the decoded text never holds `+`; without `%` decoding only turns `+` into spaces |
| Transcribe.EscapedPlusBecomesSpace | packages/lambda/src/cmd/transcribe.rs:120 | `%2B` decodes to a space, because the replacement runs after decoding |
| Transcribe.UrlDecodeSplice | packages/lambda/src/cmd/transcribe.rs:119-121 | decoding goes piece by piece: plain text has `+` turned into spaces, an escape becomes its octet (a space if it is `+`) |
| Transcribe.ApostropheAndAmpersand | packages/lambda/src/cmd/transcribe.rs:136-143 | `%27` stands for `'` and `%26` for `&` |
| Transcribe.UrlDecodePlusJoin | packages/lambda/src/cmd/transcribe.rs:127-134 | two words joined by `+` decode to the words joined by a space |
| Transcribe.FileName | packages/lambda/src/cmd/transcribe.rs:55 | the file name is a non-empty last component without `/`, never `.` or `..` |
| Transcribe.FileNameLast | packages/lambda/src/cmd/transcribe.rs:55 | a path ending in `/` and a named component has that component as its file name, whatever precedes it |
| Transcribe.FileNameBare | packages/lambda/src/cmd/transcribe.rs:55 | a path that is a single named component is its own file name |
| Transcribe.Extension | packages/lambda/src/cmd/transcribe.rs:55-58 | an extension holds no `.` and no `/` |
| Transcribe.FileStem | packages/lambda/src/cmd/transcribe.rs:65 | there is a stem exactly when there is a file name |
| Transcribe.SplitAtDotParts | packages/lambda/src/cmd/transcribe.rs:55-65 | a name split at its last dot is the non-empty stem, `.`, and the extension |
| Transcribe.StemDotExtension | packages/lambda/src/cmd/transcribe.rs:55-65 | a path with an extension names the file `stem.extension` with a non-empty stem, so `file_stem().expect` cannot fail after the extension check |
| Transcribe.PlanRecordSpec | packages/lambda/src/cmd/transcribe.rs:52-88 | a record panics exactly when its bucket, key or extension is missing; a job is started exactly for an `mp4`/`mov` key (in any case) whose file stem has at least two dot-separated parts; it gets the drawn id, the decoded `s3://bucket/key` as media URI, the decoded key as video key, a title without `+`, the record's bucket, `transcription/<id>`, `thumbnail/<id>.jpg`, and an empty subtitle list for the new video row |
| Transcribe.StartedNames | packages/lambda/src/cmd/transcribe.rs:65-66 | title and language are the first two dot-separated parts of the stem (at least two parts exist); the title is decoded again, the language is not |
| Transcribe.Handled | packages/lambda/src/cmd/transcribe.rs:51-113 | no more jobs are started than there are records |
| Transcribe.HandleRecords | packages/lambda/src/cmd/transcribe.rs:51-113 | the loop over the records (skip with `continue`, stop on a panic) returns exactly `Handled(records, ids)` |
| Transcribe.HandledStops | packages/lambda/src/cmd/transcribe.rs:52-58 | after a panic the remaining records change nothing |
| Transcribe.HandledStep | packages/lambda/src/cmd/transcribe.rs:51-113 | each record either starts its own job at the end of the list or leaves the list as it was |
| Transcribe.HandledIds | packages/lambda/src/cmd/transcribe.rs:67-80 | every started job carries one of the drawn ids and writes to `transcription/<its id>` |
| Transcribe.DistinctOutputKeys | packages/lambda/src/cmd/transcribe.rs:67-80 | with distinct ids, the started jobs write to distinct output keys |
| AskamaFilters.SecondFormat | packages/app/src/askama_filters.rs:34-44 | the text is empty exactly for 0 seconds |
| AskamaFilters.SecondFormatShape | packages/app/src/askama_filters.rs:40-43 | for positive seconds: unpadded whole minutes, `:`, then the remaining seconds (the remainder modulo 60) padded to two digits |
| AskamaFilters.SecondFormatRoundTrip | packages/app/src/askama_filters.rs:40-43 | the text reads back as the seconds; its minutes part denotes `s / 60` and its two-digit part `s % 60 < 60` |
| AskamaFilters.ContentUrl | packages/app/src/askama_filters.rs:29-32 | the URL is the host and the key plus three characters |
| AskamaFilters.ContentUrlSplit | packages/app/src/askama_filters.rs:29-32 | the URL is `//`, then host and key split at the first `/` (for a host without `/`) |
| AskamaFilters.ContentUrlOpt | packages/app/src/askama_filters.rs:19-27 | empty exactly when there is no key; otherwise the key's content URL |
| VideoSearch.ComposePayload | packages/app/src/handlers/api_video_search.rs:43-51 | `lang` is forwarded unchanged; the query is `(q)`, plus ` AND v` with a video id; its length is the length of `q` plus 2, plus 5 and the length of `v` when filtered |
| VideoSearch.QueryRoundTrip | packages/app/src/handlers/api_video_search.rs:43-47 | a query text without `)` is recovered exactly from the composed query, with the video id |
| VideoSearch.QueryNotEscaped | packages/app/src/handlers/api_video_search.rs:43-47 | the user's text is inserted verbatim: `a) AND (b` unfiltered gives the same query as `a` filtered by `(b)` |

## Left out

Decoding and floating point:

- JSON decoding of the transcription output (`de_alternatives`, `de_f32`, serde). The segmenter takes the items already decoded: the first alternative's content and the optional start and end times.
- f32 arithmetic. Times are whole milliseconds. `time_format`'s float truncation (e.g. `0.125 * 1000` giving 124) is not modelled, and `TimeCodec.TimeFormat` renders the exact milliseconds.
- `Transcribe.PercentDecode`: only well-formed `%XX` escapes are decoded, each to the character with that code. A `%` without two hex digits is kept. UTF-8 reassembly of multi-byte escapes and lossy decoding are not modelled.
- `Text.ToLower` only lower-cases ASCII letters. Unicode case mapping is not modelled.

Services, I/O and the runtime:

- AWS calls are modelled as follows:
  - Translate is an injected function returning a result or an error.
  - The transcript store and the subtitle bucket are maps.
  - The video table is a map of records.
  - Publishing is the handler's result.
  - Starting the transcription job, invoking the image-frame function and writing the video row are the `Upload` value that the handler returns.
  - Their network failures (the `unwrap`s on sends) are not modelled.
- File and async I/O: `save_as_srt` and `save_as_vtt` are modelled only by the text they write (`SaveAsSrt`, `Vtt`). File creation and flushing are left out.
- Search-library internals (segments, writer memory budget, the Korean tokenizer itself, query parsing, ranking). The index is a sequence of `(video_id, time, body)` documents, operations take effect on commit, and a registered tokenizer is a name in a set.
- Environment variables, and which clients are built. The index mount and the content host are parameters.
- Concurrency and delivery: the writer's directory lock, at-least-once queue and topic delivery, and the Lambda runtime. Messages are handled sequentially.
- `Utc::now()` and `Uuid::new_v4()`. `created_at` is left out, and the drawn ids are the `ids` parameter of `Transcribe.HandleRecords`.

Other handlers:

- The search function over the index (`search_subtitle.rs`) and the post-processing, subtitle-request and image-frame handlers, which are plumbing around service calls. The web application's routing and templates are left out too.

Weaker or narrower statements:

- IndexSubtitle.SearchIndexes.Handle: failures inside the search library are not modelled. These are the panic on a message that does not parse, the `unwrap`s on opening the index, on `writer`, on `add_document` and on the two `commit`s, and the `?` errors of creating the directory and opening or creating the index. Messages are taken as already decoded, and every step succeeds. So the model does not show that a failure after the first commit leaves the video with no documents in the index until the message is handled again. `IndexMessage` and `Tantivy.OpenIndex` have no failure path for the same reason.
- Transcribe.PlanRecordSpec: the thumbnail key stored in the video row is `url_decode("thumbnail/<id>.jpg")`. That equals the key itself for the UUID ids the code draws (no `+` or `%`). The model keeps the key as written.
- Transcribe.UrlDecodePlusJoin: the source's two decoding tests use long literal file names. They are covered by this generic lemma and by `UrlDecodeSplice` and `ApostropheAndAmpersand`, which state the same decoding for every input of that shape. The literal strings are not evaluated.
- Subtitles.VttCueLines: the WebVTT and SRT renderings are related cue by cue through their line positions (`VttCueLines`, `SrtCueLines`), not through one lemma equating the two texts.
- SubtitleHandler.HandleRecord: a panic in the code (missing transcript, failed translation) is an `Err` result with nothing written. Failures of the later `put_object`, `update_item` and publish calls are not modelled.
