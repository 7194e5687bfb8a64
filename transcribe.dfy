/** The upload handler: decode the uploaded object's key, keep only `mp4`
    and `mov` videos, read the title and spoken language from the file
    name, and start a transcription job under a new video id. */
module Transcribe {
  import opened Wrappers
  import opened Text

  // ------------------------------------------------------------------
  // Percent-decoding (section 2.1 of RFC 3986), then `+` as a space.

  predicate IsHex(c: char)
  {
    '0' <= c <= '9' || 'a' <= c <= 'f' || 'A' <= c <= 'F'
  }

  function HexValue(c: char): (v: nat)
    requires IsHex(c)
    ensures v < 16
  {
    if '0' <= c <= '9' then c as int - '0' as int
    else if 'a' <= c <= 'f' then c as int - 'a' as int + 10
    else c as int - 'A' as int + 10
  }

  function HexDigit(v: nat): (c: char)
    requires v < 16
    ensures IsHex(c) && HexValue(c) == v
  {
    if v < 10 then (v + '0' as int) as char else (v - 10 + 'A' as int) as char
  }

  /** A `%` followed by two hex digits starts `s`. */
  predicate EscapeAt(s: string)
  {
    |s| >= 3 && s[0] == '%' && IsHex(s[1]) && IsHex(s[2])
  }

  /** The octet a well-formed escape stands for. */
  function EscapedChar(s: string): (c: char)
    requires EscapeAt(s)
    ensures c as int < 256
  {
    (16 * HexValue(s[1]) + HexValue(s[2])) as char
  }

  /** `url_escape::decode`: each `%XX` becomes the octet `XX`; a `%` not
      followed by two hex digits is kept as it is. */
  function PercentDecode(s: string): (r: string)
    ensures |r| <= |s|
    decreases |s|
  {
    if s == [] then []
    else if EscapeAt(s) then [EscapedChar(s)] + PercentDecode(s[3..])
    else [s[0]] + PercentDecode(s[1..])
  }

  /** Every character of `s`, replaced by `y` where it is `x`. */
  function Replace(s: string, x: char, y: char): (r: string)
    ensures |r| == |s|
  {
    if s == [] then [] else [if s[0] == x then y else s[0]] + Replace(s[1..], x, y)
  }

  lemma {:induction false} ReplaceAt(s: string, x: char, y: char)
    ensures forall i :: 0 <= i < |s| ==> Replace(s, x, y)[i] == if s[i] == x then y else s[i]
  {
    if s != [] {
      ReplaceAt(s[1..], x, y);
    }
  }

  /** `url_decode`. */
  function UrlDecode(s: string): string
  {
    Replace(PercentDecode(s), '+', ' ')
  }

  /** The decoded text never holds a `+`, and decoding text without `%`
      only turns every `+` into a space. */
  lemma UrlDecodeSpec(s: string)
    ensures '+' !in UrlDecode(s)
    ensures '%' !in s ==> UrlDecode(s) == Replace(s, '+', ' ')
  {
    ReplaceAt(PercentDecode(s), '+', ' ');
    if '%' !in s {
      DecodePlainPrefix(s, []);
      assert s + [] == s;
    }
  }

  /** An escaped `+` is turned into a space too, since the replacement runs
      after the percent-decoding. */
  lemma EscapedPlusBecomesSpace()
    ensures UrlDecode("%2B") == " "
  {
    assert EscapeAt("%2B");
    assert PercentDecode("%2B") == ['+'] + PercentDecode([]);
  }

  /** `%XX` for every character (each below 256). */
  function PercentEncode(s: string): (r: string)
    requires forall i :: 0 <= i < |s| ==> s[i] as int < 256
    ensures |r| == 3 * |s|
  {
    if s == [] then []
    else ['%', HexDigit(s[0] as int / 16), HexDigit(s[0] as int % 16)] + PercentEncode(s[1..])
  }

  /** Decoding undoes encoding. */
  lemma {:induction false} PercentRoundTrip(s: string)
    requires forall i :: 0 <= i < |s| ==> s[i] as int < 256
    ensures PercentDecode(PercentEncode(s)) == s
  {
    if s != [] {
      var e := PercentEncode(s);
      assert EscapeAt(e);
      assert e[3..] == PercentEncode(s[1..]);
      assert EscapedChar(e) == s[0];
      PercentRoundTrip(s[1..]);
    }
  }

  lemma {:induction false} ReplaceAppend(a: string, b: string, x: char, y: char)
    ensures Replace(a + b, x, y) == Replace(a, x, y) + Replace(b, x, y)
  {
    if a == [] {
      assert a + b == b;
    } else {
      assert (a + b)[0] == a[0] && (a + b)[1..] == a[1..] + b;
      ReplaceAppend(a[1..], b, x, y);
    }
  }

  lemma NotInTail(a: string, c: char)
    requires c !in a && a != []
    ensures a[0] != c && c !in a[1..]
  {
    assert a == [a[0]] + a[1..];
  }

  /** A first character other than `%` is copied as it is. */
  lemma DecodePlainChar(a: string, b: string)
    requires a != [] && a[0] != '%'
    ensures PercentDecode(a + b) == [a[0]] + PercentDecode(a[1..] + b)
  {
    var s := a + b;
    assert s[0] == a[0] && s[1..] == a[1..] + b;
  }

  lemma {:induction false} DecodePlainPrefix(a: string, b: string)
    requires '%' !in a
    ensures PercentDecode(a + b) == a + PercentDecode(b)
  {
    if a == [] {
      assert a + b == b;
    } else {
      hide PercentDecode;
      var rest := a[1..];
      NotInTail(a, '%');
      DecodePlainChar(a, b);
      DecodePlainPrefix(rest, b);
      assert a == [a[0]] + rest;
    }
  }

  lemma DecodeEscapePrefix(e: string, b: string)
    requires |e| == 3 && EscapeAt(e)
    ensures PercentDecode(e + b) == [EscapedChar(e)] + PercentDecode(b)
  {
    assert EscapeAt(e + b) && (e + b)[3..] == b;
    assert EscapedChar(e + b) == EscapedChar(e);
  }

  /** Decoding works piece by piece: plain text has its `+` turned into
      spaces, an escape becomes its octet (a space if that octet is `+`),
      and the rest is decoded on its own. */
  lemma UrlDecodeSplice(a: string, e: string, b: string)
    requires '%' !in a && |e| == 3 && EscapeAt(e)
    ensures UrlDecode(a + e + b)
            == Replace(a, '+', ' ') + [if EscapedChar(e) == '+' then ' ' else EscapedChar(e)] + UrlDecode(b)
  {
    assert a + e + b == a + (e + b);
    DecodePlainPrefix(a, e + b);
    DecodeEscapePrefix(e, b);
    hide PercentDecode, EscapedChar;
    ReplaceAppend(a, [EscapedChar(e)] + PercentDecode(b), '+', ' ');
    ReplaceAppend([EscapedChar(e)], PercentDecode(b), '+', ' ');
  }

  /** The escapes of the file names in the source's tests: `%27` is an
      apostrophe and `%26` an ampersand. */
  lemma ApostropheAndAmpersand()
    ensures EscapeAt("%27") && EscapedChar("%27") == '\''
    ensures EscapeAt("%26") && EscapedChar("%26") == '&'
  {
  }

  /** Replacing a character that does not occur changes nothing. */
  lemma ReplaceAbsent(s: string, x: char, y: char)
    requires x !in s
    ensures Replace(s, x, y) == s
  {
    ReplaceAt(s, x, y);
  }

  /** The source's first test, for any two words: words joined by `+` come
      out joined by a space. */
  lemma UrlDecodePlusJoin(a: string, b: string)
    requires '+' !in a && '%' !in a && '+' !in b && '%' !in b
    ensures UrlDecode(a + "+" + b) == a + " " + b
  {
    var s := a + "+" + b;
    assert '%' !in s by {
      assert forall i :: 0 <= i < |s| ==> s[i] == if i < |a| then a[i] else if i == |a| then '+' else b[i - |a| - 1];
    }
    UrlDecodeSpec(s);
    hide UrlDecode;
    ReplaceAppend(a + "+", b, '+', ' ');
    ReplaceAppend(a, "+", '+', ' ');
    ReplaceAbsent(a, '+', ' ');
    ReplaceAbsent(b, '+', ' ');
    assert Replace("+", '+', ' ') == " ";
  }

  // ------------------------------------------------------------------
  // The file name.

  /** The last component of a `/`-separated path, ignoring empty and `.`
      components; none for an empty path or one ending in `..`. */
  function FileName(path: string): (r: Option<string>)
    ensures r.Some? ==> '/' !in r.value && r.value != "" && r.value != "." && r.value != ".."
  {
    var parts := Split(path, '/');
    var named := Components(parts);
    if named == [] || named[|named| - 1] == ".." then None else Some(named[|named| - 1])
  }

  /** The components that name something: not empty, not `.`. */
  function Components(parts: seq<string>): (r: seq<string>)
    requires forall k :: 0 <= k < |parts| ==> '/' !in parts[k]
    ensures forall k :: 0 <= k < |r| ==> '/' !in r[k] && r[k] != "" && r[k] != "."
  {
    if parts == [] then []
    else Components(parts[..|parts| - 1])
         + (if parts[|parts| - 1] in {"", "."} then [] else [parts[|parts| - 1]])
  }

  /** The file name of a path ending in a named component is that
      component, whatever comes before it. */
  lemma FileNameLast(dir: string, name: string)
    requires '/' !in name && name != "" && name != "." && name != ".."
    ensures FileName(dir + "/" + name) == Some(name)
  {
    assert dir + "/" + name == dir + ['/'] + name;
    SplitLast(dir, '/', name);
    hide Split, Components;
    ComponentsNamedLast(Split(dir, '/'), name);
  }

  /** A named last part is the last component. */
  lemma ComponentsNamedLast(parts: seq<string>, name: string)
    requires forall k :: 0 <= k < |parts| ==> '/' !in parts[k]
    requires '/' !in name && name != "" && name != "."
    ensures Components(parts + [name]) == Components(parts) + [name]
  {
    assert (parts + [name])[..|parts|] == parts;
  }

  /** A path without `/` that names something is its own file name. */
  lemma FileNameBare(name: string)
    requires '/' !in name && name != "" && name != "." && name != ".."
    ensures FileName(name) == Some(name)
  {
    assert Split(name, '/') == [name];
    assert [name][..0] == [];
  }

  /** The index of the last `c` in `s`, if any. */
  function LastIndexOf(s: string, c: char): (r: Option<nat>)
    ensures r.Some? <==> c in s
    ensures r.Some? ==> r.value < |s| && s[r.value] == c && c !in s[r.value + 1..]
  {
    if s == [] then None
    else if s[|s| - 1] == c then Some(|s| - 1)
    else
      var r := LastIndexOf(s[..|s| - 1], c);
      assert r.Some? ==> s[r.value + 1..] == s[..|s| - 1][r.value + 1..] + [s[|s| - 1]];
      r
  }

  /** The split of a file name at its last dot, as `Path` does it: no split
      for `..`, for a name without a dot, or for a name whose only dot is its
      first character. */
  function SplitAtDot(file: string): (r: (string, Option<string>))
  {
    if file == ".." then (file, None)
    else match LastIndexOf(file, '.')
      case None => (file, None)
      case Some(i) => if i == 0 then (file, None) else (file[..i], Some(file[i + 1..]))
  }

  /** `Path::extension`. */
  function Extension(path: string): (r: Option<string>)
    ensures r.Some? ==> '.' !in r.value && '/' !in r.value
  {
    match FileName(path)
    case None => None
    case Some(file) => SplitAtDot(file).1
  }

  /** `Path::file_stem`. */
  function FileStem(path: string): (r: Option<string>)
    ensures r.Some? <==> FileName(path).Some?
  {
    match FileName(path)
    case None => None
    case Some(file) => Some(SplitAtDot(file).0)
  }

  /** A split file name is its stem, a dot and its extension. */
  lemma SplitAtDotParts(file: string)
    requires SplitAtDot(file).1.Some?
    ensures file == SplitAtDot(file).0 + "." + SplitAtDot(file).1.value
    ensures SplitAtDot(file).0 != ""
  {
    var i := LastIndexOf(file, '.').value;
    assert file == file[..i] + "." + file[i + 1..];
  }

  /** A path with an extension names a file that is its non-empty stem, a
      dot and the extension. */
  lemma StemDotExtension(path: string)
    requires Extension(path).Some?
    ensures FileName(path) == Some(FileStem(path).value + "." + Extension(path).value)
    ensures FileStem(path).value != ""
  {
    var file := FileName(path).value;
    assert Extension(path) == SplitAtDot(file).1 && FileStem(path) == Some(SplitAtDot(file).0);
    hide FileName, Extension, FileStem, SplitAtDot;
    SplitAtDotParts(file);
  }

  // ------------------------------------------------------------------
  // One uploaded object.

  /** What the handler does with one record. */
  datatype Upload = Upload(
    id: string, languageCode: string, mediaUri: string, outputBucket: string,
    outputKey: string, thumbnailKey: string, videoKey: string, title: string,
    subtitles: seq<string>)

  datatype RecordOutcome =
    | Panicked(reason: string)   // an `expect` failed
    | Skipped                    // not a video, or a name without a language
    | Started(upload: Upload)

  /** Videos are `mp4` or `mov` files, in any letter case. */
  predicate IsVideoExtension(ext: string)
  {
    ToLower(ext) == "mp4" || ToLower(ext) == "mov"
  }

  /** The outcome for the object `key` in `bucket`, with `id` as the new
      video's id. */
  function PlanRecord(bucket: Option<string>, key: Option<string>, id: string): RecordOutcome
  {
    if bucket.None? then Panicked("object bucket must be set")
    else if key.None? then Panicked("object key must be set")
    else
      var decoded := PercentDecode(key.value);
      match Extension(decoded)
      case None => Panicked("file extensions must be exist")
      case Some(ext) =>
        if ToLower(ext) != "mp4" && ToLower(ext) != "mov" then Skipped
        else
          var parts := Split(FileStem(decoded).value, '.');
          if |parts| < 2 then Skipped
          else
            Started(Upload(id, parts[1], UrlDecode("s3://" + bucket.value + "/" + key.value),
                           bucket.value, "transcription/" + id, "thumbnail/" + id + ".jpg",
                           UrlDecode(key.value), UrlDecode(parts[0]), []))
  }

  /** A record panics exactly when its bucket, its key or its extension is
      missing; a job is started exactly for a video whose stem has at least
      two dot-separated parts, under the drawn id, on the decoded object URI,
      with its output in the record's bucket under `transcription/<id>`, and
      the new video row starts with no subtitles. */
  lemma PlanRecordSpec(bucket: Option<string>, key: Option<string>, id: string)
    ensures var r := PlanRecord(bucket, key, id);
      && (r.Panicked? <==> bucket.None? || key.None? || Extension(PercentDecode(key.value)).None?)
      && ((bucket.Some? && key.Some? && Extension(PercentDecode(key.value)).Some?
           && IsVideoExtension(Extension(PercentDecode(key.value)).value)
           && |Split(FileStem(PercentDecode(key.value)).value, '.')| >= 2)
          ==> r.Started?)
      && (r.Started? ==> key.Some? && bucket.Some?
                         && Extension(PercentDecode(key.value)).Some?
                         && IsVideoExtension(Extension(PercentDecode(key.value)).value)
                         && |Split(FileStem(PercentDecode(key.value)).value, '.')| >= 2
                         && r.upload.mediaUri == UrlDecode("s3://" + bucket.value + "/" + key.value)
                         && r.upload.videoKey == UrlDecode(key.value)
                         && r.upload.subtitles == []
                         && '+' !in r.upload.title
                         && r.upload.id == id && r.upload.outputBucket == bucket.value
                         && r.upload.outputKey == "transcription/" + id
                         && r.upload.thumbnailKey == "thumbnail/" + id + ".jpg")
  {
    var r := PlanRecord(bucket, key, id);
    if r.Started? {
      var parts := Split(FileStem(PercentDecode(key.value)).value, '.');
      UrlDecodeSpec(parts[0]);
    }
  }

  /** A started job runs under the drawn id and writes to `transcription/<id>`. */
  lemma PlanRecordOutput(bucket: Option<string>, key: Option<string>, id: string)
    ensures PlanRecord(bucket, key, id).Started? ==>
      PlanRecord(bucket, key, id).upload.id == id
      && PlanRecord(bucket, key, id).upload.outputKey == "transcription/" + id
  {
  }

  /** The title and language are the first two dot-separated parts of the
      file stem; the language is not decoded again and keeps any `+`. */
  lemma StartedNames(bucket: string, key: string, id: string)
    requires PlanRecord(Some(bucket), Some(key), id).Started?
    ensures var u := PlanRecord(Some(bucket), Some(key), id).upload;
      var parts := Split(FileStem(PercentDecode(key)).value, '.');
      && |parts| >= 2 && u.title == UrlDecode(parts[0]) && u.languageCode == parts[1]
      && '.' !in u.languageCode
  {
  }

  // ------------------------------------------------------------------
  // The handler's loop over the records of one notification.

  /** The bucket and key of one notification record. */
  datatype ObjectRecord = ObjectRecord(bucket: Option<string>, key: Option<string>)

  /** The run after one more record: a panic ends it, a started job is
      appended, a skipped record changes nothing. */
  function Step(run: (seq<Upload>, Option<string>), outcome: RecordOutcome): (seq<Upload>, Option<string>)
  {
    if run.1.Some? then run
    else match outcome
      case Panicked(reason) => (run.0, Some(reason))
      case Skipped => run
      case Started(u) => (run.0 + [u], None)
  }

  /** The jobs started for `records`, in order, with `ids[k]` as the id drawn
      for record `k`, and the reason of the first panic, which ends the run. */
  function Handled(records: seq<ObjectRecord>, ids: seq<string>): (r: (seq<Upload>, Option<string>))
    requires |ids| == |records|
    ensures |r.0| <= |records|
    decreases |records|
  {
    if records == [] then ([], None)
    else
      var n := |records| - 1;
      Step(Handled(records[..n], ids[..n]), PlanRecord(records[n].bucket, records[n].key, ids[n]))
  }

  /** Starts a job for every video record in turn; a panic ends the run,
      leaving the jobs already started. `ids` stands for the fresh UUIDs. */
  method HandleRecords(records: seq<ObjectRecord>, ids: seq<string>)
    returns (started: seq<Upload>, panic: Option<string>)
    requires |ids| == |records|
    ensures (started, panic) == Handled(records, ids)
  {
    started, panic := [], None;
    var i := 0;
    while i < |records|
      invariant 0 <= i <= |records|
      invariant (started, None) == Handled(records[..i], ids[..i])
    {
      assert records[..i + 1][..i] == records[..i] && ids[..i + 1][..i] == ids[..i];
      var outcome := PlanRecord(records[i].bucket, records[i].key, ids[i]);
      assert Handled(records[..i + 1], ids[..i + 1]) == Step((started, None), outcome);
      hide Handled, PlanRecord;
      match outcome {
        case Panicked(reason) =>
          panic := Some(reason);
          HandledStops(records, ids, i + 1);
          return;
        case Skipped =>
        case Started(u) =>
          started := started + [u];
      }
      i := i + 1;
    }
    assert records[..i] == records && ids[..i] == ids;
  }

  /** Once a prefix has panicked, the rest of the records are never looked at. */
  lemma {:induction false} HandledStops(records: seq<ObjectRecord>, ids: seq<string>, k: nat)
    requires |ids| == |records| && k <= |records|
    requires Handled(records[..k], ids[..k]).1.Some?
    ensures Handled(records, ids) == Handled(records[..k], ids[..k])
    decreases |records| - k
  {
    hide PlanRecord;
    if k < |records| {
      var n := |records| - 1;
      assert records[..n][..k] == records[..k] && ids[..n][..k] == ids[..k];
      HandledStops(records[..n], ids[..n], k);
      assert Handled(records, ids) == Handled(records[..n], ids[..n]);
    } else {
      assert records[..k] == records && ids[..k] == ids;
    }
  }

  /** One record more either adds the job it starts or leaves the started
      jobs as they were. */
  lemma HandledStep(records: seq<ObjectRecord>, ids: seq<string>)
    requires |ids| == |records| && records != []
    ensures var n := |records| - 1;
      var before := Handled(records[..n], ids[..n]).0;
      var after := Handled(records, ids).0;
      after == before
      || (PlanRecord(records[n].bucket, records[n].key, ids[n]).Started?
          && after == before + [PlanRecord(records[n].bucket, records[n].key, ids[n]).upload])
  {
    hide PlanRecord;
  }

  /** Every started job carries one of the drawn ids and writes its
      transcription under that id. */
  lemma {:induction false} HandledIds(records: seq<ObjectRecord>, ids: seq<string>)
    requires |ids| == |records|
    ensures var started := Handled(records, ids).0;
      forall i :: 0 <= i < |started| ==>
        started[i].id in ids && started[i].outputKey == "transcription/" + started[i].id
    decreases |records|
  {
    hide PlanRecord, Handled;
    if records != [] {
      var n := |records| - 1;
      HandledIds(records[..n], ids[..n]);
      HandledStep(records, ids);
      PlanRecordOutput(records[n].bucket, records[n].key, ids[n]);
      var before := Handled(records[..n], ids[..n]).0;
      forall i | 0 <= i < |before|
        ensures before[i].id in ids
      {
        var k :| 0 <= k < n && ids[..n][k] == before[i].id;
        assert ids[k] == before[i].id;
      }
    }
  }

  /** With distinct ids, the jobs write their transcriptions to distinct
      keys. */
  lemma {:induction false} DistinctOutputKeys(records: seq<ObjectRecord>, ids: seq<string>)
    requires |ids| == |records|
    requires forall i, j :: 0 <= i < j < |ids| ==> ids[i] != ids[j]
    ensures var started := Handled(records, ids).0;
      forall i, j :: 0 <= i < j < |started| ==> started[i].outputKey != started[j].outputKey
    decreases |records|
  {
    hide PlanRecord, Handled;
    if records != [] {
      var n := |records| - 1;
      DistinctOutputKeys(records[..n], ids[..n]);
      HandledIds(records[..n], ids[..n]);
      HandledStep(records, ids);
      PlanRecordOutput(records[n].bucket, records[n].key, ids[n]);
      var before := Handled(records[..n], ids[..n]).0;
      var key := "transcription/" + ids[n];
      forall i | 0 <= i < |before|
        ensures before[i].outputKey != key
      {
        var k :| 0 <= k < n && ids[..n][k] == before[i].id;
        assert ids[k] != ids[n];
        assert ("transcription/" + before[i].id)[14..] == before[i].id;
        assert key[14..] == ids[n];
      }
    }
  }
}
