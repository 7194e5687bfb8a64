/** Per-language search index setup: the field options of the two schemas,
    the choice between them, and what opening an index for a language does
    (its directory and the tokenizers it registers). */
module Tantivy {
  import opened Wrappers

  // ------------------------------------------------------------------
  // Field options, as the search library defines them.

  datatype IndexRecordOption = Basic | WithFreqs | WithFreqsAndPositions

  /** How a text field is indexed: by which tokenizer, recording what. */
  datatype TextFieldIndexing = TextFieldIndexing(tokenizer: string, record: IndexRecordOption)

  /** Options of a text field: indexed (and how) or not, stored or not. */
  datatype TextOptions = TextOptions(indexing: Option<TextFieldIndexing>, stored: bool)

  /** `TextFieldIndexing::default()`. */
  const DefaultIndexing := TextFieldIndexing("default", Basic)
  /** `TextOptions::default()`: neither indexed nor stored. */
  const DefaultOptions := TextOptions(None, false)
  /** `STRING`: indexed untokenized, as one term. */
  const STRING := TextOptions(Some(TextFieldIndexing("raw", Basic)), false)
  /** `TEXT`: tokenized by the default analyzer, with frequencies and positions. */
  const TEXT := TextOptions(Some(TextFieldIndexing("default", WithFreqsAndPositions)), false)
  /** `STORED`: kept in the document store. */
  const STORED := TextOptions(None, true)

  /** `a | b`: the first indexing present, stored if either is. */
  function Union(a: TextOptions, b: TextOptions): (r: TextOptions)
    ensures r.stored <==> a.stored || b.stored
    ensures r.indexing.Some? <==> a.indexing.Some? || b.indexing.Some?
    ensures a.indexing.Some? ==> r.indexing == a.indexing
    ensures a.indexing.None? ==> r.indexing == b.indexing
  {
    TextOptions(if a.indexing.Some? then a.indexing else b.indexing, a.stored || b.stored)
  }

  /** `ko_text_option()`: indexed by the `lang_ko` tokenizer with
      frequencies and positions, not stored by itself. */
  function KoTextOption(): (r: TextOptions)
    ensures r.indexing == Some(TextFieldIndexing("lang_ko", WithFreqsAndPositions))
    ensures !r.stored
  {
    DefaultOptions.(indexing := Some(DefaultIndexing.(tokenizer := "lang_ko").(record := WithFreqsAndPositions)))
  }

  // ------------------------------------------------------------------
  // Schemas.

  datatype Field = Field(name: string, options: TextOptions)
  datatype Schema = Schema(fields: seq<Field>)

  /** The position of the first field called `name`, as `get_field` finds it. */
  function GetField(schema: Schema, name: string): (r: Option<nat>)
    ensures r.Some? ==> r.value < |schema.fields| && schema.fields[r.value].name == name
    ensures r.Some? ==> forall j :: 0 <= j < r.value ==> schema.fields[j].name != name
    ensures r.None? <==> forall j :: 0 <= j < |schema.fields| ==> schema.fields[j].name != name
    decreases |schema.fields|
  {
    if schema.fields == [] then None
    else if schema.fields[0].name == name then Some(0)
    else match GetField(Schema(schema.fields[1..]), name)
      case None => None
      case Some(i) => Some(i + 1)
  }

  /** Accumulates fields in declaration order. */
  class SchemaBuilder {
    var fields: seq<Field>

    constructor ()
      ensures fields == []
    {
      fields := [];
    }

    method AddTextField(name: string, options: TextOptions)
      modifies this
      ensures fields == old(fields) + [Field(name, options)]
    {
      fields := fields + [Field(name, options)];
    }

    method Build() returns (schema: Schema)
      ensures schema.fields == fields
    {
      schema := Schema(fields);
    }
  }

  /** The three fields every index has, with `body` analysed by `body`. */
  function SchemaWithBody(body: TextOptions): Schema
  {
    Schema([Field("video_id", Union(STRING, STORED)), Field("time", Union(STRING, STORED)),
            Field("body", Union(body, STORED))])
  }

  /** `tantivy_en_schema()`. */
  method EnSchema() returns (schema: Schema)
    ensures schema == SchemaWithBody(TEXT)
  {
    var builder := new SchemaBuilder();
    builder.AddTextField("video_id", Union(STRING, STORED));
    builder.AddTextField("time", Union(STRING, STORED));
    builder.AddTextField("body", Union(TEXT, STORED));
    schema := builder.Build();
  }

  /** `tantivy_ko_schema()`. */
  method KoSchema() returns (schema: Schema)
    ensures schema == SchemaWithBody(KoTextOption())
  {
    var builder := new SchemaBuilder();
    builder.AddTextField("video_id", Union(STRING, STORED));
    builder.AddTextField("time", Union(STRING, STORED));
    builder.AddTextField("body", Union(KoTextOption(), STORED));
    schema := builder.Build();
  }

  /** The schema of the index for `lang`: the Korean one only for exactly `ko`. */
  function SchemaOf(lang: string): Schema
  {
    if lang == "ko" then SchemaWithBody(KoTextOption()) else SchemaWithBody(TEXT)
  }

  /** `tantivy_schema(lang)`. */
  method TantivySchema(lang: string) returns (schema: Schema)
    ensures schema == SchemaOf(lang)
  {
    if lang == "ko" {
      schema := KoSchema();
    } else {
      schema := EnSchema();
    }
  }

  /** The tokenizer that analyses the `body` field. */
  function BodyTokenizer(lang: string): (r: string)
    ensures SchemaOf(lang).fields[2].options.indexing == Some(TextFieldIndexing(r, WithFreqsAndPositions))
  {
    if lang == "ko" then "lang_ko" else "default"
  }

  /** Both schemas have exactly `video_id`, `time` and `body`, in that order,
      all stored; the first two are single untokenized terms; only the body
      is tokenized, by `lang_ko` exactly when the language is `ko`. */
  lemma SchemaShape(lang: string)
    ensures var s := SchemaOf(lang);
      && |s.fields| == 3
      && s.fields[0].name == "video_id" && s.fields[1].name == "time" && s.fields[2].name == "body"
      && (forall i :: 0 <= i < 3 ==> s.fields[i].options.stored)
      && s.fields[0].options == s.fields[1].options == TextOptions(Some(TextFieldIndexing("raw", Basic)), true)
      && (BodyTokenizer(lang) == "lang_ko" <==> lang == "ko")
  {
  }

  /** The handler's three `get_field(..).unwrap()` calls always succeed. */
  lemma FieldsPresent(lang: string)
    ensures GetField(SchemaOf(lang), "video_id") == Some(0)
    ensures GetField(SchemaOf(lang), "time") == Some(1)
    ensures GetField(SchemaOf(lang), "body") == Some(2)
  {
    var s := SchemaOf(lang);
    assert s.fields[0].name == "video_id" && s.fields[1].name == "time" && s.fields[2].name == "body";
    assert "time" != "video_id" && "body" != "video_id" && "body" != "time";
  }

  // ------------------------------------------------------------------
  // Opening the index for a language.

  /** The tokenizers every index knows without registration. */
  const BuiltinTokenizers: set<string> := {"default", "raw", "en_stem", "whitespace"}

  /** `format!("{}/{}", mount, lang)`. */
  function IndexPath(mount: string, lang: string): (path: string)
    ensures |path| == |mount| + 1 + |lang|
    ensures path[..|mount|] == mount && path[|mount|] == '/' && path[|mount| + 1..] == lang
  {
    mount + "/" + lang
  }

  /** Distinct languages (under one mount) get distinct path strings. */
  lemma IndexPathInjective(mount: string, a: string, b: string)
    requires IndexPath(mount, a) == IndexPath(mount, b)
    ensures a == b
  {
    assert a == IndexPath(mount, a)[|mount| + 1..];
  }

  /** An opened index: its directory, its schema and the tokenizers it can
      use by name. */
  class Index {
    const path: string
    const schema: Schema
    var tokenizers: set<string>

    /** `Index::open_or_create` over the directory at `path`. */
    constructor OpenOrCreate(path: string, schema: Schema)
      ensures this.path == path && this.schema == schema && tokenizers == BuiltinTokenizers
    {
      this.path := path;
      this.schema := schema;
      tokenizers := BuiltinTokenizers;
    }

    /** `tokenizers().register(name, ..)`. */
    method Register(name: string)
      modifies this
      ensures tokenizers == old(tokenizers) + {name}
    {
      tokenizers := tokenizers + {name};
    }
  }

  /** The tokenizers the index for `lang` has once opened. */
  function TokenizersOf(lang: string): set<string>
  {
    if lang == "ko" then BuiltinTokenizers + {"lang_ko"} else BuiltinTokenizers
  }

  /** `tantivy_index(mount, lang)`. */
  method OpenIndex(mount: string, lang: string) returns (index: Index)
    ensures fresh(index)
    ensures index.path == IndexPath(mount, lang) && index.schema == SchemaOf(lang)
    ensures index.tokenizers == TokenizersOf(lang)
  {
    var schema := TantivySchema(lang);
    var path := mount + "/" + lang;
    index := new Index.OpenOrCreate(path, schema);
    if lang == "ko" {
      index.Register("lang_ko");
    }
  }

  /** `lang_ko` is registered exactly for `ko`, and the tokenizer the body
      field names is always one the opened index has. */
  lemma TokenizersAgree(lang: string)
    ensures "lang_ko" in TokenizersOf(lang) <==> lang == "ko"
    ensures BodyTokenizer(lang) in TokenizersOf(lang)
  {
    assert "lang_ko" !in BuiltinTokenizers;
  }
}
