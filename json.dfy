/**
 * The text form of the stored values. The adapters serialise a value before
 * writing it and parse the text they read back; this module gives that pair a
 * concrete JSON-shaped definition for the two value types the core stores (a
 * whole project and a bare string), and proves that parsing undoes
 * serialising.
 *
 * Every encoder takes the text that follows the value (`rest`) so that a
 * parser can be proved to return exactly that text as its remainder.
 */
module Json {

  import opened Wrappers
  import opened Entities

  /** A parsed value and the text left after it. */
  type Parsed<T> = Option<(T, string)>

  /** The parser consumes at least one character when it succeeds. */
  ghost predicate Shrinks<T>(parse: string -> Parsed<T>, t: string) {
    parse(t).Some? ==> |parse(t).value.1| < |t|
  }

  /**
   * `parse` reads back whatever `enc` writes, whatever text follows it, and
   * `enc` writes an object (its first character is an opening brace).
   */
  ghost predicate Inverse<T(!new)>(enc: (T, string) -> string, parse: string -> Parsed<T>) {
    forall x, rest ::
      parse(enc(x, rest)) == Some((x, rest)) && |enc(x, rest)| > 0 && enc(x, rest)[0] == '{'
  }

  // ---------------------------------------------------------------- literals

  function ParseLiteral(lit: string, t: string): (r: Option<string>)
    ensures r.Some? ==> t == lit + r.value
    ensures r.Some? ==> |r.value| == |t| - |lit|
  {
    if |lit| <= |t| && t[..|lit|] == lit then Some(t[|lit|..]) else None
  }

  lemma ParseLiteralOf(lit: string, rest: string)
    ensures ParseLiteral(lit, lit + rest) == Some(rest)
  {
    assert (lit + rest)[..|lit|] == lit;
    assert (lit + rest)[|lit|..] == rest;
  }

  // ----------------------------------------------------------------- strings

  /** A quote and a backslash are escaped with a backslash. */
  function EscapeChar(c: char): string {
    if c == '"' || c == '\\' then ['\\', c] else [c]
  }

  function EncodeChars(s: string, rest: string): string
    decreases |s|
  {
    if s == [] then rest else EscapeChar(s[0]) + EncodeChars(s[1..], rest)
  }

  /** A quoted string literal holding `s`, followed by `rest`. */
  function EncodeString(s: string, rest: string): (r: string)
    ensures |r| > 0 && r[0] == '"'
  {
    "\"" + EncodeChars(s, "\"" + rest)
  }

  /** Reads escaped characters up to and including the closing quote. */
  function ParseChars(t: string): (r: Parsed<string>)
    ensures r.Some? ==> |r.value.1| < |t|
    decreases |t|
  {
    if |t| == 0 then None
    else if t[0] == '"' then Some(([], t[1..]))
    else if t[0] == '\\' then
      if |t| >= 2 && (t[1] == '"' || t[1] == '\\') then
        match ParseChars(t[2..])
        case None => None
        case Some((s, k)) => Some(([t[1]] + s, k))
      else None
    else
      match ParseChars(t[1..])
      case None => None
      case Some((s, k)) => Some(([t[0]] + s, k))
  }

  function ParseString(t: string): (r: Parsed<string>)
    ensures r.Some? ==> |r.value.1| < |t|
  {
    if |t| > 0 && t[0] == '"' then ParseChars(t[1..]) else None
  }

  lemma {:induction false} ParseCharsOf(s: string, rest: string)
    ensures ParseChars(EncodeChars(s, "\"" + rest)) == Some((s, rest))
    decreases |s|
  {
    if s == [] {
      assert ("\"" + rest)[1..] == rest;
    } else {
      ParseCharsOf(s[1..], rest);
      var tail := EncodeChars(s[1..], "\"" + rest);
      if s[0] == '"' || s[0] == '\\' {
        assert (['\\', s[0]] + tail)[2..] == tail;
      } else {
        assert ([s[0]] + tail)[1..] == tail;
      }
      assert [s[0]] + s[1..] == s;
    }
  }

  lemma ParseStringOf(s: string, rest: string)
    ensures ParseString(EncodeString(s, rest)) == Some((s, rest))
  {
    ParseCharsOf(s, rest);
    assert EncodeString(s, rest)[1..] == EncodeChars(s, "\"" + rest);
  }

  // ---------------------------------------------------------------- booleans

  function EncodeBool(b: bool, rest: string): string {
    (if b then "true" else "false") + rest
  }

  function ParseBool(t: string): (r: Parsed<bool>)
    ensures r.Some? ==> |r.value.1| < |t|
  {
    match ParseLiteral("true", t)
    case Some(k) => Some((true, k))
    case None =>
      match ParseLiteral("false", t)
      case Some(k) => Some((false, k))
      case None => None
  }

  lemma ParseBoolOf(b: bool, rest: string)
    ensures ParseBool(EncodeBool(b, rest)) == Some((b, rest))
  {
    if b {
      ParseLiteralOf("true", rest);
    } else {
      ParseLiteralOf("false", rest);
      assert ("false" + rest)[..4] != "true" by {
        assert ("false" + rest)[0] == 'f';
      }
    }
  }

  // ----------------------------------------------------------------- methods

  function EncodeMethod(m: Method, rest: string): string {
    EncodeString(MethodName(m), rest)
  }

  function ParseMethod(t: string): (r: Parsed<Method>)
    ensures r.Some? ==> |r.value.1| < |t|
  {
    var s :- ParseString(t);
    var m :- MethodFromName(s.0);
    Some((m, s.1))
  }

  lemma ParseMethodOf(m: Method, rest: string)
    ensures ParseMethod(EncodeMethod(m, rest)) == Some((m, rest))
  {
    ParseStringOf(MethodName(m), rest);
    MethodNameRoundTrip(m);
  }

  // ------------------------------------------------------------------- lists

  /** `[`, the items separated by `,`, `]`, then `rest`. */
  function EncodeList<T>(xs: seq<T>, item: (T, string) -> string, rest: string): string {
    "[" + (if xs == [] then "]" + rest else EncodeItems(xs, item, rest))
  }

  function EncodeItems<T>(xs: seq<T>, item: (T, string) -> string, rest: string): string
    requires xs != []
    decreases |xs|
  {
    item(xs[0], if |xs| == 1 then "]" + rest else "," + EncodeItems(xs[1..], item, rest))
  }

  function ParseList<T>(t: string, item: string -> Parsed<T>): (r: Parsed<seq<T>>)
    requires forall s :: Shrinks(item, s)
    ensures r.Some? ==> |r.value.1| < |t|
  {
    var k :- ParseLiteral("[", t);
    if |k| > 0 && k[0] == ']' then Some(([], k[1..])) else ParseItems(k, item)
  }

  function ParseItems<T>(t: string, item: string -> Parsed<T>): (r: Parsed<seq<T>>)
    requires forall s :: Shrinks(item, s)
    ensures r.Some? ==> |r.value.1| < |t|
    decreases |t|
  {
    var p :- item(t);
    assert Shrinks(item, t);
    var k := p.1;
    if |k| > 0 && k[0] == ',' then
      match ParseItems(k[1..], item)
      case None => None
      case Some((xs, k')) => Some(([p.0] + xs, k'))
    else if |k| > 0 && k[0] == ']' then Some(([p.0], k[1..]))
    else None
  }

  lemma {:induction false} ParseItemsOf<T(!new)>(
    xs: seq<T>, enc: (T, string) -> string, parse: string -> Parsed<T>, rest: string)
    requires xs != []
    requires forall s :: Shrinks(parse, s)
    requires Inverse(enc, parse)
    ensures ParseItems(EncodeItems(xs, enc, rest), parse) == Some((xs, rest))
    decreases |xs|
  {
    var tail := if |xs| == 1 then "]" + rest else "," + EncodeItems(xs[1..], enc, rest);
    assert parse(enc(xs[0], tail)) == Some((xs[0], tail));
    if |xs| == 1 {
      assert tail[0] == ']' && tail[1..] == rest;
      assert xs == [xs[0]];
    } else {
      ParseItemsOf(xs[1..], enc, parse, rest);
      assert tail[1..] == EncodeItems(xs[1..], enc, rest);
      assert [xs[0]] + xs[1..] == xs;
    }
  }

  lemma ParseListOf<T(!new)>(
    xs: seq<T>, enc: (T, string) -> string, parse: string -> Parsed<T>, rest: string)
    requires forall s :: Shrinks(parse, s)
    requires Inverse(enc, parse)
    ensures ParseList(EncodeList(xs, enc, rest), parse) == Some((xs, rest))
  {
    var body := if xs == [] then "]" + rest else EncodeItems(xs, enc, rest);
    ParseLiteralOf("[", body);
    if xs == [] {
      assert body[1..] == rest;
    } else {
      ParseItemsOf(xs, enc, parse, rest);
    }
  }

  // ----------------------------------------------------------------- headers

  function EncodeHeader(h: Header, rest: string): string {
    "{\"key\":" + EncodeString(h.key,
    ",\"value\":" + EncodeString(h.value,
    ",\"isEnabled\":" + EncodeBool(h.isEnabled,
    "}" + rest)))
  }

  function ParseHeader(t: string): (r: Parsed<Header>)
    ensures r.Some? ==> |r.value.1| < |t|
  {
    var t1 :- ParseLiteral("{\"key\":", t);
    var key :- ParseString(t1);
    var t2 :- ParseLiteral(",\"value\":", key.1);
    var value :- ParseString(t2);
    var t3 :- ParseLiteral(",\"isEnabled\":", value.1);
    var enabled :- ParseBool(t3);
    var t4 :- ParseLiteral("}", enabled.1);
    Some((Header(key.0, value.0, enabled.0), t4))
  }

  lemma ParseHeaderOf(h: Header, rest: string)
    ensures ParseHeader(EncodeHeader(h, rest)) == Some((h, rest))
  {
    var s3 := "}" + rest;
    var s2 := ",\"isEnabled\":" + EncodeBool(h.isEnabled, s3);
    var s1 := ",\"value\":" + EncodeString(h.value, s2);
    ParseLiteralOf("{\"key\":", EncodeString(h.key, s1));
    ParseStringOf(h.key, s1);
    ParseLiteralOf(",\"value\":", EncodeString(h.value, s2));
    ParseStringOf(h.value, s2);
    ParseLiteralOf(",\"isEnabled\":", EncodeBool(h.isEnabled, s3));
    ParseBoolOf(h.isEnabled, s3);
    ParseLiteralOf("}", rest);
  }

  lemma HeaderCodec()
    ensures forall s :: Shrinks(ParseHeader, s)
    ensures Inverse(EncodeHeader, ParseHeader)
  {
    forall h, rest ensures ParseHeader(EncodeHeader(h, rest)) == Some((h, rest)) {
      ParseHeaderOf(h, rest);
    }
  }

  // ---------------------------------------------------------------- sections

  function EncodeSection(s: Section, rest: string): string {
    "{\"uuid\":" + EncodeString(s.uuid,
    ",\"name\":" + EncodeString(s.name,
    "}" + rest))
  }

  function ParseSection(t: string): (r: Parsed<Section>)
    ensures r.Some? ==> |r.value.1| < |t|
  {
    var t1 :- ParseLiteral("{\"uuid\":", t);
    var uuid :- ParseString(t1);
    var t2 :- ParseLiteral(",\"name\":", uuid.1);
    var name :- ParseString(t2);
    var t3 :- ParseLiteral("}", name.1);
    Some((Section(uuid.0, name.0), t3))
  }

  lemma ParseSectionOf(s: Section, rest: string)
    ensures ParseSection(EncodeSection(s, rest)) == Some((s, rest))
  {
    var s2 := "}" + rest;
    var s1 := ",\"name\":" + EncodeString(s.name, s2);
    ParseLiteralOf("{\"uuid\":", EncodeString(s.uuid, s1));
    ParseStringOf(s.uuid, s1);
    ParseLiteralOf(",\"name\":", EncodeString(s.name, s2));
    ParseStringOf(s.name, s2);
    ParseLiteralOf("}", rest);
  }

  lemma SectionCodec()
    ensures forall s :: Shrinks(ParseSection, s)
    ensures Inverse(EncodeSection, ParseSection)
  {
    forall x, rest ensures ParseSection(EncodeSection(x, rest)) == Some((x, rest)) {
      ParseSectionOf(x, rest);
    }
  }

  // ----------------------------------------------------------- request specs

  function EncodeSpec(s: RequestSpec, rest: string): string {
    "{\"uuid\":" + EncodeString(s.uuid,
    ",\"url\":" + EncodeString(s.url,
    ",\"method\":" + EncodeMethod(s.httpMethod,
    ",\"headers\":" + EncodeList(s.headers, EncodeHeader,
    ",\"body\":" + EncodeString(s.body,
    "}" + rest)))))
  }

  function ParseSpec(t: string): (r: Parsed<RequestSpec>)
    ensures r.Some? ==> |r.value.1| < |t|
  {
    HeaderCodec();
    var t1 :- ParseLiteral("{\"uuid\":", t);
    var uuid :- ParseString(t1);
    var t2 :- ParseLiteral(",\"url\":", uuid.1);
    var url :- ParseString(t2);
    var t3 :- ParseLiteral(",\"method\":", url.1);
    var m :- ParseMethod(t3);
    var t4 :- ParseLiteral(",\"headers\":", m.1);
    var headers :- ParseList(t4, ParseHeader);
    var t5 :- ParseLiteral(",\"body\":", headers.1);
    var body :- ParseString(t5);
    var t6 :- ParseLiteral("}", body.1);
    Some((RequestSpec(uuid.0, url.0, m.0, headers.0, body.0), t6))
  }

  lemma ParseSpecOf(s: RequestSpec, rest: string)
    ensures ParseSpec(EncodeSpec(s, rest)) == Some((s, rest))
  {
    HeaderCodec();
    var s5 := "}" + rest;
    var s4 := ",\"body\":" + EncodeString(s.body, s5);
    var s3 := ",\"headers\":" + EncodeList(s.headers, EncodeHeader, s4);
    var s2 := ",\"method\":" + EncodeMethod(s.httpMethod, s3);
    var s1 := ",\"url\":" + EncodeString(s.url, s2);
    ParseLiteralOf("{\"uuid\":", EncodeString(s.uuid, s1));
    ParseStringOf(s.uuid, s1);
    ParseLiteralOf(",\"url\":", EncodeString(s.url, s2));
    ParseStringOf(s.url, s2);
    ParseLiteralOf(",\"method\":", EncodeMethod(s.httpMethod, s3));
    ParseMethodOf(s.httpMethod, s3);
    ParseLiteralOf(",\"headers\":", EncodeList(s.headers, EncodeHeader, s4));
    ParseListOf(s.headers, EncodeHeader, ParseHeader, s4);
    ParseLiteralOf(",\"body\":", EncodeString(s.body, s5));
    ParseStringOf(s.body, s5);
    ParseLiteralOf("}", rest);
  }

  lemma SpecCodec()
    ensures forall s :: Shrinks(ParseSpec, s)
    ensures Inverse(EncodeSpec, ParseSpec)
  {
    forall x, rest ensures ParseSpec(EncodeSpec(x, rest)) == Some((x, rest)) {
      ParseSpecOf(x, rest);
    }
  }

  // ---------------------------------------------------------------- projects

  function EncodeProject(p: Project, rest: string): string {
    "{\"uuid\":" + EncodeString(p.uuid,
    ",\"name\":" + EncodeString(p.name,
    ",\"sections\":" + EncodeList(p.sections, EncodeSection,
    ",\"specs\":" + EncodeList(p.specs, EncodeSpec,
    "}" + rest))))
  }

  function ParseProject(t: string): (r: Parsed<Project>)
    ensures r.Some? ==> |r.value.1| < |t|
  {
    SectionCodec();
    SpecCodec();
    var t1 :- ParseLiteral("{\"uuid\":", t);
    var uuid :- ParseString(t1);
    var t2 :- ParseLiteral(",\"name\":", uuid.1);
    var name :- ParseString(t2);
    var t3 :- ParseLiteral(",\"sections\":", name.1);
    var sections :- ParseList(t3, ParseSection);
    var t4 :- ParseLiteral(",\"specs\":", sections.1);
    var specs :- ParseList(t4, ParseSpec);
    var t5 :- ParseLiteral("}", specs.1);
    Some((Project(uuid.0, name.0, sections.0, specs.0), t5))
  }

  lemma ParseProjectOf(p: Project, rest: string)
    ensures ParseProject(EncodeProject(p, rest)) == Some((p, rest))
  {
    SectionCodec();
    SpecCodec();
    var s4 := "}" + rest;
    var s3 := ",\"specs\":" + EncodeList(p.specs, EncodeSpec, s4);
    var s2 := ",\"sections\":" + EncodeList(p.sections, EncodeSection, s3);
    var s1 := ",\"name\":" + EncodeString(p.name, s2);
    ParseLiteralOf("{\"uuid\":", EncodeString(p.uuid, s1));
    ParseStringOf(p.uuid, s1);
    ParseLiteralOf(",\"name\":", EncodeString(p.name, s2));
    ParseStringOf(p.name, s2);
    ParseLiteralOf(",\"sections\":", EncodeList(p.sections, EncodeSection, s3));
    ParseListOf(p.sections, EncodeSection, ParseSection, s3);
    ParseLiteralOf(",\"specs\":", EncodeList(p.specs, EncodeSpec, s4));
    ParseListOf(p.specs, EncodeSpec, ParseSpec, s4);
    ParseLiteralOf("}", rest);
  }

  // --------------------------------------------- only serialised text parses

  /** Whatever `parse` accepts is exactly what `enc` writes for the value and the text it leaves. */
  ghost predicate Canonical<T(!new)>(enc: (T, string) -> string, parse: string -> Parsed<T>) {
    forall t :: parse(t).Some? ==> t == enc(parse(t).value.0, parse(t).value.1)
  }

  lemma {:induction false} ParseCharsCanonical(t: string)
    ensures ParseChars(t).Some? ==> t == EncodeChars(ParseChars(t).value.0, "\"" + ParseChars(t).value.1)
    decreases |t|
  {
    if |t| > 0 && ParseChars(t).Some? {
      var s := ParseChars(t).value.0;
      var k := ParseChars(t).value.1;
      if t[0] == '"' {
        assert s == [] && k == t[1..];
        assert t == "\"" + t[1..];
      } else if t[0] == '\\' {
        ParseCharsCanonical(t[2..]);
        var s' := ParseChars(t[2..]).value.0;
        assert s == [t[1]] + s' && s[1..] == s';
        assert EscapeChar(t[1]) == ['\\', t[1]];
        assert t == t[..2] + t[2..];
      } else {
        ParseCharsCanonical(t[1..]);
        var s' := ParseChars(t[1..]).value.0;
        assert s == [t[0]] + s' && s[1..] == s';
        assert t == [t[0]] + t[1..];
      }
    }
  }

  lemma ParseStringCanonical(t: string)
    ensures ParseString(t).Some? ==> t == EncodeString(ParseString(t).value.0, ParseString(t).value.1)
  {
    if ParseString(t).Some? {
      ParseCharsCanonical(t[1..]);
      assert t == "\"" + t[1..];
    }
  }

  lemma ParseBoolCanonical(t: string)
    ensures ParseBool(t).Some? ==> t == EncodeBool(ParseBool(t).value.0, ParseBool(t).value.1)
  {
  }

  lemma ParseMethodCanonical(t: string)
    ensures ParseMethod(t).Some? ==> t == EncodeMethod(ParseMethod(t).value.0, ParseMethod(t).value.1)
  {
    ParseStringCanonical(t);
  }

  lemma {:induction false} ParseItemsCanonical<T(!new)>(t: string, enc: (T, string) -> string, parse: string -> Parsed<T>)
    requires forall s :: Shrinks(parse, s)
    requires Canonical(enc, parse)
    ensures ParseItems(t, parse).Some? ==>
      ParseItems(t, parse).value.0 != [] && t == EncodeItems(ParseItems(t, parse).value.0, enc, ParseItems(t, parse).value.1)
    decreases |t|
  {
    if ParseItems(t, parse).Some? {
      var x := parse(t).value.0;
      var k := parse(t).value.1;
      assert t == enc(x, k);
      assert Shrinks(parse, t);
      var xs := ParseItems(t, parse).value.0;
      var k' := ParseItems(t, parse).value.1;
      if |k| > 0 && k[0] == ',' {
        ParseItemsCanonical(k[1..], enc, parse);
        var ys := ParseItems(k[1..], parse).value.0;
        assert xs == [x] + ys && xs[1..] == ys && |xs| > 1;
        assert k == "," + k[1..];
      } else {
        assert xs == [x] && k == "]" + k';
      }
    }
  }

  lemma ParseListCanonical<T(!new)>(t: string, enc: (T, string) -> string, parse: string -> Parsed<T>)
    requires forall s :: Shrinks(parse, s)
    requires Canonical(enc, parse)
    ensures ParseList(t, parse).Some? ==>
      t == EncodeList(ParseList(t, parse).value.0, enc, ParseList(t, parse).value.1)
  {
    if ParseList(t, parse).Some? {
      var k := t[1..];
      assert t == "[" + k;
      if |k| > 0 && k[0] == ']' {
        assert k == "]" + k[1..];
      } else {
        ParseItemsCanonical(k, enc, parse);
      }
    }
  }

  lemma ParseHeaderCanonical(t: string)
    ensures ParseHeader(t).Some? ==> t == EncodeHeader(ParseHeader(t).value.0, ParseHeader(t).value.1)
  {
    if ParseHeader(t).Some? {
      var t1 := ParseLiteral("{\"key\":", t).value;
      ParseStringCanonical(t1);
      var t2 := ParseLiteral(",\"value\":", ParseString(t1).value.1).value;
      ParseStringCanonical(t2);
      var t3 := ParseLiteral(",\"isEnabled\":", ParseString(t2).value.1).value;
      ParseBoolCanonical(t3);
    }
  }

  lemma HeaderCanonical()
    ensures Canonical(EncodeHeader, ParseHeader)
  {
    forall t ensures ParseHeader(t).Some? ==> t == EncodeHeader(ParseHeader(t).value.0, ParseHeader(t).value.1) {
      ParseHeaderCanonical(t);
    }
  }

  lemma ParseSectionCanonical(t: string)
    ensures ParseSection(t).Some? ==> t == EncodeSection(ParseSection(t).value.0, ParseSection(t).value.1)
  {
    if ParseSection(t).Some? {
      var t1 := ParseLiteral("{\"uuid\":", t).value;
      ParseStringCanonical(t1);
      var t2 := ParseLiteral(",\"name\":", ParseString(t1).value.1).value;
      ParseStringCanonical(t2);
    }
  }

  lemma SectionCanonical()
    ensures Canonical(EncodeSection, ParseSection)
  {
    forall t ensures ParseSection(t).Some? ==> t == EncodeSection(ParseSection(t).value.0, ParseSection(t).value.1) {
      ParseSectionCanonical(t);
    }
  }

  lemma ParseSpecCanonical(t: string)
    ensures ParseSpec(t).Some? ==> t == EncodeSpec(ParseSpec(t).value.0, ParseSpec(t).value.1)
  {
    HeaderCodec();
    HeaderCanonical();
    if ParseSpec(t).Some? {
      var t1 := ParseLiteral("{\"uuid\":", t).value;
      var uuid := ParseString(t1).value;
      var t2 := ParseLiteral(",\"url\":", uuid.1).value;
      var url := ParseString(t2).value;
      var t3 := ParseLiteral(",\"method\":", url.1).value;
      var m := ParseMethod(t3).value;
      var t4 := ParseLiteral(",\"headers\":", m.1).value;
      var headers := ParseList(t4, ParseHeader).value;
      var t5 := ParseLiteral(",\"body\":", headers.1).value;
      var body := ParseString(t5).value;
      var t6 := ParseLiteral("}", body.1).value;
      assert ParseSpec(t) == Some((RequestSpec(uuid.0, url.0, m.0, headers.0, body.0), t6));
      ParseStringCanonical(t1);
      ParseStringCanonical(t2);
      ParseMethodCanonical(t3);
      ParseListCanonical(t4, EncodeHeader, ParseHeader);
      ParseStringCanonical(t5);
    }
  }

  lemma SpecCanonical()
    ensures Canonical(EncodeSpec, ParseSpec)
  {
    forall t ensures ParseSpec(t).Some? ==> t == EncodeSpec(ParseSpec(t).value.0, ParseSpec(t).value.1) {
      ParseSpecCanonical(t);
    }
  }

  lemma ParseProjectCanonical(t: string)
    ensures ParseProject(t).Some? ==> t == EncodeProject(ParseProject(t).value.0, ParseProject(t).value.1)
  {
    SectionCodec();
    SpecCodec();
    if ParseProject(t).Some? {
      var t1 := ParseLiteral("{\"uuid\":", t).value;
      var uuid := ParseString(t1).value;
      var t2 := ParseLiteral(",\"name\":", uuid.1).value;
      var name := ParseString(t2).value;
      var t3 := ParseLiteral(",\"sections\":", name.1).value;
      var sections := ParseList(t3, ParseSection).value;
      var t4 := ParseLiteral(",\"specs\":", sections.1).value;
      var specs := ParseList(t4, ParseSpec).value;
      var t5 := ParseLiteral("}", specs.1).value;
      assert ParseProject(t) == Some((Project(uuid.0, name.0, sections.0, specs.0), t5));
      SectionCanonical();
      SpecCanonical();
      ParseStringCanonical(t1);
      ParseStringCanonical(t2);
      ParseListCanonical(t3, EncodeSection, ParseSection);
      ParseListCanonical(t4, EncodeSpec, ParseSpec);
    }
  }

  // ------------------------------------------------------------------ codecs

  /** A serialise/parse pair for the values of one file. */
  datatype Codec<!T> = Codec(encode: T -> string, decode: string -> Option<T>)

  /** Parsing undoes serialising, and a serialised value is never empty text. */
  ghost predicate Lawful<T(!new)>(c: Codec<T>) {
    forall x :: c.decode(c.encode(x)) == Some(x) && c.encode(x) != ""
  }

  /** The whole text must be one value. */
  function Whole<T>(p: Parsed<T>): Option<T> {
    match p
    case Some((x, k)) => if k == "" then Some(x) else None
    case None => None
  }

  function SerialiseProject(p: Project): string {
    EncodeProject(p, "")
  }

  function DeserialiseProject(t: string): Option<Project> {
    Whole(ParseProject(t))
  }

  function SerialiseString(s: string): string {
    EncodeString(s, "")
  }

  function DeserialiseString(t: string): Option<string> {
    Whole(ParseString(t))
  }

  const ProjectCodec: Codec<Project> := Codec(SerialiseProject, DeserialiseProject)

  const StringCodec: Codec<string> := Codec(SerialiseString, DeserialiseString)

  lemma ProjectCodecLawful()
    ensures Lawful(ProjectCodec)
  {
    forall p: Project
      ensures DeserialiseProject(SerialiseProject(p)) == Some(p) && SerialiseProject(p) != ""
    {
      ParseProjectOf(p, "");
    }
  }

  lemma StringCodecLawful()
    ensures Lawful(StringCodec)
  {
    forall s: string
      ensures DeserialiseString(SerialiseString(s)) == Some(s) && SerialiseString(s) != ""
    {
      ParseStringOf(s, "");
    }
  }

  /**
   * A project file parses exactly when its text is a serialised project:
   * anything else (a number such as `42`, white space around the object, a
   * missing field) is refused.
   */
  lemma DeserialiseProjectExactly(t: string, p: Project)
    ensures DeserialiseProject(t) == Some(p) <==> t == SerialiseProject(p)
  {
    ProjectCodecLawful();
    ParseProjectCanonical(t);
  }

  /** A string file parses exactly when its text is a serialised string. */
  lemma DeserialiseStringExactly(t: string, s: string)
    ensures DeserialiseString(t) == Some(s) <==> t == SerialiseString(s)
  {
    StringCodecLawful();
    ParseStringCanonical(t);
  }

  /**
   * What the store writes always opens with `{` or `"`, so text opening with
   * anything else (`42`, `not json`) is refused by both codecs.
   */
  lemma GarbageIsRefused(t: string)
    requires t == [] || (t[0] != '{' && t[0] != '"')
    ensures DeserialiseProject(t) == None && DeserialiseString(t) == None
  {
    if DeserialiseProject(t).Some? {
      DeserialiseProjectExactly(t, DeserialiseProject(t).value);
    }
    if DeserialiseString(t).Some? {
      DeserialiseStringExactly(t, DeserialiseString(t).value);
    }
  }
}
