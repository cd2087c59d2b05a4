/** The settings string builders: the database URL assembled from the
    `DB_*` settings, and the `.env` template listing every setting with
    its description, whether it is required, its type and its default. */
module Settings {
  import opened Base

  // ---------------------------------------------------------------------
  // The database URL
  // ---------------------------------------------------------------------

  /** The `DB_*` fields of `DatabaseConfig`, all strings. */
  datatype DatabaseConfig = DatabaseConfig(host: string, port: string, username: string, password: string,
                                           database: string)

  const Scheme := "postgresql://"

  /** `DATABASE_URL`: the scheme, then user and password separated by
      `:`, then `@`, host and port separated by `:`, then `/` and the
      database. No part is escaped. */
  function DatabaseUrl(c: DatabaseConfig): (url: string)
    ensures Scheme <= url
    ensures |url| == |Scheme| + |c.username| + |c.password| + |c.host| + |c.port| + |c.database| + 4
  {
    Scheme + c.username + ":" + c.password + "@" + c.host + ":" + c.port + "/" + c.database
  }

  /** `s` cut at its first `sep`: what comes before and what comes after. */
  function Split(s: string, sep: char): (r: Option<(string, string)>)
    ensures r.None? <==> sep !in s
    ensures r.Some? ==> sep !in r.value.0 && s == r.value.0 + [sep] + r.value.1
  {
    if s == [] then None
    else if s[0] == sep then (assert s == [] + [sep] + s[1..]; Some(([], s[1..])))
    else match Split(s[1..], sep)
      case None => None
      case Some((a, b)) => (assert s == [s[0]] + (a + [sep] + b); Some(([s[0]] + a, b)))
  }

  /** The cut is at `a`'s end when `a` does not hold the separator. */
  lemma {:induction false} SplitAt(a: string, sep: char, b: string)
    requires sep !in a
    ensures Split(a + [sep] + b, sep) == Some((a, b))
  {
    if a != [] {
      assert (a + [sep] + b)[1..] == a[1..] + [sep] + b;
      SplitAt(a[1..], sep, b);
      assert [a[0]] + a[1..] == a;
    }
  }

  /** Reads a URL back into its five parts, cutting at the first `:`
      after the scheme, the next `@`, the next `:` and the next `/`. */
  function ParseUrl(url: string): (r: Option<DatabaseConfig>)
    ensures r.Some? ==> DatabaseUrl(r.value) == url
  {
    if !(Scheme <= url) then None
    else match Split(url[|Scheme|..], ':')
      case None => None
      case Some((user, afterUser)) =>
        match Split(afterUser, '@')
        case None => None
        case Some((password, afterPassword)) =>
          match Split(afterPassword, ':')
          case None => None
          case Some((host, afterHost)) =>
            match Split(afterHost, '/')
            case None => None
            case Some((port, database)) =>
              var c := DatabaseConfig(host, port, user, password, database);
              assert url == Scheme + url[|Scheme|..];
              UrlParts(c);
              Some(c)
  }

  /** The URL as the scheme followed by its nested cuts. */
  lemma UrlParts(c: DatabaseConfig)
    ensures DatabaseUrl(c)
      == Scheme + (c.username + [':'] + (c.password + ['@'] + (c.host + [':'] + (c.port + ['/'] + c.database))))
  {
  }

  /** Parts free of the separator that ends them come back unchanged. */
  lemma UrlRoundTrip(c: DatabaseConfig)
    requires ':' !in c.username && '@' !in c.password && ':' !in c.host && '/' !in c.port
    ensures ParseUrl(DatabaseUrl(c)) == Some(c)
  {
    var url := DatabaseUrl(c);
    var afterPort := c.port + ['/'] + c.database;
    var afterHost := c.host + [':'] + afterPort;
    var afterPassword := c.password + ['@'] + afterHost;
    UrlParts(c);
    assert url[|Scheme|..] == c.username + [':'] + afterPassword;
    SplitAt(c.username, ':', afterPassword);
    SplitAt(c.password, '@', afterHost);
    SplitAt(c.host, ':', afterPort);
    SplitAt(c.port, '/', c.database);
  }

  /** A `:` in the user name and one in the password give the same URL:
      user `a:b` with password `c`, and user `a` with password `b:c`. */
  lemma UrlAmbiguous()
    ensures var c1 := DatabaseConfig("db", "5432", "a:b", "c", "app");
      var c2 := DatabaseConfig("db", "5432", "a", "b:c", "app");
      c1 != c2 && DatabaseUrl(c1) == DatabaseUrl(c2)
  {
    assert "a:b" + ":" + "c" == "a" + ":" + "b:c";
  }

  // ---------------------------------------------------------------------
  // The URL with percent-encoded parts
  // ---------------------------------------------------------------------

  /** The characters that delimit the URL's parts, and `%` itself. */
  predicate Delimiter(c: char) {
    c == ':' || c == '@' || c == '/' || c == '%'
  }

  /** The two upper-case hexadecimal digits of a delimiter's code. */
  function HexOf(c: char): (h: string)
    requires Delimiter(c)
    ensures |h| == 2
  {
    if c == ':' then "3A" else if c == '@' then "40" else if c == '/' then "2F" else "25"
  }

  function CharOfHex(h: string): (r: Option<char>)
    ensures r.Some? ==> Delimiter(r.value) && HexOf(r.value) == h
  {
    if h == "3A" then Some(':') else if h == "40" then Some('@') else if h == "2F" then Some('/')
    else if h == "25" then Some('%') else None
  }

  /** Percent-encoding of the delimiters, as section 2.1 of RFC 3986
      writes a data octet that would otherwise read as a delimiter. */
  function Quote(s: string): (q: string)
    ensures ':' !in q && '@' !in q && '/' !in q
  {
    if s == [] then []
    else (if Delimiter(s[0]) then "%" + HexOf(s[0]) else [s[0]]) + Quote(s[1..])
  }

  function Unquote(q: string): (s: string)
    ensures |s| <= |q|
  {
    if q == [] then []
    else if q[0] == '%' && |q| >= 3 && CharOfHex(q[1..3]).Some? then [CharOfHex(q[1..3]).value] + Unquote(q[3..])
    else [q[0]] + Unquote(q[1..])
  }

  lemma {:induction false} UnquoteQuote(s: string)
    ensures Unquote(Quote(s)) == s
  {
    if s != [] {
      var rest := Quote(s[1..]);
      UnquoteQuote(s[1..]);
      if Delimiter(s[0]) {
        var q := "%" + HexOf(s[0]) + rest;
        assert Quote(s) == q;
        assert q[1..3] == HexOf(s[0]) && q[3..] == rest;
      } else {
        var q := [s[0]] + rest;
        assert Quote(s) == q && q[1..] == rest;
      }
    }
  }

  function QuoteAll(c: DatabaseConfig): DatabaseConfig {
    DatabaseConfig(Quote(c.host), Quote(c.port), Quote(c.username), Quote(c.password), Quote(c.database))
  }

  /** `DATABASE_URL` with every part percent-encoded. */
  function SafeDatabaseUrl(c: DatabaseConfig): (url: string)
    ensures Scheme <= url
  {
    DatabaseUrl(QuoteAll(c))
  }

  function ParseSafeUrl(url: string): (r: Option<DatabaseConfig>)
  {
    match ParseUrl(url)
    case None => None
    case Some(q) => Some(DatabaseConfig(Unquote(q.host), Unquote(q.port), Unquote(q.username),
                                        Unquote(q.password), Unquote(q.database)))
  }

  /** With encoded parts every configuration comes back from its URL. */
  lemma SafeUrlRoundTrip(c: DatabaseConfig)
    ensures ParseSafeUrl(SafeDatabaseUrl(c)) == Some(c)
  {
    UrlRoundTrip(QuoteAll(c));
    UnquoteQuote(c.host);
    UnquoteQuote(c.port);
    UnquoteQuote(c.username);
    UnquoteQuote(c.password);
    UnquoteQuote(c.database);
  }

  /** So distinct configurations have distinct encoded URLs. */
  lemma SafeUrlInjective(c1: DatabaseConfig, c2: DatabaseConfig)
    requires SafeDatabaseUrl(c1) == SafeDatabaseUrl(c2)
    ensures c1 == c2
  {
    SafeUrlRoundTrip(c1);
    SafeUrlRoundTrip(c2);
  }

  // ---------------------------------------------------------------------
  // The `.env` template
  // ---------------------------------------------------------------------

  /** One entry of `Config.model_fields`, as the template reads it. `None`
      stands both for Pydantic's undefined marker and for a Python `None`;
      the type is its `__name__`, the default its `str`. */
  datatype EnvField = EnvField(key: string, description: Option<string>, required: bool,
                               typeName: Option<string>, defaultText: Option<string>)

  const DescriptionTag := "# description: "
  const RequiredTag := "# is_required: "
  const TypeTag := "# type: "
  const DefaultTag := "# default: "

  /** Python's `str` of a boolean. */
  function PyBool(b: bool): (s: string)
    ensures s == "True" || s == "False"
    ensures b <==> s == "True"
  {
    if b then "True" else "False"
  }

  /** `tag` is not a prefix of a line that differs from it at `i`. */
  lemma NotPrefix(tag: string, line: string, i: nat)
    requires i < |tag| && i < |line| && tag[i] != line[i]
    ensures !(tag <= line)
  {
  }

  /** A line of one kind never starts with the tag of another: the tags
      differ at their third character, and a valid key does not start
      with `#`. */
  lemma TagsDistinct(s: string)
    ensures !(DescriptionTag <= RequiredTag + s)
    ensures !(TypeTag <= DefaultTag + s)
    ensures ValidKey(s) ==> !(TypeTag <= s + "=") && !(DefaultTag <= s + "=")
  {
    NotPrefix(DescriptionTag, RequiredTag + s, 2);
    NotPrefix(TypeTag, DefaultTag + s, 2);
    if ValidKey(s) {
      NotPrefix(TypeTag, s + "=", 0);
      NotPrefix(DefaultTag, s + "=", 0);
    }
  }

  /** The lines of one field: its description if defined, whether it is
      required, its type and default if defined, `KEY=` and an empty
      line. A default that Python finds false, such as `0` or `""`, is
      still written. */
  function Block(f: EnvField): (lines: seq<string>)
    ensures |lines| == 3 + (if f.description.Some? then 1 else 0) + (if f.typeName.Some? then 1 else 0)
                         + (if f.defaultText.Some? then 1 else 0)
    ensures lines[|lines| - 2] == f.key + "=" && lines[|lines| - 1] == ""
  {
    Defaulted(f) + [f.key + "=", ""]
  }

  /** Every block states whether its field is required, and starts with
      a description line exactly when the field has a description. */
  lemma BlockLines(f: EnvField)
    ensures RequiredTag + PyBool(f.required) in Block(f)
    ensures f.description.Some? <==> DescriptionTag <= Block(f)[0]
  {
    TagsDistinct(PyBool(f.required));
    var i := if f.description.Some? then 1 else 0;
    assert Block(f)[i] == RequiredTag + PyBool(f.required);
  }

  /** The first lines of a block: up to the description, the required
      flag, the type and the default. */
  function Described(f: EnvField): seq<string> {
    if f.description.Some? then [DescriptionTag + f.description.value] else []
  }

  function Required(f: EnvField): seq<string> {
    Described(f) + [RequiredTag + PyBool(f.required)]
  }

  function Typed(f: EnvField): seq<string> {
    if f.typeName.Some? then Required(f) + [TypeTag + f.typeName.value] else Required(f)
  }

  function Defaulted(f: EnvField): seq<string> {
    if f.defaultText.Some? then Typed(f) + [DefaultTag + f.defaultText.value] else Typed(f)
  }

  /** The template: the blocks of the fields, in field order. */
  function Template(fields: seq<EnvField>): (lines: seq<string>)
    ensures |lines| >= 3 * |fields|
  {
    if fields == [] then [] else Template(fields[..|fields| - 1]) + Block(fields[|fields| - 1])
  }

  lemma {:induction false} TemplateCons(f: EnvField, fields: seq<EnvField>)
    ensures Template([f] + fields) == Block(f) + Template(fields)
    decreases |fields|
  {
    if fields == [] {
      assert [f] + fields == [f];
      assert [f][..0] == [];
    } else {
      var init := fields[..|fields| - 1];
      assert ([f] + fields)[..|fields|] == [f] + init;
      TemplateCons(f, init);
    }
  }

  /** The `__main__` loop over `Config.model_fields`, without the file
      write: appends each field's lines to `env_list`. */
  method EnvTemplate(fields: seq<EnvField>) returns (envList: seq<string>)
    ensures envList == Template(fields)
  {
    envList := [];
    for i := 0 to |fields|
      invariant envList == Template(fields[..i])
    {
      var f := fields[i];
      TemplateNext(fields, i);
      ghost var before := envList;
      if f.description.Some? {
        envList := envList + [DescriptionTag + f.description.value];
      } else {
        assert before + [] == before;
      }
      ConcatAssoc(before, Described(f), [RequiredTag + PyBool(f.required)]);
      envList := envList + [RequiredTag + PyBool(f.required)];
      if f.typeName.Some? {
        ConcatAssoc(before, Required(f), [TypeTag + f.typeName.value]);
        envList := envList + [TypeTag + f.typeName.value];
      }
      if f.defaultText.Some? {
        ConcatAssoc(before, Typed(f), [DefaultTag + f.defaultText.value]);
        envList := envList + [DefaultTag + f.defaultText.value];
      }
      ConcatAssoc(before, Defaulted(f), [f.key + "=", ""]);
      envList := envList + [f.key + "=", ""];
    }
    assert fields[..|fields|] == fields;
  }

  lemma TemplateNext(fields: seq<EnvField>, i: nat)
    requires i < |fields|
    ensures Template(fields[..i + 1]) == Template(fields[..i]) + Block(fields[i])
  {
    assert fields[..i + 1][..i] == fields[..i];
  }

  /** A key that cannot be mistaken for a comment line. */
  predicate ValidKey(key: string) {
    key != [] && key[0] != '#'
  }

  /** Reads one block off the front of `lines`: the field and the number
      of lines it took. */
  function ParseBlock(lines: seq<string>): (r: Option<(EnvField, nat)>)
    ensures r.Some? ==> 3 <= r.value.1 <= |lines| && Block(r.value.0) == lines[..r.value.1]
  {
    var d := if |lines| > 0 && DescriptionTag <= lines[0] then 1 else 0;
    if d + 2 >= |lines| || !(RequiredTag <= lines[d]) then None
    else
      var req := lines[d][|RequiredTag|..];
      if req != "True" && req != "False" then None
      else
        var t := if TypeTag <= lines[d + 1] then 1 else 0;
        var e := if d + 1 + t < |lines| && DefaultTag <= lines[d + 1 + t] then 1 else 0;
        var k := d + 1 + t + e;
        if k + 1 >= |lines| || lines[k] == [] || lines[k][|lines[k]| - 1] != '=' || lines[k + 1] != "" then None
        else
          var f := EnvField(lines[k][..|lines[k]| - 1],
                            if d == 1 then Some(lines[0][|DescriptionTag|..]) else None,
                            req == "True",
                            if t == 1 then Some(lines[d + 1][|TypeTag|..]) else None,
                            if e == 1 then Some(lines[d + 1 + t][|DefaultTag|..]) else None);
          ParseBlockSound(lines, f, d, t, e, k);
          Some((f, k + 2))
  }

  lemma ParseBlockSound(lines: seq<string>, f: EnvField, d: nat, t: nat, e: nat, k: nat)
    requires d <= 1 && t <= 1 && e <= 1 && k == d + 1 + t + e && k + 1 < |lines|
    requires d == 1 <==> f.description.Some?
    requires d == 1 ==> DescriptionTag <= lines[0] && f.description.value == lines[0][|DescriptionTag|..]
    requires RequiredTag <= lines[d] && PyBool(f.required) == lines[d][|RequiredTag|..]
    requires t == 1 <==> f.typeName.Some?
    requires t == 1 ==> TypeTag <= lines[d + 1] && f.typeName.value == lines[d + 1][|TypeTag|..]
    requires e == 1 <==> f.defaultText.Some?
    requires e == 1 ==> DefaultTag <= lines[d + 1 + t] && f.defaultText.value == lines[d + 1 + t][|DefaultTag|..]
    requires lines[k] == f.key + "=" && lines[k + 1] == ""
    ensures Block(f) == lines[..k + 2]
  {
    if d == 1 {
      PrefixRest(DescriptionTag, lines[0]);
      TakeNext(lines, 0);
    }
    assert Described(f) == lines[..d];
    PrefixRest(RequiredTag, lines[d]);
    TakeNext(lines, d);
    assert Required(f) == lines[..d + 1];
    if t == 1 {
      PrefixRest(TypeTag, lines[d + 1]);
      TakeNext(lines, d + 1);
    }
    assert Typed(f) == lines[..d + 1 + t];
    if e == 1 {
      PrefixRest(DefaultTag, lines[d + 1 + t]);
      TakeNext(lines, d + 1 + t);
    }
    assert Defaulted(f) == lines[..k];
    TakeNext(lines, k);
    TakeNext(lines, k + 1);
    ConcatAssoc(Defaulted(f), [f.key + "="], [""]);
  }

  /** Reads the template back, block by block. */
  function ParseTemplate(lines: seq<string>): (r: Option<seq<EnvField>>)
    ensures r.Some? ==> Template(r.value) == lines
    decreases |lines|
  {
    if lines == [] then Some([])
    else match ParseBlock(lines)
      case None => None
      case Some((f, n)) =>
        match ParseTemplate(lines[n..])
        case None => None
        case Some(fs) =>
          TemplateJoin(lines, n, f, fs);
          Some([f] + fs)
  }

  lemma TemplateJoin(lines: seq<string>, n: nat, f: EnvField, fs: seq<EnvField>)
    requires n <= |lines| && Block(f) == lines[..n] && Template(fs) == lines[n..]
    ensures Template([f] + fs) == lines
  {
    TemplateCons(f, fs);
    TakeDrop(lines, n);
  }

  /** Each block is read back whole, whatever follows it. */
  lemma BlockRoundTrip(f: EnvField, rest: seq<string>)
    requires ValidKey(f.key)
    ensures ParseBlock(Block(f) + rest) == Some((f, |Block(f)|))
  {
    var b := Block(f);
    var lines := b + rest;
    var d := if f.description.Some? then 1 else 0;
    var t := if f.typeName.Some? then 1 else 0;
    var e := if f.defaultText.Some? then 1 else 0;
    var k := d + 1 + t + e;
    assert forall i :: 0 <= i < |b| ==> lines[i] == b[i];
    assert (|lines| > 0 && DescriptionTag <= lines[0]) <==> d == 1 by {
      TagsDistinct(PyBool(f.required));
      if d == 1 {
        PrefixOf(DescriptionTag, f.description.value);
      }
    }
    assert d == 1 ==> lines[0][|DescriptionTag|..] == f.description.value by {
      if d == 1 {
        PrefixOf(DescriptionTag, f.description.value);
      }
    }
    assert d + 2 < |lines| && RequiredTag <= lines[d] && lines[d][|RequiredTag|..] == PyBool(f.required) by {
      assert b[d] == RequiredTag + PyBool(f.required);
      PrefixOf(RequiredTag, PyBool(f.required));
    }
    assert (TypeTag <= lines[d + 1]) <==> t == 1 by {
      if t == 1 {
        assert b[d + 1] == TypeTag + f.typeName.value;
        PrefixOf(TypeTag, f.typeName.value);
      } else if e == 1 {
        assert b[d + 1] == DefaultTag + f.defaultText.value;
        TagsDistinct(f.defaultText.value);
      } else {
        assert b[d + 1] == f.key + "=";
        TagsDistinct(f.key);
      }
    }
    assert t == 1 ==> lines[d + 1][|TypeTag|..] == f.typeName.value by {
      if t == 1 {
        assert b[d + 1] == TypeTag + f.typeName.value;
        PrefixOf(TypeTag, f.typeName.value);
      }
    }
    assert (d + 1 + t < |lines| && DefaultTag <= lines[d + 1 + t]) <==> e == 1 by {
      if e == 1 {
        assert b[d + 1 + t] == DefaultTag + f.defaultText.value;
        PrefixOf(DefaultTag, f.defaultText.value);
      } else {
        assert b[d + 1 + t] == f.key + "=";
        TagsDistinct(f.key);
      }
    }
    assert e == 1 ==> lines[d + 1 + t][|DefaultTag|..] == f.defaultText.value by {
      if e == 1 {
        assert b[d + 1 + t] == DefaultTag + f.defaultText.value;
        PrefixOf(DefaultTag, f.defaultText.value);
      }
    }
    assert k + 1 < |lines| && lines[k] == f.key + "=" && lines[k + 1] == "" by {
    }
    assert (f.key + "=")[..|f.key|] == f.key;
    assert |b| == k + 2;
  }

  /** The template of fields with valid keys reads back as those fields,
      in order: one block per field, in field order. */
  lemma {:induction false} TemplateRoundTrip(fields: seq<EnvField>)
    requires forall i :: 0 <= i < |fields| ==> ValidKey(fields[i].key)
    ensures ParseTemplate(Template(fields)) == Some(fields)
    decreases |fields|
  {
    if fields != [] {
      var f, fs := fields[0], fields[1..];
      assert fields == [f] + fs;
      TemplateCons(f, fs);
      BlockRoundTrip(f, Template(fs));
      assert (Block(f) + Template(fs))[|Block(f)|..] == Template(fs);
      TemplateRoundTrip(fs);
    }
  }
}
