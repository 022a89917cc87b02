/** Text escaped for property lists, against the predefined entities in section 4.6 of XML 1.0. */
module XmlQuoting {
  import opened Options
  import opened Readers

  /** Every occurrence of `c` becomes `with`. */
  function Replace(s: string, c: char, with: string): string {
    if s == "" then "" else (if s[0] == c then with else [s[0]]) + Replace(s[1..], c, with)
  }

  function XmlEscape(s: string): string {
    var tagless := Replace(Replace(Replace(s, '&', "&amp;"), '<', "&lt;"), '>', "&gt;");
    Replace(Replace(tagless, '"', "&quot;"), '\'', "&apos;")
  }

  function Entity(c: char): string {
    match c
    case '&' => "&amp;"
    case '<' => "&lt;"
    case '>' => "&gt;"
    case '"' => "&quot;"
    case '\'' => "&apos;"
    case _ => [c]
  }

  function MapChars(s: string): string {
    if s == "" then "" else Entity(s[0]) + MapChars(s[1..])
  }

  lemma {:induction false} ReplaceConcat(a: string, b: string, c: char, with: string)
    ensures Replace(a + b, c, with) == Replace(a, c, with) + Replace(b, c, with)
    decreases |a|
  {
    if a == "" {
      assert a + b == b;
    } else {
      assert (a + b)[1..] == a[1..] + b;
      ReplaceConcat(a[1..], b, c, with);
    }
  }

  lemma {:induction false} ReplaceAbsent(s: string, c: char, with: string)
    requires c !in s
    ensures Replace(s, c, with) == s
    decreases |s|
  {
    if s != "" {
      ReplaceAbsent(s[1..], c, with);
      assert s == [s[0]] + s[1..];
    }
  }

  lemma ReplaceOne(c: char, with: string)
    ensures Replace([c], c, with) == with
  {
    assert [c][1..] == "";
    assert with + "" == with;
  }

  lemma EscapeConcat(a: string, b: string)
    ensures XmlEscape(a + b) == XmlEscape(a) + XmlEscape(b)
  {
    ReplaceConcat(a, b, '&', "&amp;");
    var a1, b1 := Replace(a, '&', "&amp;"), Replace(b, '&', "&amp;");
    ReplaceConcat(a1, b1, '<', "&lt;");
    var a2, b2 := Replace(a1, '<', "&lt;"), Replace(b1, '<', "&lt;");
    ReplaceConcat(a2, b2, '>', "&gt;");
    var a3, b3 := Replace(a2, '>', "&gt;"), Replace(b2, '>', "&gt;");
    ReplaceConcat(a3, b3, '"', "&quot;");
    ReplaceConcat(Replace(a3, '"', "&quot;"), Replace(b3, '"', "&quot;"), '\'', "&apos;");
  }

  lemma ReplaceOther(c: char, d: char, with: string)
    requires c != d
    ensures Replace([c], d, with) == [c]
  {
    ReplaceAbsent([c], d, with);
  }

  function FromLt(s: string): string { FromGt(Replace(s, '<', "&lt;")) }

  function FromGt(s: string): string { FromQuot(Replace(s, '>', "&gt;")) }

  function FromQuot(s: string): string { FromApos(Replace(s, '"', "&quot;")) }

  function FromApos(s: string): string { Replace(s, '\'', "&apos;") }

  /** An entity without the later characters passes the later replacements untouched. */
  lemma GtSettled(s: string)
    requires '>' !in s && '"' !in s && '\'' !in s
    ensures FromGt(s) == s
  {
    ReplaceAbsent(s, '>', "&gt;");
    ReplaceAbsent(s, '"', "&quot;");
    ReplaceAbsent(s, '\'', "&apos;");
  }

  lemma LtSettled(s: string)
    requires '<' !in s && '>' !in s && '"' !in s && '\'' !in s
    ensures FromLt(s) == s
  {
    ReplaceAbsent(s, '<', "&lt;");
    GtSettled(s);
  }

  lemma EscapeApos(c: char)
    requires c != '&' && c != '<' && c != '>' && c != '"'
    ensures FromApos([c]) == Entity(c)
  {
    if c == '\'' {
      ReplaceOne(c, "&apos;");
    } else {
      ReplaceOther(c, '\'', "&apos;");
    }
  }

  lemma EscapeQuot(c: char)
    requires c != '&' && c != '<' && c != '>'
    ensures FromQuot([c]) == Entity(c)
  {
    if c == '"' {
      ReplaceOne(c, "&quot;");
      ReplaceAbsent("&quot;", '\'', "&apos;");
    } else {
      ReplaceOther(c, '"', "&quot;");
      EscapeApos(c);
    }
  }

  lemma EscapeGt(c: char)
    requires c != '&' && c != '<'
    ensures FromGt([c]) == Entity(c)
  {
    if c == '>' {
      ReplaceOne(c, "&gt;");
      ReplaceAbsent("&gt;", '"', "&quot;");
      ReplaceAbsent("&gt;", '\'', "&apos;");
    } else {
      ReplaceOther(c, '>', "&gt;");
      EscapeQuot(c);
    }
  }

  lemma EscapeLt(c: char)
    requires c != '&'
    ensures FromLt([c]) == Entity(c)
  {
    if c == '<' {
      ReplaceOne(c, "&lt;");
      GtSettled("&lt;");
    } else {
      ReplaceOther(c, '<', "&lt;");
      EscapeGt(c);
    }
  }

  /** The ampersand goes first, so the later replacements leave every entity alone. */
  lemma EscapeChar(c: char)
    ensures XmlEscape([c]) == Entity(c)
  {
    if c == '&' {
      ReplaceOne(c, "&amp;");
      LtSettled("&amp;");
    } else {
      ReplaceOther(c, '&', "&amp;");
      EscapeLt(c);
    }
  }

  /** The five successive replacements are one map over the characters. */
  lemma {:induction false} EscapeIsOneMap(s: string)
    ensures XmlEscape(s) == MapChars(s)
    decreases |s|
  {
    if s != "" {
      assert s == [s[0]] + s[1..];
      EscapeConcat([s[0]], s[1..]);
      EscapeChar(s[0]);
      EscapeIsOneMap(s[1..]);
    }
  }

  // ---------- reading back ----------

  function CharOf(name: string): Option<char> {
    if name == "amp" then Some('&')
    else if name == "lt" then Some('<')
    else if name == "gt" then Some('>')
    else if name == "quot" then Some('"')
    else if name == "apos" then Some('\'')
    else None
  }

  /** Reading state: `entity` is the name read so far after an ampersand. */
  datatype Reader = Reader(text: string, entity: Option<string>)

  /** One character of character data or of an attribute value; `None` where it would be markup or would
      close the attribute, or where an entity is not predefined. */
  function ReadChar(r: Reader, c: char): Option<Reader> {
    match r.entity
    case Some(name) =>
      if c != ';' then Some(r.(entity := Some(name + [c])))
      else if CharOf(name).Some? then Some(Reader(r.text + [CharOf(name).value], None))
      else None
    case None =>
      if c == '&' then Some(r.(entity := Some("")))
      else if c in "<>\"'" then None
      else Some(r.(text := r.text + [c]))
  }

  function ReadFrom(r: Reader, s: string): Option<Reader> {
    ReadAll(ReadChar, r, s)
  }

  /** The whole of `s`, which must not stop inside an entity. */
  function Decode(s: string): Option<string> {
    match ReadFrom(Reader("", None), s)
    case Some(r) => if r.entity.None? then Some(r.text) else None
    case None => None
  }

  lemma {:induction false} ReadName(r: Reader, name: string)
    requires r.entity.Some? && ';' !in name
    ensures ReadFrom(r, name) == Some(r.(entity := Some(r.entity.value + name)))
    decreases |name|
  {
    if name == "" {
      assert r.entity.value + name == r.entity.value;
    } else {
      var next := r.(entity := Some(r.entity.value + [name[0]]));
      ReadName(next, name[1..]);
      assert r.entity.value + name == next.entity.value + name[1..];
    }
  }

  lemma ReadEntity(r: Reader, name: string)
    requires r.entity.None? && ';' !in name && CharOf(name).Some?
    ensures ReadFrom(r, "&" + name + ";") == Some(Reader(r.text + [CharOf(name).value], None))
  {
    var begun := r.(entity := Some(""));
    assert ReadFrom(r, "&") == Some(begun) by { assert "&"[1..] == ""; }
    ReadName(begun, name);
    assert "" + name == name;
    var named := r.(entity := Some(name));
    assert ReadFrom(named, ";") == Some(Reader(r.text + [CharOf(name).value], None)) by { assert ";"[1..] == ""; }
    ReadConcat(ReadChar, begun, name, ";");
    ReadConcat(ReadChar, r, "&", name + ";");
    assert "&" + name + ";" == "&" + (name + ";");
  }

  lemma ReadMapped(r: Reader, c: char)
    requires r.entity.None?
    ensures ReadFrom(r, Entity(c)) == Some(Reader(r.text + [c], None))
  {
    match c
    case '&' => assert "&amp;" == "&" + "amp" + ";"; ReadEntity(r, "amp");
    case '<' => assert "&lt;" == "&" + "lt" + ";"; ReadEntity(r, "lt");
    case '>' => assert "&gt;" == "&" + "gt" + ";"; ReadEntity(r, "gt");
    case '"' => assert "&quot;" == "&" + "quot" + ";"; ReadEntity(r, "quot");
    case '\'' => assert "&apos;" == "&" + "apos" + ";"; ReadEntity(r, "apos");
    case _ => ReadSingle(ReadChar, r, c);
  }

  lemma {:induction false} ReadAllMapped(r: Reader, s: string)
    requires r.entity.None?
    ensures ReadFrom(r, MapChars(s)) == Some(Reader(r.text + s, None))
    decreases |s|
  {
    if s == "" {
      assert r.text + s == r.text;
    } else {
      ReadMapped(r, s[0]);
      ReadConcat(ReadChar, r, Entity(s[0]), MapChars(s[1..]));
      ReadAllMapped(Reader(r.text + [s[0]], None), s[1..]);
      HeadThenTail(r.text, s);
    }
  }

  /** Decoding the escaped text gives the text back; no markup or quote is ever met on the way. */
  lemma EscapeRoundTrip(s: string)
    ensures Decode(XmlEscape(s)) == Some(s)
  {
    EscapeIsOneMap(s);
    ReadAllMapped(Reader("", None), s);
    assert "" + s == s;
  }
}
