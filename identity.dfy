/**
 * The signed-in user record `{ id, name, email, role }` and its
 * serialized form in local storage.
 *
 * JSON itself is kept out of the model: `Serialize` and `Parse` are a
 * JSON-shaped encoding of exactly this record (string values, with `"` and
 * `\` escaped), and what the rest of the model relies on is proved here:
 * `Parse` inverts `Serialize`, and it rejects every other text.
 */
module Identity {
  import opened Wrappers
  import opened Text

  /** A user as the session holds it. The role is kept as the string the source stores. */
  datatype User = User(id: string, name: string, email: string, role: string)

  /** Characters written in a string value: `"` and `\` get a backslash in front. */
  function Escape(s: string): string
    decreases |s|
  {
    if |s| == 0 then ""
    else if s[0] == '"' || s[0] == '\\' then ['\\', s[0]] + Escape(s[1..])
    else [s[0]] + Escape(s[1..])
  }

  /** A string value as it appears in the serialized record. */
  function Quote(s: string): string {
    "\"" + Escape(s) + "\""
  }

  /** The `JSON.stringify` stand-in: an object text, never empty, so always truthy in storage. */
  function Serialize(u: User): (s: string)
    ensures |s| >= 2 && s[0] == '{' && s[|s| - 1] == '}'
  {
    "{\"id\":" + Quote(u.id) + (
      ",\"name\":" + Quote(u.name) + (
        ",\"email\":" + Quote(u.email) + (
          ",\"role\":" + Quote(u.role) + "}")))
  }

  /** A value read from the front of a text, and the text after it. */
  datatype Parsed = Parsed(value: string, rest: string)

  /** Reads the characters of a string value up to its closing quote. */
  function ParseChars(t: string): Option<Parsed>
    decreases |t|
  {
    if |t| == 0 then None
    else if t[0] == '"' then Some(Parsed("", t[1..]))
    else if t[0] == '\\' then
      if |t| >= 2 && (t[1] == '"' || t[1] == '\\') then
        match ParseChars(t[2..])
        case Some(p) => Some(Parsed([t[1]] + p.value, p.rest))
        case None => None
      else None
    else
      match ParseChars(t[1..])
      case Some(p) => Some(Parsed([t[0]] + p.value, p.rest))
      case None => None
  }

  /** Reads one quoted string value. */
  function ParseString(t: string): Option<Parsed> {
    if |t| > 0 && t[0] == '"' then ParseChars(t[1..]) else None
  }

  /** Consumes the literal text `lit` from the front of `t`. */
  function Expect(lit: string, t: string): Option<string> {
    if StartsWith(t, lit) then Some(t[|lit|..]) else None
  }

  /** Reads `lit` followed by a string value. */
  function Field(lit: string, t: string): Option<Parsed> {
    match Expect(lit, t)
    case None => None
    case Some(t1) => ParseString(t1)
  }

  /**
   * The `JSON.parse` stand-in: `None` where parsing would throw. It accepts
   * nothing but the serialization of the user it returns.
   */
  function Parse(t: string): (r: Option<User>)
    ensures r.Some? ==> t == Serialize(r.value)
  {
    match Field("{\"id\":", t)
    case None => None
    case Some(a) =>
      match Field(",\"name\":", a.rest)
      case None => None
      case Some(b) =>
        match Field(",\"email\":", b.rest)
        case None => None
        case Some(c) =>
          match Field(",\"role\":", c.rest)
          case None => None
          case Some(d) =>
            if d.rest == "}" then
              FieldSound("{\"id\":", t);
              FieldSound(",\"name\":", a.rest);
              FieldSound(",\"email\":", b.rest);
              FieldSound(",\"role\":", c.rest);
              Some(User(a.value, b.value, c.value, d.value))
            else None
  }

  /** Reading an escaped value stops at its closing quote and leaves what follows. */
  lemma {:induction false} ParseEscaped(s: string, rest: string)
    ensures ParseChars(Escape(s) + "\"" + rest) == Some(Parsed(s, rest))
    decreases |s|
  {
    var t := Escape(s) + "\"" + rest;
    if |s| == 0 {
      assert t == "\"" + rest;
      assert t[1..] == rest;
    } else if s[0] == '"' || s[0] == '\\' {
      ParseEscaped(s[1..], rest);
      assert t[2..] == Escape(s[1..]) + "\"" + rest;
      assert [s[0]] + s[1..] == s;
    } else {
      ParseEscaped(s[1..], rest);
      assert t[1..] == Escape(s[1..]) + "\"" + rest;
      assert [s[0]] + s[1..] == s;
    }
  }

  /** Whatever `ParseChars` reads was written by `Escape`. */
  lemma {:induction false} ParseCharsSound(t: string)
    ensures ParseChars(t).Some? ==> t == Escape(ParseChars(t).value.value) + "\"" + ParseChars(t).value.rest
    decreases |t|
  {
    if ParseChars(t).Some? {
      var p := ParseChars(t).value;
      if t[0] == '"' {
        assert t == "\"" + t[1..];
      } else if t[0] == '\\' {
        ParseCharsSound(t[2..]);
        var q := ParseChars(t[2..]).value;
        assert p == Parsed([t[1]] + q.value, q.rest);
        assert Escape(p.value) == ['\\', t[1]] + Escape(q.value) by {
          assert p.value[1..] == q.value;
        }
        assert t == ['\\', t[1]] + t[2..];
      } else {
        ParseCharsSound(t[1..]);
        var q := ParseChars(t[1..]).value;
        assert p == Parsed([t[0]] + q.value, q.rest);
        assert Escape(p.value) == [t[0]] + Escape(q.value) by {
          assert p.value[1..] == q.value;
        }
        assert t == [t[0]] + t[1..];
      }
    }
  }

  /** A literal followed by a quoted value is read back as that value. */
  lemma FieldQuoted(lit: string, s: string, rest: string)
    ensures Field(lit, lit + Quote(s) + rest) == Some(Parsed(s, rest))
  {
    var t := lit + Quote(s) + rest;
    assert StartsWith(t, lit);
    assert t[|lit|..] == "\"" + (Escape(s) + "\"" + rest);
    ParseEscaped(s, rest);
  }

  /** A field that reads is a literal followed by a quoted value. */
  lemma FieldSound(lit: string, t: string)
    requires Field(lit, t).Some?
    ensures t == lit + Quote(Field(lit, t).value.value) + Field(lit, t).value.rest
  {
    var t1 := Expect(lit, t).value;
    assert t1 == t[|lit|..] && t == lit + t1;
    var p := ParseChars(t1[1..]).value;
    assert Field(lit, t).value == p;
    ParseCharsSound(t1[1..]);
    assert t1 == "\"" + t1[1..];
  }

  /** Round trip: a stored user is read back unchanged. */
  lemma ParseSerialize(u: User)
    ensures Parse(Serialize(u)) == Some(u)
  {
    var roleRest := ",\"role\":" + Quote(u.role) + "}";
    var emailRest := ",\"email\":" + Quote(u.email) + roleRest;
    var nameRest := ",\"name\":" + Quote(u.name) + emailRest;
    FieldQuoted("{\"id\":", u.id, nameRest);
    FieldQuoted(",\"name\":", u.name, emailRest);
    FieldQuoted(",\"email\":", u.email, roleRest);
    FieldQuoted(",\"role\":", u.role, "}");
  }
}
