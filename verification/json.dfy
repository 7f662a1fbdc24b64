/** The part of JSON the chaincode itself produces: a list of strings (the ID
    indexes) and a flat object of string members (the timestamp record). Each
    index is stored as the JSON text of a list of strings; the decoder reads
    back what the encoder writes, and a text it cannot read counts as no list. */
module Json {
  import opened Base

  /** One character inside a string literal: `"` and `\` are escaped. */
  function EscapeChar(c: char): string {
    if c == '"' || c == '\\' then ['\\', c] else [c]
  }

  function Escape(s: string): string {
    if |s| == 0 then "" else EscapeChar(s[0]) + Escape(s[1..])
  }

  /** A string literal. */
  function Quote(s: string): string {
    "\"" + Escape(s) + "\""
  }

  /** The comma-separated literals of a non-empty list. */
  function Items(xs: seq<string>): (r: string)
    requires |xs| > 0
    ensures |r| >= 2 && r[0] == '"'
  {
    if |xs| == 1 then Quote(xs[0]) else Quote(xs[0]) + "," + Items(xs[1..])
  }

  /** `json.Marshal` of a `[]string`. The empty list is always a nil slice at
      the call sites of this chaincode, which Go renders as `null`. */
  function EncodeStrings(xs: seq<string>): (r: string)
    ensures |r| > 0
  {
    if |xs| == 0 then "null" else "[" + Items(xs) + "]"
  }

  /** Reads the body of a string literal up to its closing quote, returning
      the unescaped content and the text after the quote. */
  function ParseStringBody(s: string): (r: Option<(string, string)>)
    ensures r.Some? ==> |r.value.1| < |s|
  {
    if |s| == 0 then None
    else if s[0] == '"' then Some(("", s[1..]))
    else if s[0] == '\\' then
      if |s| < 2 || !(s[1] == '"' || s[1] == '\\') then None
      else
        match ParseStringBody(s[2..])
        case None => None
        case Some((v, rest)) => Some(([s[1]] + v, rest))
    else
      match ParseStringBody(s[1..])
      case None => None
      case Some((v, rest)) => Some(([s[0]] + v, rest))
  }

  /** Reads the literals of a list after its opening bracket, through the
      closing bracket, which must end the text. */
  function ParseItems(s: string): Option<seq<string>>
    decreases |s|
  {
    if |s| == 0 || s[0] != '"' then None
    else
      match ParseStringBody(s[1..])
      case None => None
      case Some((v, rest)) =>
        if rest == "]" then Some([v])
        else if |rest| > 0 && rest[0] == ',' then
          match ParseItems(rest[1..])
          case None => None
          case Some(vs) => Some([v] + vs)
        else None
  }

  /** `json.Unmarshal` into a `[]string`: `null` and `[]` are the empty list;
      `None` is an unmarshalling error (the empty text among them). */
  function DecodeStrings(b: string): (r: Option<seq<string>>)
    ensures b == "" ==> r == None
  {
    if b == "null" || b == "[]" then Some([])
    else if |b| > 0 && b[0] == '[' then ParseItems(b[1..])
    else None
  }

  lemma {:induction false} ParseEscaped(x: string, rest: string)
    ensures ParseStringBody(Escape(x) + "\"" + rest) == Some((x, rest))
    decreases |x|
  {
    var s := Escape(x) + "\"" + rest;
    if |x| == 0 {
      assert s == "\"" + rest;
    } else {
      var tail := Escape(x[1..]) + "\"" + rest;
      assert s == EscapeChar(x[0]) + tail;
      ParseEscaped(x[1..], rest);
      if x[0] == '"' || x[0] == '\\' {
        assert s[2..] == tail;
      } else {
        assert s[1..] == tail;
      }
      assert [x[0]] + x[1..] == x;
    }
  }

  lemma {:induction false} ParseItemsOfItems(xs: seq<string>)
    requires |xs| > 0
    ensures ParseItems(Items(xs) + "]") == Some(xs)
    decreases |xs|
  {
    var s := Items(xs) + "]";
    var tail := if |xs| == 1 then "]" else "," + Items(xs[1..]) + "]";
    assert s == "\"" + (Escape(xs[0]) + "\"" + tail);
    assert s[1..] == Escape(xs[0]) + "\"" + tail;
    ParseEscaped(xs[0], tail);
    assert s[0] == '"';
    if |xs| > 1 {
      assert tail[0] == ',' && tail != "]";
      assert tail[1..] == Items(xs[1..]) + "]";
      ParseItemsOfItems(xs[1..]);
      assert [xs[0]] + xs[1..] == xs;
    } else {
      assert [xs[0]] == xs;
    }
  }

  /** Decoding an encoded index gives back the same IDs in the same order. */
  lemma StringsRoundTrip(xs: seq<string>)
    ensures DecodeStrings(EncodeStrings(xs)) == Some(xs)
  {
    if |xs| > 0 {
      var b := EncodeStrings(xs);
      assert b[1..] == Items(xs) + "]";
      ParseItemsOfItems(xs);
    }
  }

  /** The members of a flat object of string fields, in declaration order. */
  function Members(fields: seq<(string, string)>): string {
    if |fields| == 0 then ""
    else
      Quote(fields[0].0) + ":" + Quote(fields[0].1)
      + (if |fields| == 1 then "" else "," + Members(fields[1..]))
  }

  /** `json.Marshal` of a struct whose fields are all strings and carry no
      JSON tags: each field appears under its Go name. */
  function EncodeObject(fields: seq<(string, string)>): (r: string)
    ensures |r| >= 2 && r[0] == '{' && r[|r| - 1] == '}'
  {
    "{" + Members(fields) + "}"
  }

  /** Reads one `"name":"value"` member, returning it and the text after it. */
  function ParseMember(s: string): (r: Option<((string, string), string)>)
    ensures r.Some? ==> |r.value.1| < |s|
  {
    if |s| == 0 || s[0] != '"' then None
    else
      match ParseStringBody(s[1..])
      case None => None
      case Some((k, rest)) =>
        if |rest| < 2 || rest[0] != ':' || rest[1] != '"' then None
        else
          match ParseStringBody(rest[2..])
          case None => None
          case Some((v, rest')) => Some(((k, v), rest'))
  }

  /** Reads the members of an object after its opening brace, through the
      closing brace, which must end the text. */
  function ParseMembers(s: string): Option<seq<(string, string)>>
    decreases |s|
  {
    match ParseMember(s)
    case None => None
    case Some((m, rest)) =>
      if rest == "}" then Some([m])
      else if |rest| > 0 && rest[0] == ',' then
        match ParseMembers(rest[1..])
        case None => None
        case Some(ms) => Some([m] + ms)
      else None
  }

  /** Reads the members of a flat object of string fields, in order; `None`
      for any text the encoder does not write. */
  function DecodeObject(b: string): Option<seq<(string, string)>> {
    if b == "{}" then Some([])
    else if |b| > 0 && b[0] == '{' then ParseMembers(b[1..])
    else None
  }

  lemma ParseMemberOf(k: string, v: string, tail: string)
    ensures ParseMember(Quote(k) + ":" + Quote(v) + tail) == Some(((k, v), tail))
  {
    var s := Quote(k) + ":" + Quote(v) + tail;
    var afterKey := ":" + Quote(v) + tail;
    assert s[1..] == Escape(k) + "\"" + afterKey;
    ParseEscaped(k, afterKey);
    assert afterKey[2..] == Escape(v) + "\"" + tail;
    ParseEscaped(v, tail);
  }

  lemma {:induction false} ParseMembersOfMembers(fields: seq<(string, string)>)
    requires |fields| > 0
    ensures ParseMembers(Members(fields) + "}") == Some(fields)
    decreases |fields|
  {
    var tail := if |fields| == 1 then "}" else "," + Members(fields[1..]) + "}";
    assert Members(fields) + "}" == Quote(fields[0].0) + ":" + Quote(fields[0].1) + tail;
    ParseMemberOf(fields[0].0, fields[0].1, tail);
    if |fields| > 1 {
      assert tail[0] == ',' && tail != "}";
      assert tail[1..] == Members(fields[1..]) + "}";
      ParseMembersOfMembers(fields[1..]);
      assert [fields[0]] + fields[1..] == fields;
    } else {
      assert [fields[0]] == fields;
    }
  }

  /** Decoding an encoded object gives back the same members in the same
      order. */
  lemma ObjectRoundTrip(fields: seq<(string, string)>)
    ensures DecodeObject(EncodeObject(fields)) == Some(fields)
  {
    if |fields| > 0 {
      assert EncodeObject(fields)[1..] == Members(fields) + "}";
      ParseMembersOfMembers(fields);
    }
  }
}
