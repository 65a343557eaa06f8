/** The parameter list of an HTTP Digest header: the hand-written reader, the
    escaping writer, and how they undo each other.  Quoted strings follow section
    5.6.4 of RFC 9110. */
module DigestParams {
  import opened Basics
  import opened GoStrings

  // ------------------------------------------------------------------- writer

  function EscapeChar(c: char): string {
    if c == '\\' then "\\\\" else if c == '"' then "\\\"" else [c]
  }

  function Escape(s: string): string {
    if s == "" then "" else EscapeChar(s[0]) + Escape(s[1..])
  }

  /** A parameter as written: quoted and escaped, quoted as it is, or a bare token. */
  datatype Param =
    | Quoted(key: string, value: string)
    | Verbatim(key: string, value: string)
    | Token(key: string, value: string)

  /** What follows the equals sign of a parameter. */
  function ValueText(p: Param): string {
    match p
    case Quoted(_, value) => "\"" + Escape(value) + "\""
    case Verbatim(_, value) => "\"" + value + "\""
    case Token(_, value) => value
  }

  function Text(p: Param): string {
    p.key + "=" + ValueText(p)
  }

  function Render(ps: seq<Param>): string {
    if ps == [] then ""
    else if |ps| == 1 then Text(ps[0])
    else Text(ps[0]) + ", " + Render(ps[1..])
  }

  // ------------------------------------------------------------------- reader

  const CUTSET := " ,\t"

  /** A byte turned into a string on its own: bytes from 0x80 up become two. */
  function ByteText(c: char): string {
    if AsciiChar(c) then [c]
    else [(0xC0 + c as int / 64) as char, (0x80 + c as int % 64) as char]
  }

  /** The decoded text up to the closing quote, and what follows it. */
  datatype Unquoted = Unquoted(text: string, rest: string)

  function Prepend(text: string, u: Option<Unquoted>): Option<Unquoted> {
    match u
    case None => None
    case Some(v) => Some(Unquoted(text + v.text, v.rest))
  }

  lemma PrependTwice(a: string, b: string, u: Option<Unquoted>)
    ensures Prepend("", u) == u
    ensures Prepend(a, Prepend(b, u)) == Prepend(a + b, u)
  {
    if u.Some? {
      assert "" + u.value.text == u.value.text;
      assert a + (b + u.value.text) == (a + b) + u.value.text;
    }
  }

  function Unquote(s: string, escaped: bool): (u: Option<Unquoted>)
    ensures u.Some? ==> |u.value.rest| < |s|
  {
    if s == "" then None
    else if escaped then Prepend(ByteText(s[0]), Unquote(s[1..], false))
    else if s[0] == '\\' then Unquote(s[1..], true)
    else if s[0] == '"' then Some(Unquoted("", s[1..]))
    else Prepend(ByteText(s[0]), Unquote(s[1..], false))
  }

  /** One parameter: its key, its value and the input after it. */
  datatype Step = Step(key: string, value: string, rest: string)

  /** Reads one parameter from input that has been trimmed on the left. */
  function ReadParam(f: Fold, v: string): (r: Option<Step>)
    ensures r.Some? ==> |r.value.rest| < |v|
  {
    var equal := IndexByte(v, '=');
    if equal < 1 then None
    else
      var key := ToLower(f, TrimSpace(v[..equal]));
      var value := TrimSpace(v[equal + 1..]);
      if value == "" then None else ReadValue(key, value)
  }

  /** Reads a value, quoted or up to the next comma. */
  function ReadValue(key: string, value: string): (r: Option<Step>)
    requires value != ""
    ensures r.Some? ==> |r.value.rest| <= |value|
  {
    if value[0] == '"' then
      match Unquote(value[1..], false)
      case None => None
      case Some(u) => Some(Step(key, u.text, u.rest))
    else
      var index := IndexByte(value, ',');
      if index < 0 then Some(Step(key, TrimSpace(value), ""))
      else Some(Step(key, TrimSpace(value[..index]), value[index..]))
  }

  /** Reads parameters until the input is used up or one cannot be read. */
  function ReadParams(f: Fold, s: string, values: map<string, string>): map<string, string>
    decreases |s|
  {
    if s == "" then values
    else
      match ReadParam(f, TrimLeft(s, CUTSET))
      case None => values
      case Some(step) => ReadParams(f, step.rest, values[step.key := step.value])
  }

  /** The reader as a loop over the remaining input.  Every round shortens it, so
      it ends on every input without reading outside it. */
  method ParseDigestValues(f: Fold, input: string) returns (values: map<string, string>)
    ensures values == ReadParams(f, input, map[])
  {
    values := map[];
    var value := input;
    while |value| > 0
      invariant ReadParams(f, value, values) == ReadParams(f, input, map[])
      decreases |value|
    {
      value := TrimLeft(value, CUTSET);
      ghost var step := ReadParam(f, value);
      var equal := IndexByte(value, '=');
      if equal < 1 {
        return;
      }
      var key := ToLower(f, TrimSpace(value[..equal]));
      value := TrimSpace(value[equal + 1..]);
      if value == "" {
        return;
      }
      var result := "";
      if value[0] == '"' {
        value := value[1..];
        var index: int;
        index, result := ScanQuoted(value);
        if index == |value| {
          return;
        }
        value := value[index + 1..];
      } else {
        var index := IndexByte(value, ',');
        if index < 0 {
          result, value := TrimSpace(value), "";
        } else {
          result, value := TrimSpace(value[..index]), value[index..];
        }
      }
      assert step == Some(Step(key, result, value));
      values := values[key := result];
    }
  }

  /** The inner loop: decodes up to the closing quote, or to the end without one. */
  method ScanQuoted(value: string) returns (index: nat, result: string)
    ensures index <= |value|
    ensures index == |value| <==> Unquote(value, false).None?
    ensures index < |value| ==> Unquote(value, false) == Some(Unquoted(result, value[index + 1..]))
  {
    result := "";
    index := 0;
    var escaped := false;
    assert value[0..] == value;
    PrependTwice("", "", Unquote(value, false));
    while index < |value|
      invariant index <= |value|
      invariant Unquote(value, false) == Prepend(result, Unquote(value[index..], escaped))
    {
      assert value[index..][1..] == value[index + 1..];
      PrependTwice(result, ByteText(value[index]), Unquote(value[index + 1..], false));
      if escaped {
        result := result + ByteText(value[index]);
        escaped := false;
      } else if value[index] == '\\' {
        escaped := true;
      } else if value[index] == '"' {
        assert result + "" == result;
        return;
      } else {
        result := result + ByteText(value[index]);
      }
      index := index + 1;
    }
  }

  // --------------------------------------------------------------- round trips

  /** A string as the reader gives it back: every byte re-encoded on its own. */
  function Reencode(s: string): string {
    if s == "" then "" else ByteText(s[0]) + Reencode(s[1..])
  }

  /** The reader gives a value back unchanged exactly when it is ASCII. */
  lemma {:induction false} ReencodeIff(s: string)
    ensures |Reencode(s)| >= |s|
    ensures Reencode(s) == s <==> Ascii(s)
  {
    if s != "" {
      ReencodeIff(s[1..]);
      assert s == [s[0]] + s[1..];
      if AsciiChar(s[0]) {
        assert Reencode(s)[1..] == Reencode(s[1..]);
      } else {
        assert |Reencode(s)| > |s|;
      }
    }
  }

  /** Decoding undoes escaping, whatever follows the closing quote. */
  lemma {:induction false} UnquoteEscape(s: string, rest: string)
    ensures Unquote(Escape(s) + (['"'] + rest), false) == Some(Unquoted(Reencode(s), rest))
  {
    var closing := ['"'] + rest;
    if s == "" {
      assert Escape(s) + closing == closing;
      assert closing[1..] == rest;
    } else {
      UnquoteEscape(s[1..], rest);
      UnquoteOne(s[0], Escape(s[1..]) + closing);
      Associate(EscapeChar(s[0]), Escape(s[1..]), closing);
    }
  }

  lemma UnquoteOne(c: char, tail: string)
    ensures Unquote(EscapeChar(c) + tail, false) == Prepend(ByteText(c), Unquote(tail, false))
  {
    if c == '\\' || c == '"' {
      var all := ['\\', c] + tail;
      assert all[1..] == [c] + tail && all[1..][1..] == tail;
    } else {
      assert ([c] + tail)[1..] == tail;
    }
  }

  lemma {:induction false} EscapeNothing(s: string)
    requires '"' !in s && '\\' !in s
    ensures Escape(s) == s
  {
    if s != "" {
      EscapeNothing(s[1..]);
      assert s == [s[0]] + s[1..];
    }
  }

  /** A byte that may appear in a token here. */
  predicate TokenChar(c: char) {
    Solid(c) && c != '=' && c != ',' && c != '"'
  }

  predicate IsToken(s: string) {
    s != "" && forall i :: 0 <= i < |s| ==> TokenChar(s[i])
  }

  predicate IsKey(s: string) {
    IsToken(s) && forall i :: 0 <= i < |s| ==> !('A' <= s[i] <= 'Z')
  }

  /** A parameter the writer may be given: quoted values may hold any byte. */
  predicate WellFormed(p: Param) {
    && IsKey(p.key)
    && (p.Verbatim? ==> '"' !in p.value && '\\' !in p.value)
    && (p.Token? ==> IsToken(p.value))
  }

  predicate AllWellFormed(ps: seq<Param>) {
    forall i :: 0 <= i < |ps| ==> WellFormed(ps[i])
  }

  /** What the reader makes of a parameter's value. */
  function ValueOf(p: Param): string {
    if p.Token? then p.value else Reencode(p.value)
  }

  /** The map in which the last parameter of each key wins. */
  function LastWins(ps: seq<Param>, values: map<string, string>): map<string, string> {
    if ps == [] then values
    else LastWins(ps[1..], values[ps[0].key := ValueOf(ps[0])])
  }

  lemma ValueTextSolid(p: Param)
    requires WellFormed(p)
    ensures ValueText(p) != "" && Solid(ValueText(p)[0]) && Solid(ValueText(p)[|ValueText(p)| - 1])
  {
  }

  lemma {:induction false} RenderEnds(ps: seq<Param>)
    requires ps != [] && AllWellFormed(ps)
    ensures Render(ps) != ""
    ensures TokenChar(Render(ps)[0])
    ensures Solid(Render(ps)[|Render(ps)| - 1])
  {
    ValueTextSolid(ps[0]);
    if |ps| > 1 {
      RenderEnds(ps[1..]);
    }
  }

  lemma LowerKey(f: Fold, key: string)
    requires IsKey(key)
    ensures ToLower(f, TrimSpace(key)) == key
  {
    TrimSpaceSolid(key);
  }

  /** Reading a key, an equals sign and a value that needs no trimming. */
  lemma ReadKeyed(f: Fold, key: string, value: string)
    requires IsKey(key)
    requires value != "" && Solid(value[0]) && Solid(value[|value| - 1])
    ensures ReadParam(f, key + "=" + value) == ReadValue(key, value)
  {
    var v := key + "=" + value;
    IndexByteAfter(key, '=', value);
    assert v[..|key|] == key && v[|key| + 1..] == value;
    LowerKey(f, key);
    TrimSpaceSolid(value);
  }

  ghost predicate Follower(rest: string) {
    rest == "" || (rest[0] == ',' && Solid(rest[|rest| - 1]))
  }

  lemma ReadQuotedOne(f: Fold, key: string, value: string, rest: string)
    requires IsKey(key) && Follower(rest)
    ensures ReadParam(f, key + "=" + (['"'] + (Escape(value) + (['"'] + rest))))
        == Some(Step(key, Reencode(value), rest))
  {
    var inner := Escape(value) + (['"'] + rest);
    var text := ['"'] + inner;
    assert Solid((['"'] + rest)[|rest|]);
    assert text[|text| - 1] == (['"'] + rest)[|rest|];
    assert text[1..] == inner;
    ReadKeyed(f, key, text);
    UnquoteEscape(value, rest);
  }

  lemma Regroup(key: string, equal: string, quote: string, body: string, rest: string)
    ensures key + equal + (quote + body + quote) + rest == key + equal + (quote + (body + (quote + rest)))
    ensures key + equal + body + rest == key + equal + (body + rest)
  {
  }

  lemma ReadTokenOne(f: Fold, key: string, value: string, rest: string)
    requires IsKey(key) && IsToken(value) && Follower(rest)
    ensures ReadParam(f, key + "=" + (value + rest)) == Some(Step(key, value, rest))
  {
    var text := value + rest;
    assert text[|text| - 1] == if rest == "" then value[|value| - 1] else rest[|rest| - 1];
    assert text[0] == value[0];
    ReadKeyed(f, key, text);
    ReadToken(value, rest);
  }

  /** Reading one parameter, followed by nothing or by a comma. */
  lemma ReadOne(f: Fold, p: Param, rest: string)
    requires WellFormed(p) && Follower(rest)
    ensures ReadParam(f, Text(p) + rest) == Some(Step(p.key, ValueOf(p), rest))
  {
    if p.Token? {
      ReadTokenOne(f, p.key, p.value, rest);
      Regroup(p.key, "=", "\"", p.value, rest);
    } else {
      if p.Verbatim? {
        EscapeNothing(p.value);
      }
      ReadQuotedOne(f, p.key, p.value, rest);
      Regroup(p.key, "=", "\"", Escape(p.value), rest);
    }
  }

  lemma ReadToken(token: string, rest: string)
    requires IsToken(token)
    requires rest == "" || rest[0] == ','
    ensures
      var value := token + rest;
      && TrimSpace(token) == token
      && IndexByte(value, ',') == (if rest == "" then -1 else |token|)
      && value[..|token|] == token && value[|token|..] == rest
      && (rest == "" ==> value == token)
  {
    TrimSpaceSolid(token);
    if rest == "" {
      IndexByteAbsent(token, ',');
      assert token + rest == token;
    } else {
      IndexByteAfter(token, ',', rest[1..]);
      assert token + [','] + rest[1..] == token + rest;
    }
  }

  lemma TrimSeparator(s: string)
    requires s != "" && s[0] !in CUTSET
    ensures TrimLeft(", " + s, CUTSET) == s && TrimLeft(s, CUTSET) == s
  {
    var spaced, separated := " " + s, ", " + s;
    assert CUTSET[0] == ' ' && CUTSET[1] == ',';
    assert separated[0] in CUTSET && separated[1..] == spaced;
    assert spaced[0] in CUTSET && spaced[1..] == s;
    assert TrimLeft(separated, CUTSET) == TrimLeft(spaced, CUTSET) == TrimLeft(s, CUTSET);
  }

  lemma ReadSeparated(f: Fold, s: string, values: map<string, string>)
    requires s != "" && s[0] !in CUTSET
    ensures ReadParams(f, ", " + s, values) == ReadParams(f, s, values)
  {
    TrimSeparator(s);
  }

  lemma TextStarts(p: Param, rest: string)
    requires WellFormed(p)
    ensures Text(p) + rest != "" && TrimLeft(Text(p) + rest, CUTSET) == Text(p) + rest
  {
    assert TokenChar(p.key[0]);
    assert (Text(p) + rest)[0] == p.key[0];
    assert p.key[0] !in CUTSET;
  }

  /** One round of the reader on a written parameter. */
  lemma ReadRound(f: Fold, p: Param, rest: string, values: map<string, string>)
    requires WellFormed(p) && Follower(rest)
    ensures ReadParams(f, Text(p) + rest, values) == ReadParams(f, rest, values[p.key := ValueOf(p)])
  {
    TextStarts(p, rest);
    ReadOne(f, p, rest);
  }

  /** A round on a parameter that others follow. */
  lemma ReadRoundThenMore(f: Fold, p: Param, more: string, values: map<string, string>)
    requires WellFormed(p) && more != "" && more[0] !in CUTSET && Solid(more[|more| - 1])
    ensures ReadParams(f, Text(p) + ", " + more, values) == ReadParams(f, more, values[p.key := ValueOf(p)])
  {
    var rest := ", " + more;
    assert rest[|rest| - 1] == more[|more| - 1];
    ReadRound(f, p, rest, values);
    Associate(Text(p), ", ", more);
    ReadSeparated(f, more, values[p.key := ValueOf(p)]);
  }

  /** Reading back a written parameter list gives, for each key, the last value
      written for it; a quoted value comes back re-encoded byte by byte. */
  lemma {:induction false} ReadRender(f: Fold, ps: seq<Param>, values: map<string, string>)
    requires ps != [] && AllWellFormed(ps)
    ensures ReadParams(f, Render(ps), values) == LastWins(ps, values)
  {
    if |ps| == 1 {
      ReadRound(f, ps[0], "", values);
      assert Text(ps[0]) + "" == Render(ps);
      assert ps[1..] == [];
    } else {
      RenderEnds(ps[1..]);
      ReadRoundThenMore(f, ps[0], Render(ps[1..]), values);
      ReadRender(f, ps[1..], values[ps[0].key := ValueOf(ps[0])]);
    }
  }
}
