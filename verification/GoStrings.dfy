/** The byte-string operations the client relies on.  A Go string is a sequence of
    bytes; here each byte is a char below 256.  Case mapping of strings with bytes
    outside ASCII goes through Unicode tables and is a parameter. */
module GoStrings {

  predicate AsciiChar(c: char) {
    c < 128 as char
  }

  predicate Ascii(s: string) {
    forall i :: 0 <= i < |s| ==> AsciiChar(s[i])
  }

  /** Lower- and upper-casing of strings that are not ASCII. */
  datatype Fold = Fold(lower: string -> string, upper: string -> string)

  function LowerChar(c: char): char {
    if 'A' <= c <= 'Z' then (c as int + 32) as char else c
  }

  function UpperChar(c: char): char {
    if 'a' <= c <= 'z' then (c as int - 32) as char else c
  }

  function ToLower(f: Fold, s: string): string {
    if Ascii(s) then seq(|s|, i requires 0 <= i < |s| => LowerChar(s[i])) else f.lower(s)
  }

  function ToUpper(f: Fold, s: string): string {
    if Ascii(s) then seq(|s|, i requires 0 <= i < |s| => UpperChar(s[i])) else f.upper(s)
  }

  /** Position of the first occurrence of a byte, or -1. */
  function IndexByte(s: string, c: char): (r: int)
    ensures -1 <= r < |s|
    ensures r >= 0 ==> s[r] == c && c !in s[..r]
    ensures r < 0 ==> c !in s
  {
    if s == "" then -1
    else if s[0] == c then 0
    else
      var r := IndexByte(s[1..], c);
      if r < 0 then -1 else r + 1
  }

  lemma {:induction false} IndexByteAfter(s: string, c: char, rest: string)
    requires c !in s
    ensures IndexByte(s + [c] + rest, c) == |s|
  {
    if s != "" {
      IndexByteAfter(s[1..], c, rest);
      assert (s + [c] + rest)[1..] == s[1..] + [c] + rest;
      assert (s + [c] + rest)[0] == s[0];
    }
  }

  lemma {:induction false} IndexByteAbsent(s: string, c: char)
    requires c !in s
    ensures IndexByte(s, c) == -1
  {
    if s != "" {
      IndexByteAbsent(s[1..], c);
    }
  }

  function TrimLeft(s: string, cutset: string): (r: string)
    ensures |r| <= |s|
    ensures r != "" ==> r[0] !in cutset
  {
    if s == "" || s[0] !in cutset then s else TrimLeft(s[1..], cutset)
  }

  // ------------------------------------------------------------------- spaces

  predicate AsciiSpace(c: char) {
    c == ' ' || '\t' <= c <= '\r'
  }

  /** The two-byte encodings of the Unicode spaces U+0085 and U+00A0. */
  predicate Space2(a: char, b: char) {
    a == '\U{C2}' && (b == '\U{85}' || b == '\U{A0}')
  }

  /** The three-byte encodings of U+1680, U+2000 to U+200A, U+2028, U+2029,
      U+202F, U+205F and U+3000. */
  predicate Space3(a: char, b: char, c: char) {
    || (a == '\U{E1}' && b == '\U{9A}' && c == '\U{80}')
    || (a == '\U{E2}' && b == '\U{80}' && ('\U{80}' <= c <= '\U{8A}' || c == '\U{A8}' || c == '\U{A9}'
                                           || c == '\U{AF}'))
    || (a == '\U{E2}' && b == '\U{81}' && c == '\U{9F}')
    || (a == '\U{E3}' && b == '\U{80}' && c == '\U{80}')
  }

  /** The length of the space a string starts with, 0 if it starts with none. */
  function LeadingSpace(s: string): (n: nat)
    ensures n <= |s|
  {
    if |s| >= 1 && AsciiSpace(s[0]) then 1
    else if |s| >= 2 && Space2(s[0], s[1]) then 2
    else if |s| >= 3 && Space3(s[0], s[1], s[2]) then 3
    else 0
  }

  function TrailingSpace(s: string): (n: nat)
    ensures n <= |s|
  {
    var k := |s|;
    if k >= 1 && AsciiSpace(s[k - 1]) then 1
    else if k >= 2 && Space2(s[k - 2], s[k - 1]) then 2
    else if k >= 3 && Space3(s[k - 3], s[k - 2], s[k - 1]) then 3
    else 0
  }

  function TrimSpaceLeft(s: string): (r: string)
    ensures |r| <= |s|
    decreases |s|
  {
    if LeadingSpace(s) == 0 then s else TrimSpaceLeft(s[LeadingSpace(s)..])
  }

  function TrimSpaceRight(s: string): (r: string)
    ensures |r| <= |s|
    decreases |s|
  {
    if TrailingSpace(s) == 0 then s else TrimSpaceRight(s[..|s| - TrailingSpace(s)])
  }

  function TrimSpace(s: string): (r: string)
    ensures |r| <= |s|
  {
    TrimSpaceRight(TrimSpaceLeft(s))
  }

  /** Trimming takes off the front, down to what does not start with a space. */
  lemma {:induction false} TrimsFront(s: string)
    ensures TrimSpaceLeft(s) == s[|s| - |TrimSpaceLeft(s)|..]
    ensures LeadingSpace(TrimSpaceLeft(s)) == 0 && (TrimSpaceLeft(s) == s <==> LeadingSpace(s) == 0)
    decreases |s|
  {
    if LeadingSpace(s) > 0 {
      TrimsFront(s[LeadingSpace(s)..]);
    }
  }

  /** And off the back, down to what does not end with one. */
  lemma {:induction false} TrimsBack(s: string)
    ensures TrimSpaceRight(s) == s[..|TrimSpaceRight(s)|]
    ensures TrailingSpace(TrimSpaceRight(s)) == 0 && (TrimSpaceRight(s) == s <==> TrailingSpace(s) == 0)
    decreases |s|
  {
    if TrailingSpace(s) > 0 {
      TrimsBack(s[..|s| - TrailingSpace(s)]);
    }
  }

  /** ASCII and not a space: what trimming stops at. */
  predicate Solid(c: char) {
    AsciiChar(c) && !AsciiSpace(c)
  }

  lemma TrimSpaceSolid(s: string)
    requires s != "" && Solid(s[0]) && Solid(s[|s| - 1])
    ensures TrimSpace(s) == s
  {
    assert LeadingSpace(s) == 0;
    assert TrailingSpace(s) == 0;
  }

  // -------------------------------------------------------------- replacement

  predicate StartsWith(s: string, prefix: string) {
    |prefix| <= |s| && s[..|prefix|] == prefix
  }

  /** Replaces non-overlapping occurrences from the left. */
  function ReplaceAll(s: string, target: string, with: string): string
    requires target != ""
    decreases |s|
  {
    if s == "" then ""
    else if StartsWith(s, target) then with + ReplaceAll(s[|target|..], target, with)
    else [s[0]] + ReplaceAll(s[1..], target, with)
  }

  predicate Contains(s: string, part: string): (r: bool)
    ensures r <==> exists i :: 0 <= i <= |s| && StartsWith(s[i..], part)
  {
    assert s[0..] == s;
    assert forall i :: 0 < i <= |s| ==> s[i..] == s[1..][i - 1..];
    assert forall i :: 0 <= i < |s| ==> s[1..][i..] == s[i + 1..];
    StartsWith(s, part) || (s != "" && Contains(s[1..], part))
  }

  // --------------------------------------------------------------------- split

  /** The pieces of a string between occurrences of a separator byte. */
  function Split(s: string, sep: char): (parts: seq<string>)
    ensures |parts| > 0
  {
    if s == "" then [""]
    else
      var rest := Split(s[1..], sep);
      if s[0] == sep then [""] + rest else [[s[0]] + rest[0]] + rest[1..]
  }

  /** The pieces hold no separator and, joined by it, make up the string. */
  lemma {:induction false} SplitExact(s: string, sep: char)
    ensures Join(Split(s, sep), [sep]) == s
    ensures forall part :: part in Split(s, sep) ==> sep !in part
  {
    if s != "" {
      var rest, parts := Split(s[1..], sep), Split(s, sep);
      SplitExact(s[1..], sep);
      assert s == [s[0]] + s[1..];
      if s[0] == sep {
        assert parts[1..] == rest;
      } else {
        assert parts[1..] == rest[1..] && parts[0] == [s[0]] + rest[0];
        assert forall part :: part in rest[1..] ==> part in rest;
        JoinHead(s[0], rest, sep);
      }
    }
  }

  lemma JoinHead(c: char, rest: seq<string>, sep: char)
    requires rest != []
    ensures Join([[c] + rest[0]] + rest[1..], [sep]) == [c] + Join(rest, [sep])
  {
    var parts := [[c] + rest[0]] + rest[1..];
    assert parts[1..] == rest[1..];
    if |rest| > 1 {
      assert ([c] + rest[0]) + [sep] + Join(rest[1..], [sep]) == [c] + (rest[0] + [sep] + Join(rest[1..], [sep]));
    }
  }

  function Join(parts: seq<string>, sep: string): string {
    if parts == [] then ""
    else if |parts| == 1 then parts[0]
    else parts[0] + sep + Join(parts[1..], sep)
  }
}
