/** Identifiers in graph descriptions: bare, or quoted with escapes. */
module DotWriter {

  /** Every occurrence of the character `c` is replaced by `r`. */
  function Replace(s: string, c: char, r: string): string {
    if s == [] then [] else (if s[0] == c then r else [s[0]]) + Replace(s[1..], c, r)
  }

  /** The escape of a single character. */
  function EscapeChar(c: char): string {
    if c == '\\' then "\\\\"
    else if c == '\n' then "\\n"
    else if c == '\t' then "\\t"
    else if c == '"' then "\\\""
    else [c]
  }

  /** All characters escaped one by one. */
  function Escaped(s: string): string {
    if s == [] then [] else EscapeChar(s[0]) + Escaped(s[1..])
  }

  /** Four replacements, one after the other, between quotes. */
  method Escape(s: string) returns (t: string)
    ensures t == "\"" + Escaped(s) + "\""
  {
    t := Replace(s, '\\', "\\\\");
    t := Replace(t, '\n', "\\n");
    t := Replace(t, '\t', "\\t");
    t := Replace(t, '"', "\\\"");
    OnePass(s);
    t := "\"" + t + "\"";
  }

  lemma {:induction false} ReplaceFirst(s: string, c: char, r: string)
    requires s != []
    ensures Replace(s, c, r) == (if s[0] == c then r else [s[0]]) + Replace(s[1..], c, r)
  {
  }

  lemma {:induction false} ReplaceConcat(s: string, t: string, c: char, r: string)
    ensures Replace(s + t, c, r) == Replace(s, c, r) + Replace(t, c, r)
  {
    if s == [] {
      assert s + t == t;
    } else {
      ReplaceConcat(s[1..], t, c, r);
      ReplaceJoined(s, t, c, r);
    }
  }

  lemma {:induction false} ConcatRest(s: string, t: string)
    requires s != []
    ensures s + t != [] && (s + t)[0] == s[0] && (s + t)[1..] == s[1..] + t
  {
  }

  lemma {:induction false} ReplaceJoined(s: string, t: string, c: char, r: string)
    requires s != [] && Replace(s[1..] + t, c, r) == Replace(s[1..], c, r) + Replace(t, c, r)
    ensures Replace(s + t, c, r) == Replace(s, c, r) + Replace(t, c, r)
  {
    hide Replace;
    ConcatRest(s, t);
    ReplaceFirst(s, c, r);
    ReplaceFirst(s + t, c, r);
  }

  function InTurn(s: string): string {
    Replace(Replace(Replace(Replace(s, '\\', "\\\\"), '\n', "\\n"), '\t', "\\t"), '"', "\\\"")
  }

  lemma {:induction false} InTurnConcat(s: string, t: string)
    ensures InTurn(s + t) == InTurn(s) + InTurn(t)
  {
    ReplaceConcat(s, t, '\\', "\\\\");
    var s1, t1 := Replace(s, '\\', "\\\\"), Replace(t, '\\', "\\\\");
    ReplaceConcat(s1, t1, '\n', "\\n");
    var s2, t2 := Replace(s1, '\n', "\\n"), Replace(t1, '\n', "\\n");
    ReplaceConcat(s2, t2, '\t', "\\t");
    var s3, t3 := Replace(s2, '\t', "\\t"), Replace(t2, '\t', "\\t");
    ReplaceConcat(s3, t3, '"', "\\\"");
  }

  lemma {:induction false} ReplaceOne(x: char, c: char, r: string)
    ensures Replace([x], c, r) == if x == c then r else [x]
  {
    assert [x][1..] == [];
  }

  lemma {:induction false} ReplaceTwo(x: char, y: char, c: char, r: string)
    requires x != c && y != c
    ensures Replace([x, y], c, r) == [x, y]
  {
    ReplaceOne(y, c, r);
    assert [x, y][1..] == [y];
  }

  lemma {:induction false} InTurnOne(c: char)
    ensures InTurn([c]) == EscapeChar(c)
  {
    ReplaceOne(c, '\\', "\\\\");
    ReplaceOne(c, '\n', "\\n");
    ReplaceOne(c, '\t', "\\t");
    ReplaceOne(c, '"', "\\\"");
    ReplaceTwo('\\', '\\', '\n', "\\n");
    ReplaceTwo('\\', '\\', '\t', "\\t");
    ReplaceTwo('\\', '\\', '"', "\\\"");
    ReplaceTwo('\\', 'n', '\t', "\\t");
    ReplaceTwo('\\', 'n', '"', "\\\"");
    ReplaceTwo('\\', 't', '"', "\\\"");
  }

  /** The four replacements do not get into each other's way. */
  lemma {:induction false} OnePass(s: string)
    ensures InTurn(s) == Escaped(s)
  {
    if s != [] {
      OnePass(s[1..]);
      InTurnOne(s[0]);
      InTurnConcat([s[0]], s[1..]);
      assert s == [s[0]] + s[1..];
    }
  }

  // ----- reading identifiers back -----

  function UnescapeChar(c: char): char {
    if c == 'n' then '\n' else if c == 't' then '\t' else c
  }

  /** What is read up to the closing quote, and how many characters that takes: a backslash is taken
      together with the character behind it. */
  function Quoted(s: string): (string, nat) {
    if s == [] || s[0] == '"' then ([], 0)
    else if s[0] == '\\' && |s| > 1 then
      var (text, n) := Quoted(s[2..]);
      ([UnescapeChar(s[1])] + text, n + 2)
    else
      var (text, n) := Quoted(s[1..]);
      ([s[0]] + text, n + 1)
  }

  lemma {:induction false} QuotedPair(x: char, tail: string)
    ensures Quoted(['\\', x] + tail) == ([UnescapeChar(x)] + Quoted(tail).0, 2 + Quoted(tail).1)
  {
    assert (['\\', x] + tail)[2..] == tail;
  }

  lemma {:induction false} QuotedPlain(c: char, tail: string)
    requires c != '\\' && c != '"'
    ensures Quoted([c] + tail) == ([c] + Quoted(tail).0, 1 + Quoted(tail).1)
  {
    assert ([c] + tail)[1..] == tail;
  }

  lemma {:induction false} QuotedChar(c: char, tail: string)
    ensures Quoted(EscapeChar(c) + tail) == ([c] + Quoted(tail).0, |EscapeChar(c)| + Quoted(tail).1)
  {
    hide Quoted;
    if |EscapeChar(c)| == 2 {
      QuotedPair(EscapeChar(c)[1], tail);
      assert EscapeChar(c) == ['\\', EscapeChar(c)[1]];
    } else {
      QuotedPlain(c, tail);
    }
  }

  /** A quoted identifier ends exactly at its closing quote, whatever follows, and reads as the
      original text. */
  lemma {:induction false} RoundTrip(s: string, rest: string)
    ensures Quoted(Escaped(s) + "\"" + rest) == (s, |Escaped(s)|)
  {
    if s == [] {
      assert Escaped(s) + "\"" + rest == "\"" + rest;
    } else {
      hide Quoted, EscapeChar;
      RoundTrip(s[1..], rest);
      var tail := Escaped(s[1..]) + "\"" + rest;
      assert Escaped(s) + "\"" + rest == EscapeChar(s[0]) + tail;
      QuotedChar(s[0], tail);
      assert s == [s[0]] + s[1..];
    }
  }

  /** The quoted body has no line breaks and no tabs. */
  lemma {:induction false} NoControls(s: string)
    ensures '\n' !in Escaped(s) && '\t' !in Escaped(s)
  {
    if s != [] {
      NoControls(s[1..]);
    }
  }

  // ----- identifiers -----

  predicate AllOf(alnum: char -> bool, s: string) {
    s != [] && forall i :: 0 <= i < |s| ==> alnum(s[i])
  }

  /** Alphanumeric identifiers stay bare; all others, the empty one included, are quoted. */
  method Id(alnum: char -> bool, s: string) returns (t: string)
    ensures t == IdText(alnum, s)
    ensures s != "" && (forall i :: 0 <= i < |s| ==> alnum(s[i])) ==> t == s
    ensures s == "" || (exists i :: 0 <= i < |s| && !alnum(s[i])) ==> t == "\"" + Escaped(s) + "\""
  {
    if AllOf(alnum, s) {
      t := s;
    } else {
      t := Escape(s);
    }
  }

  function IdText(alnum: char -> bool, s: string): string {
    if AllOf(alnum, s) then s else "\"" + Escaped(s) + "\""
  }

  /** Reads an identifier from the front of a text. */
  function ReadId(alnum: char -> bool, s: string): string {
    if s != [] && s[0] == '"' then Quoted(s[1..]).0 else BareId(alnum, s)
  }

  function BareId(alnum: char -> bool, s: string): string {
    if s == [] || !alnum(s[0]) then [] else [s[0]] + BareId(alnum, s[1..])
  }

  lemma {:induction false} BareIdRead(alnum: char -> bool, s: string, rest: string)
    requires (forall i :: 0 <= i < |s| ==> alnum(s[i])) && (rest == [] || !alnum(rest[0]))
    ensures BareId(alnum, s + rest) == s
  {
    if s == [] {
      assert s + rest == rest;
    } else {
      BareIdRead(alnum, s[1..], rest);
      assert (s + rest)[1..] == s[1..] + rest;
      assert s == [s[0]] + s[1..];
    }
  }

  /** An identifier that is followed by anything but an alphanumeric character reads back as the text
      that it was written for. */
  lemma {:induction false} IdReadBack(alnum: char -> bool, s: string, rest: string)
    requires !alnum('"') && (rest == [] || !alnum(rest[0]))
    ensures ReadId(alnum, IdText(alnum, s) + rest) == s
  {
    hide Quoted, Escaped, BareId;
    var t := IdText(alnum, s) + rest;
    if AllOf(alnum, s) {
      BareIdRead(alnum, s, rest);
    } else {
      assert t[1..] == Escaped(s) + "\"" + rest;
      RoundTrip(s, rest);
    }
  }

  /** An identifier is bare exactly if its text is not empty and alphanumeric. */
  lemma {:induction false} BareIff(alnum: char -> bool, s: string)
    ensures IdText(alnum, s) == s <==> s != "" && forall i :: 0 <= i < |s| ==> alnum(s[i])
  {
    EscapedLonger(s);
  }

  lemma {:induction false} EscapedLonger(s: string)
    ensures |Escaped(s)| >= |s|
  {
    if s != [] {
      EscapedLonger(s[1..]);
    }
  }

  /** Different texts get different identifiers, across the bare and the quoted form. */
  lemma {:induction false} IdInjective(alnum: char -> bool, s: string, t: string)
    requires !alnum('"')
    ensures IdText(alnum, s) == IdText(alnum, t) <==> s == t
  {
    IdReadBack(alnum, s, []);
    IdReadBack(alnum, t, []);
    assert IdText(alnum, s) + [] == IdText(alnum, s) && IdText(alnum, t) + [] == IdText(alnum, t);
  }
}
