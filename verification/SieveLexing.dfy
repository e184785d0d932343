/** Lexing generated text gives back the intended tokens. */
module SieveLexing {
  import opened Text
  import opened SieveLanguage
  import opened SieveCompiler

  ghost predicate SpellsBefore(text: string, tokens: seq<Token>, rest: string) {
    Lex(text + rest) == Prepend(tokens, Lex(rest))
  }

  /** Whatever follows it, `text` lexes to exactly `tokens`. */
  ghost predicate Spells(text: string, tokens: seq<Token>) {
    forall rest: string :: SpellsBefore(text, tokens, rest)
  }

  lemma PrependTwice<T>(a: seq<T>, b: seq<T>, r: Option<seq<T>>)
    ensures Prepend(a, Prepend(b, r)) == Prepend(a + b, r)
  {
    if r.Some? {
      assert a + (b + r.value) == a + b + r.value;
    }
  }

  lemma CatBefore(a: string, s: seq<Token>, b: string, t: seq<Token>, rest: string)
    requires SpellsBefore(a, s, b + rest) && SpellsBefore(b, t, rest)
    ensures SpellsBefore(a + b, s + t, rest)
  {
    assert a + b + rest == a + (b + rest);
    PrependTwice(s, t, Lex(rest));
  }

  lemma SpellsCat(a: string, s: seq<Token>, b: string, t: seq<Token>)
    requires Spells(a, s) && Spells(b, t)
    ensures Spells(a + b, s + t)
  {
    forall rest: string ensures SpellsBefore(a + b, s + t, rest) {
      assert SpellsBefore(a, s, b + rest) && SpellsBefore(b, t, rest);
      CatBefore(a, s, b, t, rest);
    }
  }

  lemma SpellsOne(text: string, t: Token)
    requires forall rest: string :: LexOne(text + rest) == Got(t, rest)
    ensures Spells(text, [t])
  {
    forall rest: string ensures SpellsBefore(text, [t], rest) {
      assert LexOne(text + rest) == Got(t, rest);
    }
  }

  lemma SpellsBlank(text: string)
    requires forall rest: string :: LexOne(text + rest) == LexOne(rest)
    ensures Spells(text, [])
  {
    forall rest: string ensures SpellsBefore(text, [], rest) {
      assert LexOne(text + rest) == LexOne(rest);
      if Lex(rest).Some? {
        assert [] + Lex(rest).value == Lex(rest).value;
      }
    }
  }

  /** A token that ends where `tail` begins, followed by `tail`. */
  lemma SpellsUpTo(w: string, t: Token, tail: string, ts: seq<Token>)
    requires forall rest: string :: LexOne(w + (tail + rest)) == Got(t, tail + rest)
    requires Spells(tail, ts)
    ensures Spells(w + tail, [t] + ts)
  {
    forall rest: string ensures SpellsBefore(w + tail, [t] + ts, rest) {
      assert w + tail + rest == w + (tail + rest);
      assert LexOne(w + (tail + rest)) == Got(t, tail + rest);
      assert SpellsBefore(tail, ts, rest);
      PrependTwice([t], ts, Lex(rest));
    }
  }

  lemma Space()
    ensures Spells(" ", []) && Spells("\n", []) && Spells("  ", [])
  {
    SpellsBlank(" ");
    SpellsBlank("\n");
    var none: seq<Token> := [];
    SpellsCat(" ", none, " ", none);
    assert " " + " " == "  ";
    assert none + none == none;
  }

  lemma Punct(c: char)
    requires Punctuation(c).Some?
    ensures Spells([c], [Punctuation(c).value])
  {
    SpellsOne([c], Punctuation(c).value);
  }

  // ----- words, tags and numbers end at a blank or a semicolon -----

  lemma {:induction false} IdentSpan(w: string, rest: string)
    requires forall c :: c in w ==> IsIdentChar(c)
    requires rest != "" && !IsIdentChar(rest[0])
    ensures IdentEnd(w + rest) == |w|
  {
    if w == "" {
      assert w + rest == rest;
    } else {
      assert (w + rest)[1..] == w[1..] + rest;
      IdentSpan(w[1..], rest);
    }
  }

  ghost predicate IsWord(w: string) {
    w != "" && IsIdentStart(w[0]) && (forall c :: c in w ==> IsIdentChar(c) && LowerChar(c) == c)
  }

  lemma LowerFixed(w: string)
    requires forall c :: c in w ==> LowerChar(c) == c
    ensures Lower(w) == w
  {
  }

  lemma WordBefore(w: string, tail: string)
    requires IsWord(w) && w != "text" && tail != "" && !IsIdentChar(tail[0])
    ensures LexOne(w + tail) == Got(Ident(w), tail)
  {
    LowerFixed(w);
    IdentSpan(w, tail);
    assert (w + tail)[..|w|] == w && (w + tail)[|w|..] == tail;
  }

  lemma Word(w: string)
    requires IsWord(w) && w != "text"
    ensures Spells(w + " ", [Ident(w)]) && Spells(w + ";", [Ident(w), Semicolon])
  {
    Space();
    Punct(';');
    forall rest: string ensures LexOne(w + (" " + rest)) == Got(Ident(w), " " + rest) {
      WordBefore(w, " " + rest);
    }
    forall rest: string ensures LexOne(w + (";" + rest)) == Got(Ident(w), ";" + rest) {
      WordBefore(w, ";" + rest);
    }
    SpellsUpTo(w, Ident(w), " ", []);
    SpellsUpTo(w, Ident(w), ";", [Semicolon]);
    assert [Ident(w)] + [] == [Ident(w)];
    assert [Ident(w)] + [Semicolon] == [Ident(w), Semicolon];
  }

  lemma TagBefore(w: string, tail: string)
    requires IsWord(w) && tail != "" && !IsIdentChar(tail[0])
    ensures LexOne(":" + w + tail) == Got(Tag(w), tail)
  {
    var s := ":" + w + tail;
    LowerFixed(w);
    IdentSpan(w, tail);
    assert s[0] == ':' && s[1..] == w + tail;
    assert (w + tail)[0] == w[0];
    assert (w + tail)[..|w|] == w && (w + tail)[|w|..] == tail;
  }

  lemma TagWord(w: string)
    requires IsWord(w)
    ensures Spells(":" + w + " ", [Tag(w)])
  {
    Space();
    forall rest: string ensures LexOne(":" + w + (" " + rest)) == Got(Tag(w), " " + rest) {
      TagBefore(w, " " + rest);
    }
    SpellsUpTo(":" + w, Tag(w), " ", []);
    assert [Tag(w)] + [] == [Tag(w)];
  }

  lemma {:induction false} DigitSpan(w: string, rest: string)
    requires forall c :: c in w ==> IsDigit(c)
    requires rest != "" && !IsDigit(rest[0])
    ensures DigitEnd(w + rest) == |w|
  {
    if w == "" {
      assert w + rest == rest;
    } else {
      assert (w + rest)[1..] == w[1..] + rest;
      DigitSpan(w[1..], rest);
    }
  }

  lemma NumeralBefore(n: nat, tail: string)
    requires tail != "" && !IsDigit(tail[0])
    ensures LexOne(Decimal(n) + tail) == Got(Num(n), tail)
  {
    var w := Decimal(n);
    NumberDecimal(n);
    DigitSpan(w, tail);
    assert (w + tail)[..|w|] == w && (w + tail)[|w|..] == tail;
    assert (w + tail)[0] == w[0] && w[0] in w;
  }

  lemma Numeral(n: nat)
    ensures Spells(Decimal(n) + " ", [Num(n)])
  {
    Space();
    forall rest: string ensures LexOne(Decimal(n) + (" " + rest)) == Got(Num(n), " " + rest) {
      NumeralBefore(n, " " + rest);
    }
    SpellsUpTo(Decimal(n), Num(n), " ", []);
    assert [Num(n)] + [] == [Num(n)];
  }

  // ----- comments -----

  lemma {:induction false} AfterLineSkips(line: string, rest: string)
    requires '\n' !in line
    ensures AfterLine(line + "\n" + rest) == rest
  {
    if line != "" {
      assert (line + "\n" + rest)[1..] == line[1..] + "\n" + rest;
      AfterLineSkips(line[1..], rest);
    }
  }

  lemma Comment(line: string)
    requires '\n' !in line && line != "" && line[0] == '#'
    ensures Spells(line + "\n", [])
  {
    forall rest: string ensures LexOne(line + "\n" + rest) == LexOne(rest) {
      AfterLineSkips(line, rest);
    }
    SpellsBlank(line + "\n");
  }

  // ----- quoted strings -----

  lemma {:induction false} ReplaceCat(a: string, b: string, c: char, put: string)
    ensures ReplaceChar(a + b, c, put) == ReplaceChar(a, c, put) + ReplaceChar(b, c, put)
  {
    if a == "" {
      assert a + b == b;
    } else {
      assert (a + b)[1..] == a[1..] + b;
      ReplaceCat(a[1..], b, c, put);
    }
  }

  function Escaped(s: string): string {
    ReplaceChar(ReplaceChar(s, '\\', "\\\\"), '"', "\\\"")
  }

  function EscapedChar(c: char): string {
    if c == '\\' || c == '"' then ['\\', c] else [c]
  }

  lemma EscapedStep(s: string)
    requires s != ""
    ensures Escaped(s) == EscapedChar(s[0]) + Escaped(s[1..])
  {
    var c := s[0];
    var first := if c == '\\' then "\\\\" else [c];
    assert ReplaceChar(s, '\\', "\\\\") == first + ReplaceChar(s[1..], '\\', "\\\\");
    ReplaceCat(first, ReplaceChar(s[1..], '\\', "\\\\"), '"', "\\\"");
    assert ReplaceChar(first, '"', "\\\"") == EscapedChar(c) by {
      if c == '\\' {
        assert first[1..] == "\\" && first[1..][1..] == "";
      } else {
        assert first[1..] == "";
      }
    }
  }

  /** Section 2.4.2: reading a quoted string back gives the string, and stops exactly at its closing quote. */
  lemma {:induction false} QuotedRoundTrip(s: string, rest: string)
    ensures LexQuoted(Escaped(s) + "\"" + rest) == Some((s, rest))
  {
    if s == "" {
      assert Escaped(s) + "\"" + rest == "\"" + rest;
    } else {
      EscapedStep(s);
      QuotedRoundTrip(s[1..], rest);
      var tail := Escaped(s[1..]) + "\"" + rest;
      assert Escaped(s) + "\"" + rest == EscapedChar(s[0]) + tail;
      if s[0] == '\\' || s[0] == '"' {
        assert (EscapedChar(s[0]) + tail)[2..] == tail;
      } else {
        assert (EscapedChar(s[0]) + tail)[1..] == tail;
      }
      assert [s[0]] + s[1..] == s;
    }
  }

  lemma QuotedSpells(s: string)
    ensures Spells(Quoted(s), [Str(s)])
  {
    forall rest: string ensures LexOne(Quoted(s) + rest) == Got(Str(s), rest) {
      QuotedRoundTrip(s, rest);
      assert Quoted(s) + rest == "\"" + (Escaped(s) + "\"" + rest);
    }
    SpellsOne(Quoted(s), Str(s));
  }

  // ----- multi-line strings -----

  /** No line of the body can be read as the terminator, and reading it back removes exactly the added dot. */
  lemma StuffedLine(line: string)
    ensures StuffLine(line) != "." && Unstuff(StuffLine(line)) == line
    ensures '\n' !in line ==> '\n' !in StuffLine(line)
  {
  }

  lemma {:induction false} LineEndAt(line: string, rest: string)
    requires '\n' !in line
    ensures LineEnd(line + "\n" + rest) == |line|
  {
    if line != "" {
      assert (line + "\n" + rest)[1..] == line[1..] + "\n" + rest;
      LineEndAt(line[1..], rest);
    }
  }

  lemma OneLine(line: string, rest: string)
    requires '\n' !in line
    ensures LexLines(StuffLine(line) + "\n" + rest)
         == match LexLines(rest) case None => None case Some((v, after)) => Some((line + "\n" + v, after))
  {
    StuffedLine(line);
    var s := StuffLine(line) + "\n" + rest;
    LineEndAt(StuffLine(line), rest);
    assert s[..|StuffLine(line)|] == StuffLine(line);
    assert s[|StuffLine(line)| + 1..] == rest;
  }

  lemma LastLine(rest: string)
    ensures LexLines(".\n" + rest) == Some(("", rest))
  {
    var dot := ".\n" + rest;
    assert dot == "." + "\n" + rest;
    LineEndAt(".", rest);
    assert dot[..1] == "." && dot[2..] == rest;
  }

  lemma {:induction false} LinesRoundTrip(lines: seq<string>, rest: string)
    requires |lines| >= 1 && forall i :: 0 <= i < |lines| ==> '\n' !in lines[i]
    ensures LexLines(Join(StuffLines(lines), "\n") + "\n" + (".\n" + rest)) == Some((Join(lines, "\n") + "\n", rest))
  {
    var dot := ".\n" + rest;
    if |lines| == 1 {
      LastLine(rest);
      OneLine(lines[0], dot);
      assert lines[0] + "\n" + "" == lines[0] + "\n";
    } else {
      var tail := Join(StuffLines(lines[1..]), "\n");
      assert StuffLines(lines)[1..] == StuffLines(lines[1..]);
      assert Join(StuffLines(lines), "\n") + "\n" + dot == StuffLine(lines[0]) + "\n" + (tail + "\n" + dot);
      OneLine(lines[0], tail + "\n" + dot);
      LinesRoundTrip(lines[1..], rest);
      var joined := Join(lines[1..], "\n");
      assert lines[0] + "\n" + (joined + "\n") == (lines[0] + "\n" + joined) + "\n";
    }
  }

  lemma TextWord(tail: string)
    requires tail != "" && tail[0] == ':'
    ensures LexWord("text" + tail)
         == match LexMultiline(tail[1..]) case None => Bad case Some((v, rest)) => Got(Str(v), rest)
  {
    var s := "text" + tail;
    IdentSpan("text", tail);
    LowerFixed("text");
    assert s[..4] == "text" && s[4] == ':' && s[5..] == tail[1..];
  }

  lemma TextBlock(block: string)
    ensures LexOne("text:\n" + block)
         == match LexLines(block) case None => Bad case Some((v, rest)) => Got(Str(v), rest)
  {
    var tail := ":\n" + block;
    var s := "text" + tail;
    assert "text:\n" + block == s;
    assert s[0] == 't';
    assert LexOne(s) == LexWord(s);
    TextWord(tail);
    var line := tail[1..];
    assert line[0] == '\n' && line[1..] == block;
    assert LexMultiline(line) == LexLines(block);
  }

  lemma MultilineParts(joined: string, rest: string)
    ensures "text:\n" + joined + "\n.\n" + rest == "text:\n" + (joined + "\n" + (".\n" + rest))
  {
  }

  /** Reading a `text:` block back gives the newline-normalised body, closed by a line end, and nothing after the dot. */
  lemma MultilineRoundTrip(body: string, rest: string)
    ensures LexOne(Multiline(body) + rest) == Got(Str(NormalizeNewlines(body) + "\n"), rest)
  {
    var t := NormalizeNewlines(body);
    var lines := SplitOn(t, '\n');
    var joined := Join(StuffLines(lines), "\n");
    MultilineParts(joined, rest);
    TextBlock(joined + "\n" + (".\n" + rest));
    MultilineLines(t, rest);
  }

  lemma MultilineLines(t: string, rest: string)
    ensures LexLines(Join(StuffLines(SplitOn(t, '\n')), "\n") + "\n" + (".\n" + rest)) == Some((t + "\n", rest))
  {
    LinesRoundTrip(SplitOn(t, '\n'), rest);
    JoinSplit(t, '\n');
  }

  lemma MultilineSpells(body: string)
    ensures Spells(Multiline(body), [Str(NormalizeNewlines(body) + "\n")])
  {
    forall rest: string
      ensures LexOne(Multiline(body) + rest) == Got(Str(NormalizeNewlines(body) + "\n"), rest)
    {
      MultilineRoundTrip(body, rest);
    }
    SpellsOne(Multiline(body), Str(NormalizeNewlines(body) + "\n"));
  }
}
