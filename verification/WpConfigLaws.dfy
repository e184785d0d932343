/** agent/wordpress_staging.py: what rewriting a wp-config.php does to the values read from it. */
module WpConfigLaws {
  import opened Text
  import opened WpConfig

  // ----- one value -----

  lemma SplitLeftmost(s: string, m: Part) returns (u: string, y: string)
    requires Leftmost(s, m).Some?
    ensures s == u + y && |u| == Leftmost(s, m).value && u == s[..|u|] && y == s[|u|..]
    ensures m(y).Some?
  {
    var i := Leftmost(s, m).value;
    u, y := s[..i], s[i..];
  }

  lemma LeftmostHere(u: string, y: string, m: Part)
    requires Sound(m) && Apart(y, m) && m(y).Some? && Leftmost(u, m).None?
    ensures Leftmost(u + y, m) == Some(|u|)
    ensures LeftmostValue(u + y, m) == LeftmostValue(y, m)
    ensures var v := m(y).value; LeftmostValue(y, m) == Some(y[v.from..v.to])
  {
    LeftmostApart(u, y, m);
    ValueApart(u, y, m);
    assert Inside(y, m(y));
    assert y[0..] == y;
  }

  /** What is put is read back. */
  lemma PutReads(s: string, key: string, text: string)
    requires KeyOk(key) && NoQuotes(text) && Leftmost(s, DefinePart(key)).Some?
    ensures PutValue(s, DefinePart(key), text).Some?
    ensures ConfigValue(PutValue(s, DefinePart(key), text).value, key) == Some(text)
  {
    var m := DefinePart(key);
    var u, y := SplitLeftmost(s, m);
    var v := DefineAt(y, key).value;
    ReplaceDefineAt(y, key, text);
    ApartSame(y, key);
    ApartSame(Put(y, v, text), key);
    LeftmostApart(u, y, m);
    LeftmostHere(u, Put(y, v, text), m);
    PutText(y, v, text);
  }

  lemma PutText(y: string, v: Span, x: string)
    requires Inside(y, Some(v))
    ensures var w := Moved(v, x);
            && Inside(Put(y, v, x), Some(w))
            && Put(y, v, x)[w.from..w.to] == x
            && Put(y, v, x)[w.end..] == y[v.end..]
  {
  }

  /** Other keys are read as before, whatever surrounds them and whatever was put. */
  lemma PutKeepsOthers(s: string, key: string, text: string, k: string)
    requires KeyOk(key) && KeyOk(k) && !SameText(key, k)
    requires NoQuotes(text) && Leftmost(s, DefinePart(key)).Some?
    ensures ConfigValue(PutValue(s, DefinePart(key), text).value, k) == ConfigValue(s, k)
  {
    var u, y := SplitLeftmost(s, DefinePart(key));
    var v := DefineAt(y, key).value;
    ReplaceDefineAt(y, key, text);
    StatementInvisible(u, y, key, k);
    StatementInvisible(u, Put(y, v, text), key, k);
    PutText(y, v, text);
  }

  // ----- the escaping gets in the way -----

  ghost predicate Plain(v: string) {
    NoQuotes(v) && '\\' !in v
  }

  lemma {:induction false} EscapePlain(v: string)
    ensures Plain(v) ==> PhpEscape(v) == v
    ensures NoQuotes(v) ==> NoQuotes(PhpEscape(v))
    ensures |PhpEscape(v)| >= |v|
    ensures '\\' in v ==> |PhpEscape(v)| > |v|
  {
    if v != "" {
      EscapePlain(v[1..]);
      assert v == [v[0]] + v[1..];
      assert NoQuotes(v) ==> NoQuotes(v[1..]);
    }
  }

  lemma CleanGap(s: string, g: string, q: char, t: string, ok: string -> bool, next: Part)
    requires s == g + ([q] + t) && NoQuotes(g) && IsQuote(q) && ok(g)
    requires Sound(next) && next(t).Some? && Inside(t, next(t))
    ensures Gap(s, ok, next).Some? && Inside(s, Gap(s, ok, next))
    ensures var v, w := next(t).value, Gap(s, ok, next).value; s[w.from..w.to] == t[v.from..v.to]
  {
    GapIs(g, q, t, ok, next);
  }

  /** A match never has a quote in its value. */
  lemma CleanMatch(s: string, key: string)
    requires DefineAt(s, key).Some?
    ensures var v := DefineAt(s, key).value; NoQuotes(s[v.from..v.to])
  {
    SoundParts(key);
    var g, q, t := GapParts(s, IsOpen, KeyPart(key));
    CleanGap(s, g, q, t, IsOpen, KeyPart(key));
    var g1, q1, t1 := GapParts(t, IsKey(key), AfterKey);
    CleanGap(t, g1, q1, t1, IsKey(key), AfterKey);
    CleanAfterKey(t1);
  }

  lemma CleanAfterKey(s: string)
    requires AfterKey(s).Some?
    ensures var v := AfterKey(s).value; NoQuotes(s[v.from..v.to])
  {
    SoundParts("");
    var g, q, t := GapParts(s, IsComma, AtValue);
    CleanGap(s, g, q, t, IsComma, AtValue);
  }

  lemma ReadsClean(s: string, key: string)
    requires ConfigValue(s, key).Some?
    ensures NoQuotes(ConfigValue(s, key).value)
  {
    var u, y := SplitLeftmost(s, DefinePart(key));
    CleanMatch(y, key);
  }

  /** Writing a value and reading it gives it back exactly when it has no quote and no backslash. */
  lemma GetAfterReplace(s: string, key: string, v: string)
    requires KeyOk(key) && ConfigValue(s, key).Some?
    ensures ReplaceDefine(s, key, v).Some?
    ensures ConfigValue(ReplaceDefine(s, key, v).value, key) == Some(v) <==> Plain(v)
    ensures NoQuotes(v) ==> ConfigValue(ReplaceDefine(s, key, v).value, key) == Some(PhpEscape(v))
  {
    EscapePlain(v);
    if NoQuotes(v) {
      PutReads(s, key, PhpEscape(v));
    } else if ConfigValue(ReplaceDefine(s, key, v).value, key) == Some(v) {
      ReadsClean(ReplaceDefine(s, key, v).value, key);
    }
  }

  lemma ReplaceKeepsOthers(s: string, key: string, v: string, k: string)
    requires KeyOk(key) && KeyOk(k) && !SameText(key, k)
    requires NoQuotes(v) && ConfigValue(s, key).Some?
    ensures ConfigValue(ReplaceDefine(s, key, v).value, k) == ConfigValue(s, k)
  {
    EscapePlain(v);
    PutKeepsOthers(s, key, PhpEscape(v), k);
  }
}
