/**
  What parse_env_file (scripts/monorepo/deploy_monorepo.py) makes of lines as people write them:
  comments, spaces, `export`, escapes, text behind a closing quote, other line ends.
  */
module DotEnvReading {
  import opened Shared
  import opened DotEnv
  import opened DotEnvRoundTrip
  import opened DotEnvExact

  predicate AllSpace(w: string) {
    forall i :: 0 <= i < |w| ==> IsSpace(w[i])
  }

  /** Begins and ends with something other than whitespace. */
  predicate IsTight(x: string) {
    x != [] && !IsSpace(x[0]) && !IsSpace(x[|x| - 1])
  }

  // ----- stripping -----

  lemma {:induction false} LStripOfPadded(w: string, x: string)
    requires AllSpace(w) && (x != [] ==> !IsSpace(x[0]))
    ensures LStrip(w + x) == x
  {
    if w == [] {
      assert w + x == x;
    } else {
      assert (w + x)[1..] == w[1..] + x;
      LStripOfPadded(w[1..], x);
    }
  }

  lemma {:induction false} RStripOfPadded(x: string, w: string)
    requires AllSpace(w) && (x != [] ==> !IsSpace(x[|x| - 1]))
    ensures RStrip(x + w) == x
  {
    if w == [] {
      assert x + w == x;
    } else {
      var n := |w| - 1;
      assert (x + w)[..|x| + n] == x + w[..n];
      RStripOfPadded(x, w[..n]);
    }
  }

  lemma StripOfPadded(w: string, x: string, w': string)
    requires AllSpace(w) && AllSpace(w') && IsTight(x)
    ensures Strip(w + x + w') == x
  {
    assert (w + x)[|w + x| - 1] == x[|x| - 1];
    RStripOfPadded(w + x, w');
    LStripOfPadded(w, x);
  }

  // ----- comments -----

  lemma {:induction false} LStripAppend(v: string, x: string)
    requires LStrip(v) != []
    ensures LStrip(v + x) == LStrip(v) + x
  {
    if IsSpace(v[0]) {
      assert (v + x)[1..] == v[1..] + x;
      LStripAppend(v[1..], x);
    }
  }

  lemma {:induction false} SomethingLeft(v: string)
    requires v != [] && !IsSpace(v[|v| - 1])
    ensures LStrip(v) != []
  {
    if IsSpace(v[0]) {
      SomethingLeft(v[1..]);
    }
  }

  /** Before a comment everything is kept, and the comment goes with the whitespace before it. */
  lemma {:induction false} CommentIsCut(v: string, w: string, c: string)
    requires (v != [] ==> !IsSpace(v[|v| - 1])) && !SpaceThenHash(v) && w != [] && AllSpace(w)
    ensures CutComment(v + (w + ("#" + c))) == v
  {
    var x := w + ("#" + c);
    if v == [] {
      assert v + x == x;
      LStripOfPadded(w, "#" + c);
    } else {
      SomethingLeft(v);
      LStripAppend(v, x);
      if StartsComment(v + x) {
        CommentStartsAtSpaceThenHash(v);
        assert false;
      }
      SpaceThenHashTail(v);
      CommentIsCut(v[1..], w, c);
      assert (v + x)[1..] == v[1..] + x;
    }
  }

  lemma CommentedShape(v: string, w: string, c: string)
    ensures v + (w + ("#" + c)) == (v + w + "#") + c
    ensures v + w + "#" + RStrip(c) == v + (w + ("#" + RStrip(c)))
  {
  }

  /** The stripped text after the equals sign. */
  lemma StripCommented(v: string, w: string, c: string)
    requires IsTight(v)
    ensures Strip(v + (w + ("#" + c))) == v + (w + ("#" + RStrip(c)))
  {
    var head := v + w + "#";
    CommentedShape(v, w, c);
    RStripAppend(head, c);
    assert RStrip(head) == head == head + [];
    assert RStrip(head + c) == head + RStrip(c);
    LStripKeeps(head + RStrip(c));
  }

  /** KEY=value  # comment */
  lemma ParseCommented(k: string, v: string, w: string, c: string, tail: string, env: Env)
    requires ValidKey(k) && Plain(v) && v != [] && w != [] && AllSpace(w) && '\n' !in w && '\n' !in c
    ensures Parse(k + ("=" + (v + (w + ("#" + c)))) + ("\n" + tail), env) == Parse(tail, env[k := v])
  {
    StripCommented(v, w, c);
    CommentIsCut(v, w, RStrip(c));
    PlainMeansUntouched(v);
    assert (v + (w + ("#" + RStrip(c))))[0] == v[0];
    ParseDeclLine(k, v + (w + ("#" + c)), tail, env);
  }

  lemma StripEmptyCommented(w: string, c: string)
    requires AllSpace(w)
    ensures Strip(w + ("#" + c)) == "#" + RStrip(c)
  {
    RStripAppend("#", c);
    assert RStrip("#") == "#" == "#" + [];
    assert RStrip("#" + c) == "#" + RStrip(c);
    RStripAppend(w, "#" + c);
    LStripOfPadded(w, "#" + RStrip(c));
  }

  /** A value that begins with a hash keeps it. */
  lemma HashStays(c: string)
    ensures Strip(CutComment("#" + c)) != []
  {
    var x := CutComment(("#" + c)[1..]);
    assert CutComment("#" + c) == "#" + x;
    RStripAppend("#", x);
    assert RStrip("#") == "#";
    LStripKeeps(RStrip("#" + x));
  }

  /** KEY=  # comment: the comment becomes the value. */
  lemma ParseEmptyCommented(k: string, w: string, c: string, tail: string, env: Env)
    requires ValidKey(k) && AllSpace(w) && '\n' !in w && '\n' !in c
    ensures Parse(k + ("=" + (w + ("#" + c))) + ("\n" + tail), env) ==
            Parse(tail, env[k := Strip(CutComment("#" + RStrip(c)))])
    ensures Strip(CutComment("#" + RStrip(c))) != []
  {
    StripEmptyCommented(w, c);
    HashStays(RStrip(c));
    ParseDeclLine(k, w + ("#" + c), tail, env);
  }

  /** A plain value is what remains of a commented line exactly when it is not empty. */
  lemma CommentedReadsBackIff(k: string, v: string, w: string, c: string)
    requires ValidKey(k) && Plain(v) && w != [] && AllSpace(w) && '\n' !in w && '\n' !in c
    ensures Parse(k + ("=" + (v + (w + ("#" + c)))) + ("\n" + []), map[]) == map[k := v] <==> v != []
  {
    if v != [] {
      ParseCommented(k, v, w, c, [], map[]);
    } else {
      assert v + (w + ("#" + c)) == w + ("#" + c);
      ParseEmptyCommented(k, w, c, [], map[]);
      var read := Strip(CutComment("#" + RStrip(c)));
      assert map[k := read][k] != map[k := v][k];
    }
  }

  // ----- spaces and export -----

  lemma {:induction false} FindEqualsIn(a: string, r: string)
    requires '=' !in a
    ensures FindEquals(a + ("=" + r)) == |a|
  {
    FindEqualsAt(a, r);
  }

  lemma SpacesAreNoEquals(w: string)
    requires AllSpace(w)
    ensures '=' !in w
  {
  }

  /** A line whose text before the equals sign is a name with whitespace around it. */
  lemma ParseNamed(a: string, k: string, r: string, rest: string)
    requires Strip(a) == k && ValidKey(k) && '=' !in a && a[0] != '#' && !("export " <= a + ("=" + r))
    ensures ParseLine(a + ("=" + r), rest) ==
            var raw := LStrip(r);
            if raw != [] && IsQuote(raw[0]) then
              var g := Gather(raw[1..], raw[0], rest);
              Assign(k, QuotedValue(g.body, raw[0]), g.rest)
            else Assign(k, Strip(CutComment(raw)), rest)
  {
    var line := a + ("=" + r);
    FindEqualsIn(a, r);
    assert line[0] == a[0];
    assert line[..|a|] == a && line[|a| + 1..] == r;
  }

  lemma KeyThenSpace(k: string, w: string)
    requires ValidKey(k) && AllSpace(w)
    ensures Strip(k + w) == k && '=' !in k + w && (k + w)[0] != '#'
  {
    KeyIsPlain(k);
    SpacesAreNoEquals(w);
    KeyCharIsPlain(k[0]);
    KeyCharIsPlain(k[|k| - 1]);
    RStripOfPadded(k, w);
  }

  /** A declaration with spaces around its key and its value, once its line is stripped. */
  lemma ParseSpaced(k: string, w: string, w': string, v: string, rest: string)
    requires ValidKey(k) && AllSpace(w) && AllSpace(w') && Plain(v) && v != []
    requires !("export " <= k + w + ("=" + (w' + v)))
    ensures ParseLine(k + w + ("=" + (w' + v)), rest) == Assign(k, v, rest)
  {
    KeyThenSpace(k, w);
    LStripOfPadded(w', v);
    PlainMeansUntouched(v);
    ParseNamed(k + w, k, w' + v, rest);
  }

  lemma SpacedShape(w0: string, k: string, w: string, w': string, v: string, w1: string)
    ensures w0 + (k + w + ("=" + (w' + (v + w1)))) == w0 + (k + w + ("=" + (w' + v))) + w1
  {
  }

  lemma SpacedIsTight(k: string, w: string, w': string, v: string)
    requires ValidKey(k) && Plain(v) && v != []
    ensures IsTight(k + w + ("=" + (w' + v)))
  {
    var line := k + w + ("=" + (w' + v));
    KeyCharIsPlain(k[0]);
    assert line[0] == k[0] && line[|line| - 1] == v[|v| - 1];
  }

  /** Spaces before and after the key and the value do not matter. */
  lemma SpacesDoNotMatter(w0: string, k: string, w: string, w': string, v: string, w1: string, tail: string, env: Env)
    requires ValidKey(k) && Plain(v) && v != [] && k != "export"
    requires AllSpace(w0) && AllSpace(w) && AllSpace(w') && AllSpace(w1)
    requires '\n' !in w0 + w + w' + w1
    ensures Parse(w0 + (k + w + ("=" + (w' + (v + w1)))) + ("\n" + tail), env) == Parse(tail, env[k := v])
  {
    var decl := k + w + ("=" + (w' + v));
    KeyIsPlain(k);
    SpacedShape(w0, k, w, w', v, w1);
    SpacedIsTight(k, w, w', v);
    StripOfPadded(w0, decl, w1);
    SpacedNoExport(k, w, w' + v);
    ParseSpaced(k, w, w', v, tail);
    SpacedOnOneLine(w0, k, w, w', v, w1);
    ParseFirstLine(w0 + decl + w1, tail, env);
  }

  lemma SpacedOnOneLine(w0: string, k: string, w: string, w': string, v: string, w1: string)
    requires ValidKey(k) && Plain(v) && '\n' !in w0 + w + w' + w1
    ensures '\n' !in w0 + (k + w + ("=" + (w' + v))) + w1
  {
    KeyIsPlain(k);
    assert forall c :: c in w0 || c in w || c in w' || c in w1 ==> c in w0 + w + w' + w1;
  }

  /** Only a key called export, followed by a space, is taken for the keyword. */
  lemma SpacedNoExport(k: string, w: string, r: string)
    requires ValidKey(k) && AllSpace(w) && k != "export"
    ensures !("export " <= k + w + ("=" + r))
  {
    var line := k + w + ("=" + r);
    if |k| < 6 {
      assert line[|k|] == (w + ("=" + r))[0];
      assert (w + ("=" + r))[0] == if w == [] then '=' else w[0];
      assert IsKeyChar("export "[|k|]);
      KeyCharIsPlain("export "[|k|]);
    } else if |k| > 6 {
      assert line[6] == k[6];
      KeyCharIsPlain(k[6]);
    } else {
      assert line[..6] == k && "export "[..6] == "export";
    }
  }

  lemma DropsExport(w: string, k: string, r: string)
    requires ValidKey(k) && AllSpace(w)
    ensures DropExport("export " + (w + (k + ("=" + r)))) == k + ("=" + r)
  {
    var decl := k + ("=" + r);
    KeyCharIsPlain(k[0]);
    assert decl[0] == k[0];
    assert ("export " + (w + decl))[7..] == w + decl;
    LStripOfPadded(w, decl);
  }

  /** `export` in front of a declaration does not matter. */
  lemma ExportDoesNotMatter(w: string, k: string, r: string, rest: string)
    requires ValidKey(k) && AllSpace(w)
    ensures ParseLine("export " + (w + (k + ("=" + r))), rest) == ParseLine(k + ("=" + r), rest)
  {
    DropsExport(w, k, r);
    NoExport(k, r);
    KeyIsPlain(k);
    assert (k + ("=" + r))[0] == k[0];
  }

  /** Lines without an equals sign, and lines whose key is no name, are skipped. */
  lemma OtherLinesAreSkipped(line: string, a: string, r: string, rest: string)
    requires '=' !in line && '=' !in a && !("export " <= a + ("=" + r)) && !ValidKey(Strip(a))
    ensures ParseLine(line, rest) == Skip
    ensures ParseLine(a + ("=" + r), rest) == Skip
  {
    NoEqualsFound(DropExport(line), line);
    FindEqualsIn(a, r);
    assert (a + ("=" + r))[..|a|] == a;
  }

  lemma NoEqualsFound(decl: string, line: string)
    requires '=' !in line && decl == DropExport(line)
    ensures FindEquals(decl) == -1
  {
    if "export " <= line {
      LStripChars(line[7..]);
    }
    NoEquals(decl);
  }

  lemma {:induction false} NoEquals(s: string)
    requires '=' !in s
    ensures FindEquals(s) == -1
  {
    if s != [] {
      assert forall c :: c in s[1..] ==> c in s;
      NoEquals(s[1..]);
    }
  }

  // ----- quotes -----

  lemma UnescapeHead(c: char, rest: string)
    requires c != '\n'
    ensures Unescape(['\\', c] + rest) == Expand(c) + Unescape(rest)
  {
    assert (['\\', c] + rest)[2..] == rest;
  }

  /** The five escapes, and every other one kept as it is written. */
  lemma EscapesAre(c: char, rest: string)
    requires c != 'n' && c != 'r' && c != 't' && c != '"' && c != '\\' && c != '\n'
    ensures Unescape(['\\', 'n'] + rest) == "\n" + Unescape(rest)
    ensures Unescape(['\\', 'r'] + rest) == "\r" + Unescape(rest)
    ensures Unescape(['\\', 't'] + rest) == "\t" + Unescape(rest)
    ensures Unescape(['\\', '"'] + rest) == "\"" + Unescape(rest)
    ensures Unescape(['\\', '\\'] + rest) == "\\" + Unescape(rest)
    ensures Unescape(['\\', c] + rest) == ['\\', c] + Unescape(rest)
  {
    UnescapeHead('n', rest);
    UnescapeHead('r', rest);
    UnescapeHead('t', rest);
    UnescapeHead('"', rest);
    UnescapeHead('\\', rest);
    UnescapeHead(c, rest);
  }

  lemma QuotedThenJunk(v: string, junk: string)
    ensures "'" + (v + ("'" + junk)) == ("'" + v + "'") + junk
    ensures (("'" + v + "'") + junk)[1..] == v + ("'" + junk)
  {
  }

  lemma StripBehind(head: string, junk: string)
    requires IsTight(head)
    ensures Strip(head + junk) == head + RStrip(junk)
  {
    RStripAppend(head, junk);
    assert RStrip(head) == head == head + [];
    LStripKeeps(head + RStrip(junk));
  }

  lemma StripQuotedThenJunk(v: string, junk: string)
    ensures Strip("'" + (v + ("'" + junk))) == "'" + (v + ("'" + RStrip(junk)))
  {
    QuotedThenJunk(v, junk);
    QuotedThenJunk(v, RStrip(junk));
    StripBehind("'" + v + "'", junk);
  }

  lemma QuotedBodyThenJunk(v: string, junk: string, tail: string)
    requires QUOTE !in v
    ensures var g := Gather(v + ("'" + junk), QUOTE, tail); g.rest == tail && QuotedValue(g.body, QUOTE) == v
  {
    ClosingSingle(v, junk);
    GatherDone(v + ("'" + junk), QUOTE, tail);
    assert (v + ("'" + junk))[..|v|] == v;
  }

  /** What stands behind the closing quote of a line is ignored. */
  lemma BehindQuoteIsIgnored(k: string, v: string, junk: string, tail: string, env: Env)
    requires ValidKey(k) && QUOTE !in v && '\n' !in v && '\n' !in junk
    ensures Parse(k + ("=" + ("'" + (v + ("'" + junk)))) + ("\n" + tail), env) == Parse(tail, env[k := v])
  {
    StripQuotedThenJunk(v, junk);
    QuotedBodyThenJunk(v, RStrip(junk), tail);
    var raw := "'" + (v + ("'" + RStrip(junk)));
    assert raw[1..] == v + ("'" + RStrip(junk));
    ParseDeclLine(k, "'" + (v + ("'" + junk)), tail, env);
  }

  lemma LastOfLines(line: string, others: string)
    ensures var v := line + ("\n" + others); v[|v| - 1] == if others == [] then '\n' else others[|others| - 1]
  {
  }

  lemma GatherLast(body: string, v: string)
    requires QUOTE !in body && QUOTE !in v && v != [] && '\n' !in v
    ensures Gather(body, QUOTE, v) == Quoted(body + "\n" + v, [])
  {
    ClosingSingle(body, []);
    LineEndIsFirst(v);
    assert v[..LineEnd(v)] == v && AfterLine(v) == [];
    GatherStep(body, QUOTE, v);
    GatherDone(body + "\n" + v, QUOTE, []);
  }

  lemma GatherUnclosedLine(body: string, line: string, others: string)
    requires QUOTE !in body && '\n' !in line
    requires Gather(body + "\n" + line, QUOTE, others) == Quoted(body + "\n" + line + "\n" + others, [])
    ensures Gather(body, QUOTE, line + ("\n" + others)) == Quoted(body + "\n" + (line + ("\n" + others)), [])
  {
    ClosingSingle(body, []);
    GatherOneLine(body, line, others, QUOTE);
    JoinLines(body, line, others);
  }

  lemma {:induction false} GatherUnclosed(body: string, v: string)
    requires QUOTE !in body && QUOTE !in v && v != [] && v[|v| - 1] != '\n'
    ensures Gather(body, QUOTE, v) == Quoted(body + "\n" + v, [])
    decreases |v|
  {
    if '\n' in v {
      var line, others := SplitFirstLine(v);
      LastOfLines(line, others);
      assert forall c :: c in line || c in others ==> c in v;
      GatherUnclosed(body + "\n" + line, others);
      GatherUnclosedLine(body, line, others);
    } else {
      GatherLast(body, v);
    }
  }

  lemma UnclosedIsWhole(body: string)
    requires QUOTE !in body
    ensures QuotedValue(body, QUOTE) == body
  {
    ClosingSingle(body, []);
  }

  lemma UnclosedBody(body: string, others: string)
    requires QUOTE !in body && QUOTE !in others && (others != [] ==> others[|others| - 1] != '\n')
    ensures var g := Gather(body, QUOTE, others);
            g.rest == [] && QuotedValue(g.body, QUOTE) == if others == [] then body else body + "\n" + others
  {
    if others == [] {
      GatherDone(body, QUOTE, []);
      UnclosedIsWhole(body);
    } else {
      GatherUnclosed(body, others);
      UnclosedIsWhole(body + "\n" + others);
    }
  }

  /** A quote that is never closed takes the rest of its line, and all lines that follow. */
  lemma UnclosedQuoteTakesAll(k: string, line: string, others: string, env: Env)
    requires ValidKey(k) && QUOTE !in line && '\n' !in line
    requires QUOTE !in others && (others != [] ==> others[|others| - 1] != '\n')
    ensures Parse(k + ("=" + ("'" + line)) + ("\n" + others), env) ==
            env[k := if others == [] then RStrip(line) else RStrip(line) + "\n" + others]
  {
    OpeningLine(line);
    RStripIsPrefix(line);
    UnclosedBody(RStrip(line), others);
    ParseDeclLine(k, "'" + line, others, env);
  }

  // ----- line ends -----

  /** CR LF and a lone CR are read as LF. */
  lemma OtherLineEnds(a: string, x: string)
    requires '\r' !in a
    ensures ReadText(a + ("\r\n" + x)) == a + ("\n" + ReadText(x))
    ensures (x == [] || x[0] != '\n') ==> ReadText(a + ("\r" + x)) == a + ("\n" + ReadText(x))
  {
    ReadTextAppend(a, "\r\n" + x);
    ReadTextAppend(a, "\r" + x);
    assert ("\r\n" + x)[2..] == x && ("\r" + x)[1..] == x;
  }
}
