/**
  What parse_env_file gives back for text written as KEY="escaped", KEY='literal' and KEY=plain.
  */
module DotEnvRoundTrip {
  import opened Shared
  import opened DotEnv

  // ----- stripping and splitting -----

  lemma {:induction false} RStripAppend(a: string, b: string)
    ensures RStrip(a + b) == if RStrip(b) == [] then RStrip(a) else a + RStrip(b)
  {
    if b == [] {
      assert a + b == a;
    } else if IsSpace(b[|b| - 1]) {
      assert (a + b)[..|a + b| - 1] == a + b[..|b| - 1];
      RStripAppend(a, b[..|b| - 1]);
    }
  }

  lemma {:induction false} LineEndAt(a: string, tail: string)
    requires '\n' !in a
    ensures LineEnd(a + ("\n" + tail)) == |a|
  {
    if a != [] {
      assert (a + ("\n" + tail))[1..] == a[1..] + ("\n" + tail);
      assert forall c :: c in a[1..] ==> c in a;
      LineEndAt(a[1..], tail);
    }
  }

  lemma CutAt(a: string, tail: string)
    requires '\n' !in a
    ensures var t := a + ("\n" + tail); t[..LineEnd(t)] == a && AfterLine(t) == tail
  {
    LineEndAt(a, tail);
  }

  lemma {:induction false} FindEqualsAt(k: string, r: string)
    requires '=' !in k
    ensures FindEquals(k + ("=" + r)) == |k|
  {
    if k != [] {
      assert (k + ("=" + r))[1..] == k[1..] + ("=" + r);
      assert forall c :: c in k[1..] ==> c in k;
      FindEqualsAt(k[1..], r);
    }
  }

  lemma KeyCharIsPlain(c: char)
    requires IsKeyChar(c)
    ensures !IsSpace(c) && c != '=' && c != '\n' && c != '\r' && c != '#'
  {
  }

  lemma KeyIsPlain(k: string)
    requires ValidKey(k)
    ensures '=' !in k && '\n' !in k && '\r' !in k && Strip(k) == k && k[0] != '#'
  {
    forall c | c in k
      ensures !IsSpace(c) && c != '=' && c != '\n' && c != '\r' && c != '#'
    {
      KeyCharIsPlain(c);
    }
    assert k[|k| - 1] in k && k[0] in k;
  }

  lemma NoExport(k: string, r: string)
    requires ValidKey(k)
    ensures !("export " <= k + ("=" + r))
  {
    var s := k + ("=" + r);
    if |k| > 6 {
      assert s[6] == k[6] && IsKeyChar(k[6]);
    } else {
      assert s[|k|] == '=';
    }
  }

  lemma StripAfterKey(key: string, x: string)
    requires key != [] && !IsSpace(key[0]) && !IsSpace(key[|key| - 1])
    ensures Strip(key + x) == key + RStrip(x)
  {
    RStripAppend(key, x);
    assert RStrip(key) == key == key + [];
    LStripKeeps(key + RStrip(x));
  }

  lemma StripDecl(k: string, x: string)
    requires ValidKey(k)
    ensures Strip(k + ("=" + x)) == k + ("=" + RStrip(x))
  {
    var key := k + "=";
    assert k + ("=" + x) == key + x;
    assert k + ("=" + RStrip(x)) == key + RStrip(x);
    KeyCharIsPlain(k[0]);
    StripAfterKey(key, x);
  }

  lemma LStripKeeps(s: string)
    requires s != [] && !IsSpace(s[0])
    ensures LStrip(s) == s
  {
  }

  predicate IsQuote(c: char) {
    c == QUOTE || c == DOUBLE
  }

  /** A declaration whose key is valid, once its line is stripped. */
  lemma ParseDeclaration(k: string, r: string, rest: string)
    requires ValidKey(k)
    ensures ParseLine(k + ("=" + r), rest) ==
            var raw := LStrip(r);
            if raw != [] && IsQuote(raw[0]) then
              var g := Gather(raw[1..], raw[0], rest);
              Assign(k, QuotedValue(g.body, raw[0]), g.rest)
            else Assign(k, Strip(CutComment(raw)), rest)
  {
    KeyIsPlain(k);
    NoExport(k, r);
    FindEqualsAt(k, r);
    var line := k + ("=" + r);
    assert line[0] == k[0];
    assert line[..|k|] == k && line[|k| + 1..] == r;
  }

  /** The first line of a text, whatever it is. */
  lemma ParseFirstLine(line: string, tail: string, env: Env)
    requires '\n' !in line
    ensures Parse(line + ("\n" + tail), env) ==
            match ParseLine(Strip(line), tail)
            case Skip => Parse(tail, env)
            case Assign(key, value, rest) => Parse(rest, env[key := value])
  {
    CutAt(line, tail);
    ParseStep(line + ("\n" + tail), env);
  }

  /** One declaration line in front of any text. */
  lemma ParseDeclLine(k: string, x: string, tail: string, env: Env)
    requires ValidKey(k) && '\n' !in x
    ensures Parse(k + ("=" + x) + ("\n" + tail), env) ==
            var raw := Strip(x);
            if raw != [] && IsQuote(raw[0]) then
              var g := Gather(raw[1..], raw[0], tail);
              Parse(g.rest, env[k := QuotedValue(g.body, raw[0])])
            else Parse(tail, env[k := Strip(CutComment(raw))])
  {
    KeyIsPlain(k);
    ParseFirstLine(k + ("=" + x), tail, env);
    StripDecl(k, x);
    ParseDeclaration(k, RStrip(x), tail);
  }

  // ----- KEY="escaped" -----

  lemma {:induction false} ClosingAfterEscape(v: string, y: string)
    ensures ClosingQuote(Escape(v) + ("\"" + y), DOUBLE) == |Escape(v)|
  {
    if v != [] {
      var e, t := EscapeChar(v[0]), Escape(v[1..]) + ("\"" + y);
      ClosingAfterEscape(v[1..], y);
      assert Escape(v) + ("\"" + y) == e + t;
      if |e| == 2 {
        assert e[0] == '\\' && (e + t)[2..] == t;
      } else {
        assert (e + t)[1..] == t;
      }
    }
  }

  lemma {:induction false} UnescapeEscape(v: string)
    ensures Unescape(Escape(v)) == v
  {
    if v != [] {
      var e, t := EscapeChar(v[0]), Escape(v[1..]);
      UnescapeEscape(v[1..]);
      if |e| == 2 {
        assert (e + t)[2..] == t && (e + t)[0] == '\\' && (e + t)[1] == e[1];
        assert Expand(e[1]) == [v[0]];
      } else {
        assert (e + t)[1..] == t && (e + t)[0] == v[0];
      }
    }
  }

  lemma {:induction false} EscapeStaysOnLine(v: string)
    ensures '\n' !in Escape(v) && '\r' !in Escape(v)
  {
    if v != [] {
      EscapeStaysOnLine(v[1..]);
    }
  }

  lemma StripBracketed(x: string)
    requires x == [] || (!IsSpace(x[0]) && !IsSpace(x[|x| - 1]))
    ensures Strip(x) == x
  {
  }

  lemma QuotedLineShape(k: string, v: string, tail: string)
    ensures QuotedLine(k, v) + tail == k + ("=" + ("\"" + Escape(v) + "\"")) + ("\n" + tail)
  {
  }

  lemma QuotedBodyGivesBack(v: string, tail: string)
    ensures var raw := "\"" + Escape(v) + "\""; var g := Gather(raw[1..], DOUBLE, tail);
            Strip(raw) == raw && g.rest == tail && QuotedValue(g.body, DOUBLE) == v
  {
    var raw := "\"" + Escape(v) + "\"";
    StripBracketed(raw);
    assert raw[1..] == Escape(v) + ("\"" + []);
    ClosingAfterEscape(v, []);
    GatherDone(raw[1..], DOUBLE, tail);
    assert raw[1..][..|Escape(v)|] == Escape(v);
    UnescapeEscape(v);
  }

  /** Any value at all survives being written escaped between double quotes. */
  lemma ParseQuotedLine(k: string, v: string, tail: string, env: Env)
    requires ValidKey(k)
    ensures Parse(QuotedLine(k, v) + tail, env) == Parse(tail, env[k := v])
  {
    var raw := "\"" + Escape(v) + "\"";
    EscapeStaysOnLine(v);
    QuotedLineShape(k, v, tail);
    QuotedBodyGivesBack(v, tail);
    ParseDeclLine(k, raw, tail, env);
  }

  lemma {:induction false} ParseQuotedLines(entries: seq<(string, string)>, tail: string, env: Env)
    requires forall e :: e in entries ==> ValidKey(e.0)
    ensures Parse(QuotedLines(entries) + tail, env) == Parse(tail, AssignAll(entries, env))
  {
    if entries == [] {
      assert QuotedLines(entries) + tail == tail;
    } else {
      var (k, v) := entries[0];
      assert entries[0] in entries;
      assert forall e :: e in entries[1..] ==> e in entries;
      assert QuotedLines(entries) + tail == QuotedLine(k, v) + (QuotedLines(entries[1..]) + tail);
      ParseQuotedLine(k, v, QuotedLines(entries[1..]) + tail, env);
      ParseQuotedLines(entries[1..], tail, env[k := v]);
    }
  }

  lemma {:induction false} ReadTextUnchanged(s: string)
    requires '\r' !in s
    ensures ReadText(s) == s
  {
    if s != [] {
      assert forall c :: c in s[1..] ==> c in s;
      ReadTextUnchanged(s[1..]);
    }
  }

  lemma {:induction false} QuotedLinesHaveNoReturn(entries: seq<(string, string)>)
    requires forall e :: e in entries ==> ValidKey(e.0)
    ensures '\r' !in QuotedLines(entries)
  {
    if entries != [] {
      var (k, v) := entries[0];
      assert entries[0] in entries;
      assert forall e :: e in entries[1..] ==> e in entries;
      KeyIsPlain(k);
      EscapeStaysOnLine(v);
      QuotedLinesHaveNoReturn(entries[1..]);
    }
  }

  /** A file of escaped declarations reads back as written: every value, and the last one of a key. */
  lemma QuotedFileRoundTrip(entries: seq<(string, string)>)
    requires forall e :: e in entries ==> ValidKey(e.0)
    ensures Parse(ReadText(QuotedLines(entries)), map[]) == AssignAll(entries, map[])
  {
    QuotedLinesHaveNoReturn(entries);
    ReadTextUnchanged(QuotedLines(entries));
    assert QuotedLines(entries) + [] == QuotedLines(entries);
    ParseQuotedLines(entries, [], map[]);
  }

  // ----- KEY='literal', over several lines -----

  lemma {:induction false} ClosingSingle(a: string, y: string)
    requires QUOTE !in a
    ensures ClosingQuote(a, QUOTE) == -1
    ensures ClosingQuote(a + ("'" + y), QUOTE) == |a|
  {
    if a != [] {
      assert (a + ("'" + y))[1..] == a[1..] + ("'" + y);
      assert forall c :: c in a[1..] ==> c in a;
      ClosingSingle(a[1..], y);
    }
  }

  lemma GatherOneLine(body: string, line: string, rest: string, quote: char)
    requires ClosingQuote(body, quote) == -1 && '\n' !in line
    ensures Gather(body, quote, line + ("\n" + rest)) == Gather(body + "\n" + line, quote, rest)
  {
    GatherStep(body, quote, line + ("\n" + rest));
    CutAt(line, rest);
  }

  /** A body that ends with the quote is complete. */
  lemma GatherClosed(body: string, tail: string)
    requires QUOTE !in body
    ensures Gather(body + "'", QUOTE, tail) == Quoted(body + "'", tail)
    ensures QuotedValue(body + "'", QUOTE) == body
  {
    assert body + "'" == body + ("'" + []);
    ClosingSingle(body, []);
    GatherDone(body + "'", QUOTE, tail);
    assert (body + "'")[..|body|] == body;
  }

  lemma SplitFirstLine(v: string) returns (line: string, others: string)
    requires '\n' in v
    ensures v == line + ("\n" + others) && '\n' !in line && LineEnd(v) == |line| && |others| < |v|
  {
    LineEndIsFirst(v);
    var p := LineEnd(v);
    line, others := v[..p], v[p + 1..];
  }

  lemma Regroup(line: string, others: string, last: string)
    ensures (line + ("\n" + others)) + last == line + ("\n" + (others + last))
  {
  }

  lemma JoinLines(body: string, line: string, v: string)
    ensures body + "\n" + line + "\n" + v == body + "\n" + (line + ("\n" + v))
  {
  }

  /** The lines that follow are taken as they are, up to the closing quote. */
  lemma {:induction false} GatherLiteral(body: string, v: string, tail: string)
    requires QUOTE !in body && QUOTE !in v
    ensures Gather(body, QUOTE, v + ("'\n" + tail)) == Quoted(body + "\n" + v + "'", tail)
    decreases |v|
  {
    ClosingSingle(body, []);
    if '\n' !in v {
      assert v + ("'\n" + tail) == (v + "'") + ("\n" + tail);
      GatherOneLine(body, v + "'", tail, QUOTE);
      GatherClosed(body + "\n" + v, tail);
      assert body + "\n" + (v + "'") == (body + "\n" + v) + "'";
    } else {
      var line, others := SplitFirstLine(v);
      assert forall c :: c in line || c in others ==> c in v;
      Regroup(line, others, "'\n" + tail);
      GatherOneLine(body, line, others + ("'\n" + tail), QUOTE);
      GatherLiteral(body + "\n" + line, others, tail);
      JoinLines(body, line, others);
    }
  }

  lemma {:induction false} LineEndIsFirst(s: string)
    ensures '\n' !in s[..LineEnd(s)]
    ensures LineEnd(s) < |s| ==> s[LineEnd(s)] == '\n'
    ensures LineEnd(s) == |s| <==> '\n' !in s
  {
    if s != [] && s[0] != '\n' {
      LineEndIsFirst(s[1..]);
      assert s == [s[0]] + s[1..];
      assert s[..LineEnd(s)] == [s[0]] + s[1..][..LineEnd(s[1..])];
    }
  }

  /** What a literal value becomes: its first line loses its trailing whitespace if others follow. */
  function FirstLineTrimmed(v: string): string {
    var p := LineEnd(v);
    if p == |v| then v else RStrip(v[..p]) + v[p..]
  }

  lemma {:induction false} RStripIsPrefix(s: string)
    ensures RStrip(s) <= s
  {
    if s != [] && IsSpace(s[|s| - 1]) {
      RStripIsPrefix(s[..|s| - 1]);
    }
  }

  lemma LiteralLineShape(k: string, v: string, tail: string)
    ensures LiteralLine(k, v) + tail == k + ("=" + ("'" + v + "'")) + ("\n" + tail)
  {
  }

  lemma LiteralLinesShape(k: string, line: string, others: string, tail: string)
    ensures LiteralLine(k, line + ("\n" + others)) + tail ==
            k + ("=" + ("'" + line)) + ("\n" + (others + ("'\n" + tail)))
  {
  }

  lemma ParseOneLineLiteral(k: string, v: string, tail: string, env: Env)
    requires ValidKey(k) && QUOTE !in v && '\n' !in v
    ensures Parse(LiteralLine(k, v) + tail, env) == Parse(tail, env[k := v])
  {
    var raw := "'" + v + "'";
    LiteralLineShape(k, v, tail);
    StripBracketed(raw);
    assert raw[1..] == v + "'";
    GatherClosed(v, tail);
    ParseDeclLine(k, raw, tail, env);
  }

  lemma OpeningLine(first: string)
    ensures Strip("'" + first) == "'" + RStrip(first) && ("'" + RStrip(first))[1..] == RStrip(first)
  {
    RStripAppend("'", first);
    LStripKeeps("'" + RStrip(first));
    assert RStrip("'") == "'" == "'" + [];
  }

  lemma LiteralBodyGivesBack(line: string, others: string, tail: string)
    requires QUOTE !in line && QUOTE !in others
    ensures var g := Gather(RStrip(line), QUOTE, others + ("'\n" + tail));
            g.rest == tail && QuotedValue(g.body, QUOTE) == RStrip(line) + "\n" + others
  {
    var body := RStrip(line);
    RStripIsPrefix(line);
    GatherLiteral(body, others, tail);
    GatherClosed(body + "\n" + others, tail);
  }

  lemma ParseMultiLineLiteral(k: string, line: string, others: string, tail: string, env: Env)
    requires ValidKey(k) && QUOTE !in line && QUOTE !in others && '\n' !in line
    ensures Parse(LiteralLine(k, line + ("\n" + others)) + tail, env) ==
            Parse(tail, env[k := RStrip(line) + "\n" + others])
  {
    LiteralBodyGivesBack(line, others, tail);
    LiteralLinesShape(k, line, others, tail);
    OpeningLine(line);
    ParseDeclLine(k, "'" + line, others + ("'\n" + tail), env);
  }

  lemma FirstLineTrimmedShape(line: string, others: string)
    requires '\n' !in line
    ensures FirstLineTrimmed(line + ("\n" + others)) == RStrip(line) + "\n" + others
  {
    LineEndAt(line, others);
    var v := line + ("\n" + others);
    assert v[..|line|] == line && v[|line|..] == "\n" + others;
  }

  lemma RStripShortens(s: string)
    ensures RStrip(s) == s <==> s == [] || !IsSpace(s[|s| - 1])
  {
    if s != [] && IsSpace(s[|s| - 1]) {
      assert |RStrip(s)| < |s|;
    }
  }

  lemma ShorterPrefixDiffers(a: string, line: string, others: string)
    ensures a + "\n" + others == line + ("\n" + others) ==> |a| == |line|
    ensures a == line ==> a + "\n" + others == line + ("\n" + others)
  {
    assert |a + "\n" + others| == |a| + 1 + |others|;
    assert |line + ("\n" + others)| == |line| + 1 + |others|;
  }

  lemma TrimmedIffLonger(line: string, others: string)
    ensures RStrip(line) + "\n" + others == line + ("\n" + others) <==> line == [] || !IsSpace(line[|line| - 1])
  {
    var trimmed := RStrip(line);
    RStripShortens(line);
    RStripIsPrefix(line);
    ShorterPrefixDiffers(trimmed, line, others);
  }

  lemma SplitTrimmedIff(v: string, line: string, others: string)
    requires v == line + ("\n" + others) && '\n' !in line
    ensures FirstLineTrimmed(v) == v <==> LineEnd(v) == 0 || !IsSpace(v[LineEnd(v) - 1])
  {
    LineEndAt(line, others);
    FirstLineTrimmedShape(line, others);
    TrimmedIffLonger(line, others);
    if line != [] {
      LastOfFirstLine(line, others);
    }
  }

  lemma LastOfFirstLine(line: string, others: string)
    requires line != []
    ensures (line + ("\n" + others))[|line| - 1] == line[|line| - 1]
  {
  }

  /** The first line is trimmed only if it needs to be. */
  lemma FirstLineTrimmedIff(v: string)
    ensures FirstLineTrimmed(v) == v <==> '\n' !in v || LineEnd(v) == 0 || !IsSpace(v[LineEnd(v) - 1])
  {
    LineEndIsFirst(v);
    if '\n' in v {
      var line, others := SplitFirstLine(v);
      SplitTrimmedIff(v, line, others);
    }
  }

  lemma ParseLiteral(k: string, v: string)
    requires ValidKey(k) && QUOTE !in v
    ensures Parse(LiteralLine(k, v), map[]) == map[k := FirstLineTrimmed(v)]
  {
    assert LiteralLine(k, v) + [] == LiteralLine(k, v);
    LineEndIsFirst(v);
    if '\n' in v {
      var line, others := SplitFirstLine(v);
      assert forall c :: c in line || c in others ==> c in v;
      ParseMultiLineLiteral(k, line, others, [], map[]);
      FirstLineTrimmedShape(line, others);
    } else {
      ParseOneLineLiteral(k, v, [], map[]);
    }
  }

  lemma LiteralReadsBack(k: string, v: string)
    requires ValidKey(k) && QUOTE !in v && '\r' !in v
    ensures Parse(ReadText(LiteralLine(k, v)), map[]) == map[k := v] <==>
            '\n' !in v || LineEnd(v) == 0 || !IsSpace(v[LineEnd(v) - 1])
  {
    KeyIsPlain(k);
    ReadTextUnchanged(LiteralLine(k, v));
    ParseLiteral(k, v);
    FirstLineTrimmedIff(v);
    assert map[k := v][k] == v && map[k := FirstLineTrimmed(v)][k] == FirstLineTrimmed(v);
  }

  // ----- KEY=plain, as exported -----

  predicate SpaceThenHash(v: string) {
    exists i :: 0 <= i < |v| - 1 && IsSpace(v[i]) && v[i + 1] == '#'
  }

  /** No line break, no leading quote, no outer whitespace, no whitespace before a '#'. */
  predicate Plain(v: string) {
    && '\n' !in v && '\r' !in v
    && (v != [] ==> !IsQuote(v[0]) && !IsSpace(v[0]) && !IsSpace(v[|v| - 1]))
    && !SpaceThenHash(v)
  }

  lemma SpaceThenHashTail(s: string)
    requires s != []
    ensures SpaceThenHash(s) <==> (|s| > 1 && IsSpace(s[0]) && s[1] == '#') || SpaceThenHash(s[1..])
  {
    var t := s[1..];
    assert forall i :: 0 <= i < |t| ==> t[i] == s[i + 1];
    if SpaceThenHash(t) {
      var i :| 0 <= i < |t| - 1 && IsSpace(t[i]) && t[i + 1] == '#';
      assert IsSpace(s[i + 1]) && s[i + 1 + 1] == '#';
    }
    if SpaceThenHash(s) {
      var i :| 0 <= i < |s| - 1 && IsSpace(s[i]) && s[i + 1] == '#';
      assert i > 0 ==> IsSpace(t[i - 1]) && t[i - 1 + 1] == '#';
    }
  }

  lemma {:induction false} CommentStartsAtSpaceThenHash(s: string)
    requires StartsComment(s)
    ensures SpaceThenHash(s)
  {
    var t := s[1..];
    SpaceThenHashTail(s);
    assert LStrip(s) == LStrip(t) && t != [] && s[1] == t[0];
    if IsSpace(t[0]) {
      CommentStartsAtSpaceThenHash(t);
    } else {
      assert LStrip(t) == t;
    }
  }

  lemma SpaceThenHashStartsComment(s: string)
    requires |s| > 1 && IsSpace(s[0]) && s[1] == '#'
    ensures StartsComment(s)
  {
    assert s[1..][0] == '#';
    assert LStrip(s[1..]) == s[1..];
  }

  /** A comment is cut off exactly when whitespace precedes a '#'. */
  lemma {:induction false} CutCommentIff(s: string)
    ensures CutComment(s) == s <==> !SpaceThenHash(s)
  {
    if s != [] {
      SpaceThenHashTail(s);
      CutCommentIff(s[1..]);
      if StartsComment(s) {
        CommentStartsAtSpaceThenHash(s);
      } else {
        if |s| > 1 && IsSpace(s[0]) && s[1] == '#' {
          SpaceThenHashStartsComment(s);
        }
        assert CutComment(s)[1..] == CutComment(s[1..]);
        assert s == [s[0]] + s[1..];
      }
    }
  }

  lemma LStripShortens(s: string)
    ensures LStrip(s) == s <==> s == [] || !IsSpace(s[0])
  {
    if s != [] && IsSpace(s[0]) {
      assert |LStrip(s)| < |s|;
    }
  }

  lemma StripIff(s: string)
    ensures Strip(s) == s <==> s == [] || (!IsSpace(s[0]) && !IsSpace(s[|s| - 1]))
  {
    RStripShortens(s);
    LStripShortens(s);
    if RStrip(s) != s {
      RStripIsPrefix(s);
      assert |Strip(s)| < |s|;
    }
  }

  /** Plain says what the reader does to an unquoted value: nothing. */
  lemma PlainMeansUntouched(v: string)
    ensures Plain(v) <==> '\n' !in v && '\r' !in v && !(v != [] && IsQuote(v[0])) && Strip(v) == v && CutComment(v) == v
  {
    StripIff(v);
    CutCommentIff(v);
  }

  lemma ParsePlainLine(k: string, v: string, tail: string, env: Env)
    requires ValidKey(k) && Plain(v)
    ensures Parse(PlainLine(k, v) + tail, env) == Parse(tail, env[k := v])
  {
    assert PlainLine(k, v) + tail == k + ("=" + v) + ("\n" + tail);
    PlainMeansUntouched(v);
    ParseDeclLine(k, v, tail, env);
  }

  lemma ParseCommentLine(c: string, tail: string, env: Env)
    requires '\n' !in c
    ensures Parse("#" + c + ("\n" + tail), env) == Parse(tail, env)
  {
    CutAt("#" + c, tail);
    RStripAppend("#", c);
    assert RStrip("#") == "#";
    assert Strip("#" + c) != [] && Strip("#" + c)[0] == '#';
  }

  lemma ParseComments(c1: string, c2: string, c3: string, tail: string, env: Env)
    requires '\n' !in c1 && '\n' !in c2 && '\n' !in c3
    ensures Parse("#" + c1 + ("\n" + ("#" + c2 + ("\n" + ("#" + c3 + ("\n" + ("\n" + tail)))))), env) == Parse(tail, env)
  {
    var t3 := "\n" + tail;
    var t2 := "#" + c3 + ("\n" + t3);
    var t1 := "#" + c2 + ("\n" + t2);
    ParseCommentLine(c1, t1, env);
    ParseCommentLine(c2, t2, env);
    ParseCommentLine(c3, t3, env);
    ParseBlankLine(tail, env);
  }

  lemma ParseBlankLine(tail: string, env: Env)
    ensures Parse("\n" + tail, env) == Parse(tail, env)
  {
    assert [] + ("\n" + tail) == "\n" + tail;
    CutAt([], tail);
  }

  lemma HeaderShape(exportedAt: string, deploymentID: string, tail: string)
    ensures Header(exportedAt, deploymentID) + tail ==
            "#" + " Environment Variables" +
            ("\n" + ("#" + (" Exported: " + exportedAt) +
            ("\n" + ("#" + (" Deployment: " + deploymentID) + ("\n" + ("\n" + tail))))))
  {
    assert "# Environment Variables\n" == "#" + " Environment Variables" + "\n";
    assert "# Exported: " == "#" + " Exported: ";
    assert "# Deployment: " == "#" + " Deployment: ";
  }

  lemma ParseHeader(exportedAt: string, deploymentID: string, tail: string, env: Env)
    requires '\n' !in exportedAt && '\n' !in deploymentID
    ensures Parse(Header(exportedAt, deploymentID) + tail, env) == Parse(tail, env)
  {
    HeaderShape(exportedAt, deploymentID, tail);
    ParseComments(" Environment Variables", " Exported: " + exportedAt, " Deployment: " + deploymentID, tail, env);
  }

  function Restore(order: seq<string>, vars: Env, env: Env): Env
    requires forall k :: k in order ==> k in vars
  {
    if order == [] then env else Restore(order[1..], vars, env[order[0] := vars[order[0]]])
  }

  lemma {:induction false} RestoreGives(order: seq<string>, vars: Env, env: Env, k: string)
    requires forall n :: n in order ==> n in vars
    ensures k in Restore(order, vars, env) <==> k in env || k in order
    ensures k in order ==> Restore(order, vars, env)[k] == vars[k]
    ensures k !in order && k in env ==> Restore(order, vars, env)[k] == env[k]
  {
    if order != [] {
      RestoreGives(order[1..], vars, env[order[0] := vars[order[0]]], k);
      assert k in order <==> k == order[0] || k in order[1..];
    }
  }

  lemma RestoreWhole(order: seq<string>, vars: Env)
    requires IsOrder(order, vars)
    ensures Restore(order, vars, map[]) == vars
  {
    forall k
      ensures k in Restore(order, vars, map[]) <==> k in vars
      ensures k in vars ==> Restore(order, vars, map[])[k] == vars[k]
    {
      RestoreGives(order, vars, map[], k);
    }
  }

  lemma {:induction false} ParsePlainLines(order: seq<string>, vars: Env, env: Env)
    requires forall k :: k in order ==> k in vars && ValidKey(k) && Plain(vars[k])
    ensures Parse(PlainLines(order, vars), env) == Restore(order, vars, env)
  {
    if order != [] {
      var k, others := order[0], order[1..];
      ParsePlainLine(k, vars[k], PlainLines(others, vars), env);
      ParsePlainLines(others, vars, env[k := vars[k]]);
    }
  }

  lemma {:induction false} PlainLinesHaveNoReturn(order: seq<string>, vars: Env)
    requires forall k :: k in order ==> k in vars && ValidKey(k) && Plain(vars[k])
    ensures '\r' !in PlainLines(order, vars)
  {
    if order != [] {
      KeyIsPlain(order[0]);
      PlainLinesHaveNoReturn(order[1..], vars);
    }
  }

  lemma HeaderHasNoReturn(exportedAt: string, deploymentID: string)
    requires '\r' !in exportedAt && '\r' !in deploymentID
    ensures '\r' !in Header(exportedAt, deploymentID)
  {
  }

  lemma ParseExport(exportedAt: string, deploymentID: string, lines: string)
    requires '\n' !in exportedAt && '\r' !in exportedAt && '\n' !in deploymentID && '\r' !in deploymentID
    requires '\r' !in lines
    ensures Parse(ReadText(Header(exportedAt, deploymentID) + lines), map[]) == Parse(lines, map[])
  {
    HeaderHasNoReturn(exportedAt, deploymentID);
    ReadTextUnchanged(Header(exportedAt, deploymentID) + lines);
    ParseHeader(exportedAt, deploymentID, lines, map[]);
  }

  /** Exporting and reading back gives the same variables, in whatever order they were printed. */
  lemma ExportRoundTrip(exportedAt: string, deploymentID: string, order: seq<string>, vars: Env)
    requires IsOrder(order, vars)
    requires '\n' !in exportedAt && '\r' !in exportedAt && '\n' !in deploymentID && '\r' !in deploymentID
    requires forall k :: k in vars ==> ValidKey(k) && Plain(vars[k])
    ensures Parse(ReadText(Header(exportedAt, deploymentID) + PlainLines(order, vars)), map[]) == vars
  {
    PlainLinesHaveNoReturn(order, vars);
    ParseExport(exportedAt, deploymentID, PlainLines(order, vars));
    ParsePlainLines(order, vars, map[]);
    RestoreWhole(order, vars);
  }
}
