/**
  Exactly which variables survive exportEnvHandler's KEY=VALUE lines (cmd/api/env_handlers.go), and
  which values survive single quotes, when parse_env_file reads them back.

  The argument is one of weight: a file never yields more than its own length, and it yields that
  much only if every line of it is an unquoted declaration of a plain value.
  */
module DotEnvExact {
  import opened Shared
  import opened DotEnv
  import opened DotEnvRoundTrip

  lemma {:induction false} ReadTextAppend(a: string, x: string)
    requires '\r' !in a
    ensures ReadText(a + x) == a + ReadText(x)
  {
    if a == [] {
      assert a + x == x;
    } else {
      assert (a + x)[1..] == a[1..] + x;
      assert forall c :: c in a[1..] ==> c in a;
      ReadTextAppend(a[1..], x);
    }
  }

  /** Text that ends a line still does. */
  lemma {:induction false} ReadTextEndsLine(s: string)
    requires s != [] && s[|s| - 1] == '\n'
    ensures var u := ReadText(s); u != [] && u[|u| - 1] == '\n'
  {
    if |s| > 1 && !(s[0] == '\r' && |s| == 2) {
      if s[0] == '\r' && s[1] == '\n' {
        ReadTextEndsLine(s[2..]);
      } else {
        ReadTextEndsLine(s[1..]);
      }
    }
  }

  lemma {:induction false} ReadTextHasNoReturn(s: string)
    ensures '\r' !in ReadText(s)
  {
    if s != [] {
      if s[0] == '\r' && |s| > 1 && s[1] == '\n' {
        ReadTextHasNoReturn(s[2..]);
      } else {
        ReadTextHasNoReturn(s[1..]);
      }
    }
  }

  // ----- values are substrings -----

  lemma {:induction false} RStripChars(s: string)
    ensures forall c :: c in RStrip(s) ==> c in s
    ensures |RStrip(s)| == |s| ==> RStrip(s) == s
  {
    RStripIsPrefix(s);
  }

  lemma {:induction false} LStripChars(s: string)
    ensures forall c :: c in LStrip(s) ==> c in s
    ensures |LStrip(s)| == |s| ==> LStrip(s) == s
  {
    if s != [] && IsSpace(s[0]) {
      LStripChars(s[1..]);
    }
  }

  lemma StripChars(s: string)
    ensures forall c :: c in Strip(s) ==> c in s
    ensures |Strip(s)| <= |s| && (|Strip(s)| == |s| ==> Strip(s) == s)
  {
    RStripChars(s);
    LStripChars(RStrip(s));
  }

  lemma {:induction false} CutCommentChars(s: string)
    ensures forall c :: c in CutComment(s) ==> c in s
    ensures |CutComment(s)| == |s| ==> CutComment(s) == s
  {
    if s != [] && !StartsComment(s) {
      CutCommentChars(s[1..]);
    }
  }

  // ----- complete lines -----

  /** Text as Path.read_text returns it, whose last line is complete. */
  predicate IsLines(text: string) {
    (text == [] || text[|text| - 1] == '\n') && '\r' !in text
  }

  lemma SplitAtLineEnd(u: string) returns (x: string, tail: string)
    requires IsLines(u) && u != []
    ensures '\n' !in x && '\r' !in x && u == x + ("\n" + tail) && IsLines(tail)
    ensures u[..LineEnd(u)] == x && AfterLine(u) == tail
  {
    LineEndIsFirst(u);
    var p := LineEnd(u);
    x, tail := u[..p], u[p + 1..];
    if tail != [] {
      assert tail[|tail| - 1] == u[|u| - 1];
    }
  }

  /** A quoted value that reads on over complete lines gains no character by it. */
  lemma {:induction false} GatherOnLines(body: string, quote: char, rest: string)
    requires IsLines(rest)
    ensures var g := Gather(body, quote, rest);
            |g.body| + |g.rest| <= |body| + |rest| && IsLines(g.rest) && ('\r' !in body ==> '\r' !in g.body)
    decreases |rest|
  {
    if ClosingQuote(body, quote) == -1 && rest != [] {
      var line, tail := SplitAtLineEnd(rest);
      GatherStep(body, quote, rest);
      GatherOnLines(body + "\n" + line, quote, tail);
    }
  }

  /** What an unquoted value keeps of its line; all of it only if it is plain. */
  lemma UnquotedIsPlain(raw: string)
    requires '\n' !in raw && '\r' !in raw && !(raw != [] && IsQuote(raw[0]))
    ensures |Strip(CutComment(raw))| <= |raw|
    ensures |Strip(CutComment(raw))| == |raw| ==> Plain(Strip(CutComment(raw)))
  {
    var cut := CutComment(raw);
    CutCommentChars(raw);
    StripChars(cut);
    if |Strip(cut)| == |raw| {
      PlainMeansUntouched(raw);
    }
  }

  /** The value after the equals sign, and the lines left unread. */
  lemma ValueCost(raw: string, tail: string)
    requires '\n' !in raw && '\r' !in raw && IsLines(tail)
    ensures raw != [] && IsQuote(raw[0]) ==>
              var g := Gather(raw[1..], raw[0], tail);
              |QuotedValue(g.body, raw[0])| + |g.rest| < |raw| + |tail| && IsLines(g.rest)
    ensures !(raw != [] && IsQuote(raw[0])) ==>
              && |Strip(CutComment(raw))| <= |raw|
              && (|Strip(CutComment(raw))| == |raw| ==> Plain(Strip(CutComment(raw))))
  {
    if raw != [] && IsQuote(raw[0]) {
      GatherOnLines(raw[1..], raw[0], tail);
    } else {
      UnquotedIsPlain(raw);
    }
  }

  predicate Readable(k: string, v: string) {
    ValidKey(k) && Plain(v)
  }

  /** The parts of a declaration are no longer than its line. */
  lemma DeclarationParts(x: string)
    requires FindEquals(DropExport(Strip(x))) != -1
    ensures var decl := DropExport(Strip(x)); var eq := FindEquals(decl);
            && |Strip(decl[..eq])| + 1 + |LStrip(decl[eq + 1..])| <= |x|
            && (forall c :: c in LStrip(decl[eq + 1..]) ==> c in x)
  {
    var decl := DropExport(Strip(x));
    var eq := FindEquals(decl);
    StripChars(x);
    if "export " <= Strip(x) {
      LStripChars(Strip(x)[7..]);
    }
    assert forall c :: c in decl ==> c in Strip(x);
    StripChars(decl[..eq]);
    LStripChars(decl[eq + 1..]);
  }

  /** What an assignment is made of. */
  lemma AssignmentParts(line: string, rest: string)
    requires ParseLine(line, rest).Assign?
    ensures FindEquals(DropExport(line)) != -1
    ensures var decl := DropExport(line); var eq := FindEquals(decl);
            var key := Strip(decl[..eq]); var raw := LStrip(decl[eq + 1..]);
            && ValidKey(key)
            && ParseLine(line, rest) ==
                 if raw != [] && IsQuote(raw[0]) then
                   var g := Gather(raw[1..], raw[0], rest);
                   Assign(key, QuotedValue(g.body, raw[0]), g.rest)
                 else Assign(key, Strip(CutComment(raw)), rest)
  {
  }

  /** An assignment costs at least its weight in text; exactly that only if its value is plain. */
  lemma AssignCost(x: string, tail: string)
    requires '\n' !in x && '\r' !in x && IsLines(tail) && ParseLine(Strip(x), tail).Assign?
    ensures var e := ParseLine(Strip(x), tail);
            && |e.key| + |e.value| + 2 + |e.rest| <= |x| + 1 + |tail| && IsLines(e.rest)
            && (|e.key| + |e.value| + 2 + |e.rest| == |x| + 1 + |tail| ==> Readable(e.key, e.value))
  {
    var decl := DropExport(Strip(x));
    var raw := LStrip(decl[FindEquals(decl) + 1..]);
    AssignmentParts(Strip(x), tail);
    DeclarationParts(x);
    ValueCost(raw, tail);
  }

  // ----- the weight of an environment -----

  /** The length of its KEY=VALUE lines. */
  ghost function Weight(env: Env): nat
    decreases |env|
  {
    if env == map[] then 0
    else
      var k :| k in env;
      assert (env - {k}).Keys == env.Keys - {k};
      |k| + |env[k]| + 2 + Weight(env - {k})
  }

  lemma {:induction false} WeightOf(env: Env, k: string)
    requires k in env
    ensures Weight(env) == |k| + |env[k]| + 2 + Weight(env - {k})
    decreases |env|
  {
    var l :| l in env && Weight(env) == |l| + |env[l]| + 2 + Weight(env - {l});
    if l != k {
      assert (env - {l}).Keys == env.Keys - {l} && (env - {k}).Keys == env.Keys - {k};
      WeightOf(env - {l}, k);
      WeightOf(env - {k}, l);
      assert env - {l} - {k} == env - {k} - {l};
    }
  }

  lemma WeightPut(env: Env, k: string, v: string)
    ensures Weight(env[k := v]) <= Weight(env) + |k| + |v| + 2
  {
    WeightOf(env[k := v], k);
    if k in env {
      WeightOf(env, k);
      assert env[k := v] - {k} == env - {k};
    } else {
      assert env[k := v] - {k} == env;
    }
  }

  /** `later` is `env` but for variables that a plain declaration could have given. */
  ghost predicate OnlyReadable(env: Env, later: Env) {
    forall k :: k in later ==> (k in env && later[k] == env[k]) || Readable(k, later[k])
  }

  /** Reading adds no more weight than the text has; exactly that only if all it adds is plain. */
  lemma {:induction false} ParseWeight(text: string, env: Env)
    requires IsLines(text)
    ensures Weight(Parse(text, env)) <= Weight(env) + |text|
    ensures Weight(Parse(text, env)) == Weight(env) + |text| ==> OnlyReadable(env, Parse(text, env))
    decreases |text|
  {
    if text != [] {
      ParseStep(text, env);
      var x, tail := SplitAtLineEnd(text);
      match ParseLine(Strip(x), tail)
      case Skip =>
        ParseWeight(tail, env);
      case Assign(key, value, rest) =>
        AssignCost(x, tail);
        WeightPut(env, key, value);
        ParseWeight(rest, env[key := value]);
    }
  }

  /** Reading leaves a key alone or gives it a value from the text. */
  lemma {:induction false} ParseShort(text: string, env: Env, k: string)
    requires IsLines(text) && k in env
    ensures k in Parse(text, env)
    ensures Parse(text, env)[k] == env[k] || |k| + |Parse(text, env)[k]| + 2 <= |text|
    decreases |text|
  {
    if text != [] {
      ParseStep(text, env);
      var x, tail := SplitAtLineEnd(text);
      match ParseLine(Strip(x), tail)
      case Skip =>
        ParseShort(tail, env, k);
      case Assign(key, value, rest) =>
        AssignCost(x, tail);
        ParseShort(rest, env[key := value], k);
    }
  }

  // ----- the exporter -----

  function Restrict(order: seq<string>, vars: Env): Env {
    map k | k in order && k in vars :: vars[k]
  }

  /** The exporter prints exactly the weight of its variables. */
  lemma {:induction false} PlainLinesWeight(order: seq<string>, vars: Env)
    requires Distinct(order) && forall k :: k in order ==> k in vars
    ensures |PlainLines(order, vars)| == Weight(Restrict(order, vars))
  {
    if order != [] {
      var k, others := order[0], order[1..];
      PlainLinesWeight(others, vars);
      WeightOf(Restrict(order, vars), k);
      assert Restrict(order, vars) - {k} == Restrict(others, vars);
    }
  }

  lemma {:induction false} PlainLinesEndLine(order: seq<string>, vars: Env)
    requires forall k :: k in order ==> k in vars
    ensures var lines := PlainLines(order, vars); lines == [] || lines[|lines| - 1] == '\n'
  {
    if order != [] {
      PlainLinesEndLine(order[1..], vars);
    }
  }

  lemma ReadTextIsLines(s: string)
    requires s == [] || s[|s| - 1] == '\n'
    ensures IsLines(ReadText(s))
  {
    ReadTextHasNoReturn(s);
    if s != [] {
      ReadTextEndsLine(s);
    }
  }

  lemma ReadBackIsReadable(order: seq<string>, vars: Env)
    requires IsOrder(order, vars) && Parse(ReadText(PlainLines(order, vars)), map[]) == vars
    ensures forall k :: k in vars ==> Readable(k, vars[k])
  {
    PlainLinesEndLine(order, vars);
    ReadTextIsLines(PlainLines(order, vars));
    ParseWeight(ReadText(PlainLines(order, vars)), map[]);
    PlainLinesWeight(order, vars);
    assert Restrict(order, vars) == vars;
    assert OnlyReadable(map[], vars);
  }

  lemma HeaderIsSkipped(exportedAt: string, deploymentID: string, lines: string)
    requires '\n' !in exportedAt && '\r' !in exportedAt && '\n' !in deploymentID && '\r' !in deploymentID
    ensures Parse(ReadText(Header(exportedAt, deploymentID) + lines), map[]) == Parse(ReadText(lines), map[])
  {
    HeaderHasNoReturn(exportedAt, deploymentID);
    ReadTextAppend(Header(exportedAt, deploymentID), lines);
    ParseHeader(exportedAt, deploymentID, ReadText(lines), map[]);
  }

  /** An export reads back as what was exported exactly when every name is valid and every value plain. */
  lemma ExportRoundTripIff(exportedAt: string, deploymentID: string, order: seq<string>, vars: Env)
    requires IsOrder(order, vars)
    requires '\n' !in exportedAt && '\r' !in exportedAt && '\n' !in deploymentID && '\r' !in deploymentID
    ensures Parse(ReadText(Header(exportedAt, deploymentID) + PlainLines(order, vars)), map[]) == vars <==>
            forall k :: k in vars ==> ValidKey(k) && Plain(vars[k])
  {
    HeaderIsSkipped(exportedAt, deploymentID, PlainLines(order, vars));
    if Parse(ReadText(PlainLines(order, vars)), map[]) == vars {
      ReadBackIsReadable(order, vars);
    } else if forall k :: k in vars ==> ValidKey(k) && Plain(vars[k]) {
      ExportRoundTrip(exportedAt, deploymentID, order, vars);
    }
  }

  // ----- single quotes -----

  lemma {:induction false} NoQuoteBeforeClosing(body: string)
    ensures QUOTE !in QuotedValue(body, QUOTE)
  {
    if body != [] && body[0] != QUOTE {
      NoQuoteBeforeClosing(body[1..]);
      assert body == [body[0]] + body[1..];
      var end := ClosingQuote(body, QUOTE);
      if end != -1 {
        assert body[..end] == [body[0]] + body[1..][..end - 1];
      }
    }
  }

  lemma {:induction false} QuotedChars(body: string)
    ensures forall c :: c in QuotedValue(body, QUOTE) ==> c in body
  {
  }

  lemma LiteralLineParts(k: string, v: string)
    ensures LiteralLine(k, v) == (k + "='") + (v + "'\n")
  {
  }

  lemma OpeningShape(k: string, y: string, tail: string)
    ensures (k + "='") + (y + ("\n" + tail)) == k + ("=" + ("'" + y)) + ("\n" + tail)
  {
  }

  lemma ReadLiteral(k: string, v: string)
    requires ValidKey(k)
    ensures ReadText(LiteralLine(k, v)) == (k + "='") + ReadText(v + "'\n")
  {
    KeyIsPlain(k);
    LiteralLineParts(k, v);
    ReadTextAppend(k + "='", v + "'\n");
  }

  /** A literal declaration as the reader sees it: its first line, and the lines it spills into. */
  lemma PrintedLiteral(k: string, v: string) returns (y: string, tail: string)
    requires ValidKey(k)
    ensures ReadText(LiteralLine(k, v)) == k + ("=" + ("'" + y)) + ("\n" + tail)
    ensures '\n' !in y && '\r' !in y && IsLines(tail) && |y| + |tail| <= |v| + 1
  {
    var printed := v + "'\n";
    ReadLiteral(k, v);
    ReadTextIsLines(printed);
    ReadTextEndsLine(printed);
    y, tail := SplitAtLineEnd(ReadText(printed));
    OpeningShape(k, y, tail);
  }

  /** A literal that is read back as itself has no quote and no carriage return. */
  lemma ReadBackIsLiteral(k: string, v: string)
    requires ValidKey(k) && Parse(ReadText(LiteralLine(k, v)), map[]) == map[k := v]
    ensures QUOTE !in v && '\r' !in v
  {
    var y, tail := PrintedLiteral(k, v);
    RStripChars(y);
    var g := Gather(RStrip(y), QUOTE, tail);
    var first := QuotedValue(g.body, QUOTE);
    OpeningLine(y);
    ParseDeclLine(k, "'" + y, tail, map[]);
    GatherOnLines(RStrip(y), QUOTE, tail);
    ParseShort(g.rest, map[k := first], k);
    assert map[k := v][k] == v;
    NoQuoteBeforeClosing(g.body);
    QuotedChars(g.body);
  }

  /**
    A single-quoted value comes back unchanged exactly when it has no quote, no carriage return and,
    if it spans lines as the docstring allows, a first line that does not end in whitespace: that
    line is stripped before the quote is looked at.
    */
  lemma LiteralRoundTripIff(k: string, v: string)
    requires ValidKey(k)
    ensures Parse(ReadText(LiteralLine(k, v)), map[]) == map[k := v] <==>
            QUOTE !in v && '\r' !in v && ('\n' !in v || LineEnd(v) == 0 || !IsSpace(v[LineEnd(v) - 1]))
  {
    if QUOTE !in v && '\r' !in v {
      LiteralReadsBack(k, v);
    } else if Parse(ReadText(LiteralLine(k, v)), map[]) == map[k := v] {
      ReadBackIsLiteral(k, v);
    }
  }

  // ----- inputs that are lost -----

  lemma CommentIsLost()
    ensures Parse(ReadText(PlainLine("A", "1 #2")), map[]) != map["A" := "1 #2"]
  {
    var v := "1 #2";
    var vars := map["A" := v];
    assert IsSpace(v[1]) && v[2] == '#';
    assert SpaceThenHash(v);
    assert PlainLines(["A"], vars) == PlainLine("A", v);
    if Parse(ReadText(PlainLine("A", v)), map[]) == vars {
      ReadBackIsReadable(["A"], vars);
    }
  }

  lemma FirstLineSpaceIsLost()
    ensures Parse(ReadText(LiteralLine("A", "1 \n2")), map[]) != map["A" := "1 \n2"]
  {
    var v := "1 \n2";
    assert v == "1 " + ("\n" + "2");
    LineEndAt("1 ", "2");
    assert v[2] == '\n';
    LiteralRoundTripIff("A", v);
  }
}
