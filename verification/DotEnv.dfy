/**
  The .env reader of scripts/monorepo/deploy_monorepo.py: parse_env_file and _closing_quote, and the
  KEY=VALUE printer of exportEnvHandler in cmd/api/env_handlers.go.
  */
module DotEnv {
  import opened Shared

  type Env = map<string, string>

  const QUOTE: char := '\''
  const DOUBLE: char := '"'

  /** str.isspace, which str.strip and the \s of `re` share; wider than Go's unicode.IsSpace. */
  predicate IsSpace(c: char) {
    var u := c as int;
    || 0x09 <= u <= 0x0D || 0x1C <= u <= 0x20 || u == 0x85 || u == 0xA0 || u == 0x1680
    || 0x2000 <= u <= 0x200A || u == 0x2028 || u == 0x2029 || u == 0x202F || u == 0x205F || u == 0x3000
  }

  function LStrip(s: string): (r: string)
    ensures |r| <= |s|
  {
    if s != [] && IsSpace(s[0]) then LStrip(s[1..]) else s
  }

  function RStrip(s: string): (r: string)
    ensures |r| <= |s|
  {
    if s != [] && IsSpace(s[|s| - 1]) then RStrip(s[..|s| - 1]) else s
  }

  function Strip(s: string): string {
    LStrip(RStrip(s))
  }

  /** Path.read_text: universal newlines. */
  function ReadText(s: string): (r: string)
    ensures |r| <= |s|
  {
    if s == [] then []
    else if s[0] == '\r' then ['\n'] + ReadText(if |s| > 1 && s[1] == '\n' then s[2..] else s[1..])
    else [s[0]] + ReadText(s[1..])
  }

  /** The index of the first newline, or the length. */
  function LineEnd(s: string): (p: nat)
    ensures p <= |s|
  {
    if s == [] || s[0] == '\n' then 0 else LineEnd(s[1..]) + 1
  }

  /** What follows the first line. */
  function AfterLine(s: string): (r: string)
    ensures |r| <= |s| && (s != [] ==> |r| < |s|)
  {
    if LineEnd(s) < |s| then s[LineEnd(s) + 1..] else []
  }

  // ----- values -----

  /** _closing_quote: the index of the quote that ends the body, or -1. */
  function ClosingQuote(body: string, quote: char): (j: int)
    ensures -1 <= j < |body|
  {
    if body == [] then -1
    else if quote == DOUBLE && body[0] == '\\' then
      if |body| < 2 then -1
      else
        var j := ClosingQuote(body[2..], quote);
        if j == -1 then -1 else j + 2
    else if body[0] == quote then 0
    else
      var j := ClosingQuote(body[1..], quote);
      if j == -1 then -1 else j + 1
  }

  /** A value's text after the opening quote, and the lines it leaves unread. */
  datatype Quoted = Quoted(body: string, rest: string)

  /** A quoted value may continue over following lines. */
  function Gather(body: string, quote: char, rest: string): (g: Quoted)
    ensures |g.rest| <= |rest|
    decreases |rest|
  {
    if ClosingQuote(body, quote) != -1 || rest == [] then Quoted(body, rest)
    else Gather(body + "\n" + rest[..LineEnd(rest)], quote, AfterLine(rest))
  }

  /** _ESCAPES, with unknown escapes kept as they are. */
  function Expand(c: char): string {
    if c == 'n' then "\n" else if c == 'r' then "\r" else if c == 't' then "\t"
    else if c == DOUBLE then "\"" else if c == '\\' then "\\"
    else ['\\', c]
  }

  /** re.sub(r"\\(.)", ...), where the dot stops at a newline. */
  function Unescape(s: string): (r: string)
    ensures |r| <= |s|
  {
    if s == [] then []
    else if s[0] == '\\' && |s| > 1 && s[1] != '\n' then Expand(s[1]) + Unescape(s[2..])
    else [s[0]] + Unescape(s[1..])
  }

  function QuotedValue(body: string, quote: char): (v: string)
    ensures |v| <= |body|
  {
    var end := ClosingQuote(body, quote);
    var inner := if end == -1 then body else body[..end];
    if quote == DOUBLE then Unescape(inner) else inner
  }

  predicate StartsComment(s: string) {
    s != [] && IsSpace(s[0]) && LStrip(s) != [] && LStrip(s)[0] == '#'
  }

  /** re.split(r"\s+#", s, maxsplit=1)[0] */
  function CutComment(s: string): (r: string)
    ensures |r| <= |s|
  {
    if s == [] || StartsComment(s) then [] else [s[0]] + CutComment(s[1..])
  }

  // ----- lines -----

  /** The index of the first '=', or -1. */
  function FindEquals(s: string): (i: int)
    ensures -1 <= i < |s|
  {
    if s == [] then -1
    else if s[0] == '=' then 0
    else
      var i := FindEquals(s[1..]);
      if i == -1 then -1 else i + 1
  }

  datatype Entry = Skip | Assign(key: string, value: string, rest: string)

  function DropExport(line: string): (r: string)
    ensures |r| <= |line|
  {
    if "export " <= line then LStrip(line[7..]) else line
  }

  /** One stripped line; a quoted value may also use up some of the lines in `rest`. */
  function ParseLine(line: string, rest: string): (e: Entry)
    ensures e.Assign? ==> |e.rest| <= |rest|
  {
    if line == [] || line[0] == '#' then Skip
    else
      var decl := DropExport(line);
      var eq := FindEquals(decl);
      if eq == -1 then Skip
      else
        var key := Strip(decl[..eq]);
        var raw := LStrip(decl[eq + 1..]);
        if !ValidKey(key) then Skip
        else if raw != [] && (raw[0] == QUOTE || raw[0] == DOUBLE) then
          var g := Gather(raw[1..], raw[0], rest);
          Assign(key, QuotedValue(g.body, raw[0]), g.rest)
        else Assign(key, Strip(CutComment(raw)), rest)
  }

  function Parse(text: string, env: Env): Env
    decreases |text|
  {
    if text == [] then env
    else
      match ParseLine(Strip(text[..LineEnd(text)]), AfterLine(text))
      case Skip => Parse(AfterLine(text), env)
      case Assign(key, value, rest) => Parse(rest, env[key := value])
  }

  // ----- the code -----

  method ClosingQuoteIndex(body: string, quote: char) returns (end: int)
    ensures end == ClosingQuote(body, quote)
  {
    var j := 0;
    while j < |body|
      invariant 0 <= j <= |body| + 1
      invariant ClosingQuote(body, quote) ==
                if j > |body| || ClosingQuote(body[j..], quote) == -1 then -1 else j + ClosingQuote(body[j..], quote)
    {
      if quote == DOUBLE && body[j] == '\\' {
        assert j + 2 <= |body| ==> body[j..][2..] == body[j + 2..];
        j := j + 2;
        continue;
      }
      if body[j] == quote {
        return j;
      }
      assert body[j..][1..] == body[j + 1..];
      j := j + 1;
    }
    end := -1;
  }

  /** text.find("\n", i), with the length standing for "not found". */
  method FindNewline(text: string, i: nat) returns (eol: nat)
    requires i <= |text|
    ensures eol == i + LineEnd(text[i..])
  {
    eol := i;
    while eol < |text| && text[eol] != '\n'
      invariant i <= eol <= |text|
      invariant i + LineEnd(text[i..]) == eol + LineEnd(text[eol..])
    {
      assert text[eol..][1..] == text[eol + 1..];
      eol := eol + 1;
    }
  }

  function Suffix(text: string, i: nat): string {
    if i < |text| then text[i..] else []
  }

  lemma SuffixAfterLine(text: string, i: nat)
    requires i < |text|
    ensures var eol := i + LineEnd(text[i..]);
            text[i..eol] == Suffix(text, i)[..LineEnd(Suffix(text, i))] && Suffix(text, eol + 1) == AfterLine(Suffix(text, i))
  {
  }

  /** text[i:eol], and where the next line begins. */
  method NextLine(text: string, i: nat, ghost rest: string) returns (line: string, next: nat)
    requires i < |text| && rest == Suffix(text, i)
    ensures line == rest[..LineEnd(rest)] && Suffix(text, next) == AfterLine(rest) && next > i
  {
    var eol := FindNewline(text, i);
    SuffixAfterLine(text, i);
    line, next := text[i..eol], eol + 1;
  }

  lemma GatherStep(body: string, quote: char, rest: string)
    requires ClosingQuote(body, quote) == -1 && rest != []
    ensures Gather(body, quote, rest) == Gather(body + "\n" + rest[..LineEnd(rest)], quote, AfterLine(rest))
  {
  }

  lemma GatherDone(body: string, quote: char, rest: string)
    requires ClosingQuote(body, quote) != -1 || rest == []
    ensures Gather(body, quote, rest) == Quoted(body, rest)
  {
  }

  /** The loop that reads on until the quote closes; `start` is where the next line begins. */
  method ReadBody(text: string, opening: string, quote: char, start: nat, ghost after: string)
    returns (body: string, i: nat, ghost rest: string)
    requires after == Suffix(text, start)
    ensures i >= start && rest == Suffix(text, i) && Quoted(body, rest) == Gather(opening, quote, after)
  {
    i, body, rest := start, opening, after;
    var end := ClosingQuoteIndex(body, quote);
    while end == -1 && i < |text|
      invariant end == ClosingQuote(body, quote) && i >= start
      invariant rest == Suffix(text, i) && Gather(body, quote, rest) == Gather(opening, quote, after)
      decreases |text| - i
    {
      GatherStep(body, quote, rest);
      var line;
      line, i := NextLine(text, i, rest);
      rest := AfterLine(rest);
      body := body + "\n" + line;
      end := ClosingQuoteIndex(body, quote);
    }
    GatherDone(body, quote, rest);
  }

  method ReadQuoted(text: string, opening: string, quote: char, start: nat, ghost after: string)
    returns (value: string, i: nat, ghost rest: string)
    requires after == Suffix(text, start)
    ensures i >= start && rest == Suffix(text, i)
    ensures var g := Gather(opening, quote, after); value == QuotedValue(g.body, quote) && rest == g.rest
  {
    var body;
    body, i, rest := ReadBody(text, opening, quote, start, after);
    var end := ClosingQuoteIndex(body, quote);
    value := if end == -1 then body else body[..end];
    if quote == DOUBLE {
      value := Unescape(value);
    }
  }

  lemma ParseStep(text: string, env: Env)
    requires text != []
    ensures Parse(text, env) ==
            match ParseLine(Strip(text[..LineEnd(text)]), AfterLine(text))
            case Skip => Parse(AfterLine(text), env)
            case Assign(key, value, rest) => Parse(rest, env[key := value])
  {
  }

  /** One line of the file, already stripped; `next` is where the following line begins. */
  method ReadLine(text: string, stripped: string, next: nat, ghost after: string)
    returns (found: bool, key: string, value: string, i: nat, ghost rest: string)
    requires after == Suffix(text, next)
    ensures i >= next && rest == Suffix(text, i)
    ensures ParseLine(stripped, after) == if found then Assign(key, value, rest) else Skip
    ensures !found ==> rest == after
  {
    found, key, value, i, rest := false, "", "", next, after;
    if stripped == [] || stripped[0] == '#' {
      return;
    }
    var line := stripped;
    if "export " <= line {
      line := LStrip(line[7..]);
    }
    var eq := FindEquals(line);
    if eq == -1 {
      return;
    }
    key := Strip(line[..eq]);
    var raw := LStrip(line[eq + 1..]);
    if !ValidKey(key) {
      return;
    }
    found := true;
    if raw != [] && (raw[0] == QUOTE || raw[0] == DOUBLE) {
      value, i, rest := ReadQuoted(text, raw[1..], raw[0], next, after);
    } else {
      value := Strip(CutComment(raw));
    }
  }

  /** parse_env_file on the text of the file. */
  method ParseEnvText(text: string) returns (env: Env)
    ensures env == Parse(text, map[])
  {
    env := map[];
    var i := 0;
    ghost var rest := text;
    assert Suffix(text, 0) == text;
    while i < |text|
      invariant rest == Suffix(text, i) && Parse(rest, env) == Parse(text, map[])
      decreases |text| - i
    {
      ParseStep(rest, env);
      var line, next := NextLine(text, i, rest);
      var found, key, value;
      found, key, value, i, rest := ReadLine(text, Strip(line), next, AfterLine(rest));
      if found {
        env := env[key := value];
      }
    }
  }

  // ----- writers -----

  function EscapeChar(c: char): string {
    if c == '\\' then "\\\\" else if c == DOUBLE then "\\\"" else if c == '\n' then "\\n"
    else if c == '\r' then "\\r" else if c == '\t' then "\\t" else [c]
  }

  /** The inverse of _ESCAPES. */
  function Escape(v: string): string {
    if v == [] then [] else EscapeChar(v[0]) + Escape(v[1..])
  }

  /** KEY="escaped value" */
  function QuotedLine(k: string, v: string): string {
    k + "=\"" + Escape(v) + "\"\n"
  }

  /** KEY='value', the value taken literally. */
  function LiteralLine(k: string, v: string): string {
    k + "='" + v + "'\n"
  }

  /** exportEnvHandler's KEY=VALUE */
  function PlainLine(k: string, v: string): string {
    k + "=" + v + "\n"
  }

  function Header(exportedAt: string, deploymentID: string): string {
    "# Environment Variables\n" + "# Exported: " + exportedAt + "\n" + "# Deployment: " + deploymentID + "\n\n"
  }

  /** The body of the "env" export, for the order in which the handler's map is visited. */
  function PlainLines(order: seq<string>, vars: Env): string
    requires forall k :: k in order ==> k in vars
  {
    if order == [] then [] else PlainLine(order[0], vars[order[0]]) + PlainLines(order[1..], vars)
  }

  function QuotedLines(entries: seq<(string, string)>): string {
    if entries == [] then [] else QuotedLine(entries[0].0, entries[0].1) + QuotedLines(entries[1..])
  }

  /** Later entries win. */
  function AssignAll(entries: seq<(string, string)>, env: Env): Env {
    if entries == [] then env else AssignAll(entries[1..], env[entries[0].0 := entries[0].1])
  }
}
