/**
  Names made safe: slugifyName (cmd/api/db.go), dockerSafeTag and isValidDockerImageName
  (cmd/api/build.go), and validateAppName with its suggestion (cmd/api/main.go).
  */
module NameRules {
  import opened GoStrings

  predicate IsWordChar(c: char) {
    'a' <= c <= 'z' || '0' <= c <= '9'
  }

  // ----- what a slug is -----

  /** Reading left to right: the runs of word characters that have ended, and the one that has not. */
  datatype Runs = Runs(closed: seq<string>, current: string)

  function RunsOf(s: string): Runs {
    if s == [] then Runs([], "")
    else
      var before, c := RunsOf(s[..|s| - 1]), s[|s| - 1];
      if IsWordChar(c) then Runs(before.closed, before.current + [c])
      else if before.current == "" then before
      else Runs(before.closed + [before.current], "")
  }

  /** The maximal runs of word characters, in order. */
  function Words(s: string): seq<string> {
    var r := RunsOf(s);
    if r.current == "" then r.closed else r.closed + [r.current]
  }

  function Join(words: seq<string>): string {
    if words == [] then []
    else if |words| == 1 then words[0]
    else Join(words[..|words| - 1]) + "-" + words[|words| - 1]
  }

  /** The words of the trimmed, lower-cased name joined by single dashes. */
  function Slug(value: string): string {
    Join(Words(ToLower(TrimSpace(value))))
  }

  function Tag(value: string): string {
    if Slug(value) == "" then "app" else Slug(value)
  }

  predicate ProperWords(words: seq<string>) {
    forall i :: 0 <= i < |words| ==> words[i] != [] && forall j :: 0 <= j < |words[i]| ==> IsWordChar(words[i][j])
  }

  /** Word characters and dashes, with a word character at both ends. */
  predicate IsLabel(s: string) {
    && s != [] && IsWordChar(s[0]) && IsWordChar(s[|s| - 1])
    && forall i :: 0 <= i < |s| ==> IsWordChar(s[i]) || s[i] == '-'
  }

  predicate NoDoubleDash(s: string) {
    forall i :: 0 <= i < |s| - 1 ==> !(s[i] == '-' && s[i + 1] == '-')
  }

  /** Docker's rule: word characters at both ends, dots, underscores and dashes inside. */
  predicate ValidImageName(s: string) {
    && s != [] && IsWordChar(s[0]) && IsWordChar(s[|s| - 1])
    && forall i :: 0 < i < |s| - 1 ==> IsWordChar(s[i]) || s[i] == '.' || s[i] == '_' || s[i] == '-'
  }

  /** The hostname label pattern and the length limit. */
  predicate ValidAppName(s: string) {
    IsLabel(s) && |s| <= 63
  }

  // ----- strings.Trim(s, "-") -----

  function TrimLeftDash(s: string): (r: string)
    ensures |r| <= |s|
  {
    if s != [] && s[0] == '-' then TrimLeftDash(s[1..]) else s
  }

  function TrimRightDash(s: string): (r: string)
    ensures |r| <= |s|
  {
    if s != [] && s[|s| - 1] == '-' then TrimRightDash(s[..|s| - 1]) else s
  }

  function TrimDash(s: string): string {
    TrimRightDash(TrimLeftDash(s))
  }

  // ----- the loops -----

  /** The closed words, each followed by a dash where another word could follow, and the open one. */
  function Written(r: Runs): string {
    if r.closed == [] then r.current else Join(r.closed) + "-" + r.current
  }

  /** This loop, unlike DockerSafeTag's, writes a dash for a name that opens with something else. */
  function Leading(v: string): string {
    if v == "" || IsWordChar(v[0]) then "" else "-"
  }

  ghost predicate SlugSoFar(v: string, i: nat, builder: string, previousDash: bool)
    requires i <= |v|
  {
    && builder == (if i == 0 then "" else Leading(v) + Written(RunsOf(v[..i])))
    && (previousDash <==> i > 0 && RunsOf(v[..i]).current == "")
  }

  lemma AppendAfter(leading: string, written: string, c: char)
    ensures leading + (written + [c]) == leading + written + [c]
  {
  }

  lemma SlugSoFarStep(v: string, i: nat, builder: string, previousDash: bool)
    requires i < |v| && SlugSoFar(v, i, builder, previousDash)
    ensures IsWordChar(v[i]) ==> SlugSoFar(v, i + 1, builder + [v[i]], false)
    ensures !IsWordChar(v[i]) ==> SlugSoFar(v, i + 1, if previousDash then builder else builder + ['-'], true)
  {
    RunsStep(v, i);
    if i == 0 {
      assert v[..0] == [];
    } else {
      var written := Written(RunsOf(v[..i]));
      AppendAfter(Leading(v), written, v[i]);
      AppendAfter(Leading(v), written, '-');
    }
  }

  method SlugifyName(value: string) returns (slug: string)
    ensures slug == Slug(value)
  {
    var v := ToLower(TrimSpace(value));
    if v == "" {
      return "";
    }
    var builder: string := "";
    var previousDash := false;
    for i := 0 to |v|
      invariant SlugSoFar(v, i, builder, previousDash)
    {
      SlugSoFarStep(v, i, builder, previousDash);
      var r := v[i];
      if 'a' <= r <= 'z' || '0' <= r <= '9' {
        builder := builder + [r];
        previousDash := false;
      } else if !previousDash {
        builder := builder + ['-'];
        previousDash := true;
      }
    }
    assert v[..|v|] == v;
    TrimOfWritten(v, Leading(v));
    slug := TrimDash(builder);
  }

  method DockerSafeTag(value: string) returns (tag: string)
    ensures tag == Tag(value)
    ensures tag == if Slug(value) == "" then "app" else Slug(value)
  {
    var v := ToLower(TrimSpace(value));
    var builder: string := "";
    var lastWasSeparator := true;
    for i := 0 to |v|
      invariant builder == Written(RunsOf(v[..i]))
      invariant lastWasSeparator <==> RunsOf(v[..i]).current == ""
    {
      RunsStep(v, i);
      var r := v[i];
      if 'a' <= r <= 'z' || '0' <= r <= '9' {
        builder := builder + [r];
        lastWasSeparator := false;
      } else if !lastWasSeparator {
        builder := builder + ['-'];
        lastWasSeparator := true;
      }
    }
    assert v[..|v|] == v;
    assert "" + builder == builder;
    TrimOfWritten(v, "");
    tag := TrimDash(builder);
    if tag == "" {
      return "app";
    }
  }

  method IsValidDockerImageName(name: string) returns (valid: bool)
    ensures valid <==> ValidImageName(name)
    ensures valid <==>
            && name != "" && name[0] !in "._-" && name[|name| - 1] !in "._-"
            && forall i :: 0 <= i < |name| ==> 'a' <= name[i] <= 'z' || '0' <= name[i] <= '9' || name[i] in "._-"
  {
    if name == "" {
      return false;
    }
    var last := |name| - 1;
    for i := 0 to |name|
      invariant i > 0 ==> IsWordChar(name[0])
      invariant i > last ==> IsWordChar(name[last])
      invariant forall j :: 0 < j < i && j < last ==> IsWordChar(name[j]) || name[j] == '.' || name[j] == '_' || name[j] == '-'
    {
      var ch := name[i];
      if i == 0 || i == last {
        if !(('a' <= ch <= 'z') || ('0' <= ch <= '9')) {
          return false;
        }
        continue;
      }
      if !(('a' <= ch <= 'z') || ('0' <= ch <= '9') || ch == '.' || ch == '_' || ch == '-') {
        return false;
      }
    }
    valid := true;
  }

  /** An accepted name, or a refusal with a suggestion that may be empty. */
  method ValidateAppName(name: string) returns (ok: bool, suggestion: string)
    ensures ok <==> ValidAppName(name)
    ensures ok <==>
            && 1 <= |name| <= 63 && name[0] != '-' && name[|name| - 1] != '-'
            && forall i :: 0 <= i < |name| ==> 'a' <= name[i] <= 'z' || '0' <= name[i] <= '9' || name[i] == '-'
    ensures !ok && suggestion != "" ==> ValidAppName(suggestion)
    ensures !ok ==> (suggestion == "" <==> Words(ToLower(TrimSpace(name))) == [])
    ensures !ok && |Slug(name)| <= 63 ==> suggestion == Slug(name)
    ensures !ok && |Slug(name)| > 63 ==> suggestion == Slug(name)[..|suggestion|] && 62 <= |suggestion| <= 63
  {
    suggestion := "";
    ok := IsLabel(name) && |name| <= 63;
    if !ok {
      suggestion := SlugifyName(name);
      SlugIsLabel(name);
      if |suggestion| > 63 {
        CutIsLabel(suggestion, 63);
        CutIsLong(suggestion, 63);
        suggestion := TrimDash(suggestion[..63]);
      }
    }
  }

  // ----- words and slugs -----

  lemma {:induction false} RunsAreProper(s: string)
    ensures ProperWords(RunsOf(s).closed)
    ensures forall j :: 0 <= j < |RunsOf(s).current| ==> IsWordChar(RunsOf(s).current[j])
  {
    if s != [] {
      RunsAreProper(s[..|s| - 1]);
    }
  }

  lemma WordsAreProper(s: string)
    ensures ProperWords(Words(s))
  {
    RunsAreProper(s);
  }

  lemma JoinAppend(words: seq<string>, w: string)
    ensures Join(words + [w]) == if words == [] then w else Join(words) + "-" + w
  {
    assert (words + [w])[..|words|] == words;
  }

  /** What one more character adds to the text written so far. */
  lemma RunsStep(v: string, i: nat)
    requires i < |v|
    ensures var r, r', c := RunsOf(v[..i]), RunsOf(v[..i + 1]), v[i];
            && (IsWordChar(c) ==> Written(r') == Written(r) + [c] && r'.current != "")
            && (!IsWordChar(c) ==> r'.current == "")
            && (!IsWordChar(c) && r.current == "" ==> r' == r)
            && (!IsWordChar(c) && r.current != "" ==> Written(r') == Written(r) + ['-'] && r'.closed != [])
  {
    assert v[..i + 1][..i] == v[..i];
    var r, c := RunsOf(v[..i]), v[i];
    if IsWordChar(c) {
      assert Written(Runs(r.closed, r.current + [c])) == Written(r) + [c];
    } else {
      JoinAppend(r.closed, r.current);
    }
  }

  lemma {:induction false} JoinIsLabel(words: seq<string>)
    requires ProperWords(words)
    ensures words == [] <==> Join(words) == []
    ensures words != [] ==> IsLabel(Join(words)) && NoDoubleDash(Join(words))
  {
    if |words| > 1 {
      var before, w := words[..|words| - 1], words[|words| - 1];
      JoinIsLabel(before);
      LabelAppend(Join(before), w);
    }
  }

  lemma LabelAppend(a: string, w: string)
    requires IsLabel(a) && NoDoubleDash(a) && w != [] && forall j :: 0 <= j < |w| ==> IsWordChar(w[j])
    ensures IsLabel(a + "-" + w) && NoDoubleDash(a + "-" + w)
  {
    var s := a + "-" + w;
    assert forall i :: 0 <= i < |a| ==> s[i] == a[i];
    assert s[|a|] == '-';
    assert forall i :: |a| < i < |s| ==> s[i] == w[i - |a| - 1] && IsWordChar(s[i]);
  }

  lemma TrimOfLabel(s: string)
    requires s == [] || (IsWordChar(s[0]) && IsWordChar(s[|s| - 1]))
    ensures TrimDash(s) == s && TrimDash(s + "-") == s && TrimDash("-" + s) == s && TrimDash("-" + s + "-") == s
  {
    assert ("-" + s)[1..] == s && (s + "-")[..|s|] == s;
    assert ("-" + s + "-")[1..] == s + "-";
    if s == [] {
      assert TrimLeftDash("-") == TrimLeftDash([]);
      assert TrimLeftDash(s + "-") == [];
    } else {
      assert TrimLeftDash(s) == s && TrimLeftDash(s + "-") == s + "-";
      assert TrimRightDash(s) == s;
    }
  }

  /** What has been written is the joined words, with a dash after them if no word is open. */
  lemma WrittenShape(v: string)
    ensures var r := RunsOf(v);
            Written(r) == if r.closed != [] && r.current == "" then Join(Words(v)) + "-" else Join(Words(v))
  {
    var r := RunsOf(v);
    JoinAppend(r.closed, r.current);
    if r.closed != [] && r.current == "" {
      assert Join(r.closed) + "-" + "" == Join(r.closed) + "-";
    }
  }

  lemma TrimOfWritten(v: string, leading: string)
    requires leading == "" || leading == "-"
    ensures TrimDash(leading + Written(RunsOf(v))) == Join(Words(v))
  {
    var written, slug := Written(RunsOf(v)), Join(Words(v));
    WordsAreProper(v);
    JoinIsLabel(Words(v));
    WrittenShape(v);
    TrimWithDashes(leading, slug, written);
  }

  lemma TrimWithDashes(leading: string, slug: string, written: string)
    requires slug == [] || (IsWordChar(slug[0]) && IsWordChar(slug[|slug| - 1]))
    requires leading == "" || leading == "-"
    requires written == slug || written == slug + "-"
    ensures TrimDash(leading + written) == slug
  {
    TrimOfLabel(slug);
    assert "" + written == written;
    assert "-" + (slug + "-") == "-" + slug + "-";
  }

  /** Every slug is empty or a proper label without double dashes. */
  lemma SlugIsLabel(value: string)
    ensures Slug(value) != [] ==> IsLabel(Slug(value)) && NoDoubleDash(Slug(value))
    ensures Slug(value) == [] <==> Words(ToLower(TrimSpace(value))) == []
  {
    WordsAreProper(ToLower(TrimSpace(value)));
    JoinIsLabel(Words(ToLower(TrimSpace(value))));
  }

  // ----- fixed points -----

  /** Splitting a label at its dashes and joining the words again gives it back. */
  lemma {:induction false} WrittenIsText(s: string)
    requires s != [] && IsWordChar(s[0]) && NoDoubleDash(s)
    requires forall i :: 0 <= i < |s| ==> IsWordChar(s[i]) || s[i] == '-'
    ensures Written(RunsOf(s)) == s
    ensures RunsOf(s).current == "" <==> s[|s| - 1] == '-'
  {
    var n := |s| - 1;
    var before := s[..n];
    assert s[..n + 1] == s == before + [s[n]];
    RunsStep(s, n);
    if n == 0 {
      assert before == [];
    } else {
      assert forall i :: 0 <= i < n ==> before[i] == s[i];
      WrittenIsText(before);
      assert s[n] == '-' ==> s[n - 1] != '-';
    }
  }

  lemma JoinOfWords(s: string)
    requires IsLabel(s) && NoDoubleDash(s)
    ensures Join(Words(s)) == s
  {
    WrittenIsText(s);
    JoinAppend(RunsOf(s).closed, RunsOf(s).current);
  }

  lemma LabelIsLower(s: string)
    requires IsLabel(s)
    ensures ToLower(TrimSpace(s)) == s
  {
    TrimOfTrimmed(s);
    assert forall i :: 0 <= i < |s| ==> ToLowerRune(s[i]) == s[i];
  }

  /** Slugs are exactly the fixed points of slugging: the empty name and labels without double dashes. */
  lemma SlugFixedPointIff(s: string)
    ensures Slug(s) == s <==> s == [] || (IsLabel(s) && NoDoubleDash(s))
  {
    SlugIsLabel(s);
    if s == [] {
      assert TrimSpace(s) == [] && ToLower([]) == [];
    } else if IsLabel(s) && NoDoubleDash(s) {
      LabelIsLower(s);
      JoinOfWords(s);
    }
  }

  /** Slugging twice is slugging once. */
  lemma SlugIsIdempotent(value: string)
    ensures Slug(Slug(value)) == Slug(value)
  {
    SlugIsLabel(value);
    SlugFixedPointIff(Slug(value));
  }

  lemma TagIsIdempotent(value: string)
    ensures Tag(Tag(value)) == Tag(value)
  {
    SlugIsIdempotent(value);
    SlugFixedPointIff("app");
  }

  /** Every tag is a valid image name component, whatever the display name was. */
  lemma TagIsValidImageName(value: string)
    ensures ValidImageName(Tag(value))
  {
    SlugIsLabel(value);
  }

  // ----- cutting a slug to length -----

  lemma {:induction false} TrimRightOfLabel(s: string)
    requires s != [] && IsWordChar(s[0]) && forall i :: 0 <= i < |s| ==> IsWordChar(s[i]) || s[i] == '-'
    ensures TrimRightDash(s) <= s && IsLabel(TrimRightDash(s))
  {
    if s[|s| - 1] == '-' {
      TrimRightOfLabel(s[..|s| - 1]);
    }
  }

  /** Cutting a label short and trimming dashes leaves a label. */
  lemma CutIsLabel(s: string, n: nat)
    requires IsLabel(s) && 0 < n <= |s|
    ensures IsLabel(TrimDash(s[..n])) && |TrimDash(s[..n])| <= n
  {
    assert TrimLeftDash(s[..n]) == s[..n];
    TrimRightOfLabel(s[..n]);
  }

  /** Without double dashes the cut and trimmed label lacks at most one character of the cut. */
  lemma CutIsLong(s: string, n: nat)
    requires IsLabel(s) && NoDoubleDash(s) && 1 < n <= |s|
    ensures TrimDash(s[..n]) <= s[..n] && |TrimDash(s[..n])| >= n - 1
  {
    var cut := s[..n];
    assert TrimLeftDash(cut) == cut;
    if cut[n - 1] == '-' {
      assert cut[n - 2] == s[n - 2] && s[n - 2] != '-';
      assert TrimRightDash(cut[..n - 1]) == cut[..n - 1];
    }
  }

  // ----- words -----

  predicate IsWord(w: string) {
    w != [] && forall i :: 0 <= i < |w| ==> 'a' <= w[i] <= 'z' || '0' <= w[i] <= '9'
  }

  lemma {:induction false} RunsOfWord(w: string)
    requires w == [] || IsWord(w)
    ensures RunsOf(w) == Runs([], w)
  {
    if w != [] {
      RunsOfWord(w[..|w| - 1]);
    }
  }

  lemma {:induction false} RunsBehind(p: string, t: string)
    requires RunsOf(p).current == ""
    ensures RunsOf(p + t) == Runs(RunsOf(p).closed + RunsOf(t).closed, RunsOf(t).current)
  {
    if t == [] {
      assert p + t == p;
    } else {
      var n := |t| - 1;
      assert (p + t)[..|p| + n] == p + t[..n];
      RunsBehind(p, t[..n]);
    }
  }

  /** A word is one word, and any other character separates the words before it from those after it. */
  lemma WordsAre(w: string, s: string, c: char, t: string)
    requires IsWord(w) && !IsWord([c])
    ensures Words("") == [] && Words(w) == [w]
    ensures Words(s + [c] + t) == Words(s) + Words(t)
  {
    RunsOfWord(w);
    assert (s + [c])[..|s|] == s;
    RunsBehind(s + [c], t);
    var r := RunsOf(t);
    if r.current != "" {
      assert Words(s) + r.closed + [r.current] == Words(s) + (r.closed + [r.current]);
    }
  }

  /** For example, two words with any other character between them become these words joined by a dash. */
  lemma SlugOfTwoWords(a: string, c: char, b: string)
    requires IsWord(a) && IsWord(b) && !IsWord([c]) && !('A' <= c <= 'Z') && c as int < 128
    ensures Slug(a + [c] + b) == a + "-" + b
  {
    var s := a + [c] + b;
    assert s[0] == a[0] && s[|s| - 1] == b[|b| - 1];
    TrimOfTrimmed(s);
    forall i | 0 <= i < |s|
      ensures ToLower(s)[i] == s[i]
    {
      CasesAre(s, i);
      assert s[i] == if i < |a| then a[i] else if i == |a| then c else b[i - |a| - 1];
    }
    assert ToLower(s) == s;
    WordsAre(a, a, c, b);
    WordsAre(b, a, c, b);
    JoinAppend([], a);
    JoinAppend([a], b);
    assert [] + [a] == [a];
  }
}
