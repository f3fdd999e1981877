/** The parts of Go's strings and unicode packages the platform's name and key rules use. */
module GoStrings {

  /** unicode.IsSpace */
  predicate IsSpace(c: char) {
    var u := c as int;
    || 0x09 <= u <= 0x0D || u == 0x20 || u == 0x85 || u == 0xA0 || u == 0x1680 || 0x2000 <= u <= 0x200A
    || u == 0x2028 || u == 0x2029 || u == 0x202F || u == 0x205F || u == 0x3000
  }

  function TrimLeftSpace(s: string): (r: string)
    ensures |r| <= |s|
  {
    if s != [] && IsSpace(s[0]) then TrimLeftSpace(s[1..]) else s
  }

  function TrimRightSpace(s: string): (r: string)
    ensures |r| <= |s|
  {
    if s != [] && IsSpace(s[|s| - 1]) then TrimRightSpace(s[..|s| - 1]) else s
  }

  function TrimSpace(s: string): string {
    TrimLeftSpace(TrimRightSpace(s))
  }

  /**
    unicode.ToUpper as far as it matters here: exact on every rune whose upper case is ASCII (two
    are not ASCII themselves), while all other runes are left alone and stay outside ASCII.
    */
  function ToUpperRune(c: char): char {
    if 'a' <= c <= 'z' then 'A' + (c - 'a')
    else if c == '\U{131}' then 'I'
    else if c == '\U{17F}' then 'S'
    else c
  }

  /** unicode.ToLower, exact on every rune whose lower case is ASCII, in the same way. */
  function ToLowerRune(c: char): char {
    if 'A' <= c <= 'Z' then 'a' + (c - 'A')
    else if c == '\U{130}' then 'i'
    else if c == '\U{212A}' then 'k'
    else c
  }

  function MapRunes(f: char -> char, s: string): (r: string)
    ensures |r| == |s| && forall i :: 0 <= i < |s| ==> r[i] == f(s[i])
  {
    seq(|s|, i requires 0 <= i < |s| => f(s[i]))
  }

  function ToUpper(s: string): string {
    MapRunes(ToUpperRune, s)
  }

  function ToLower(s: string): string {
    MapRunes(ToLowerRune, s)
  }

  lemma TrimOfTrimmed(s: string)
    requires s == [] || (!IsSpace(s[0]) && !IsSpace(s[|s| - 1]))
    ensures TrimSpace(s) == s
  {
  }

  lemma {:induction false} TrimLeftEnds(s: string)
    ensures TrimLeftSpace(s) != [] ==> !IsSpace(TrimLeftSpace(s)[0])
    ensures s != [] && !IsSpace(s[|s| - 1]) ==> TrimLeftSpace(s) != [] && TrimLeftSpace(s)[|TrimLeftSpace(s)| - 1] == s[|s| - 1]
  {
    if s != [] && IsSpace(s[0]) {
      TrimLeftEnds(s[1..]);
    }
  }

  lemma {:induction false} TrimRightEnds(s: string)
    ensures TrimRightSpace(s) != [] ==> !IsSpace(TrimRightSpace(s)[|TrimRightSpace(s)| - 1])
  {
    if s != [] && IsSpace(s[|s| - 1]) {
      TrimRightEnds(s[..|s| - 1]);
    }
  }

  lemma TrimSpaceEnds(s: string)
    ensures var t := TrimSpace(s); t == [] || (!IsSpace(t[0]) && !IsSpace(t[|t| - 1]))
  {
    TrimRightEnds(s);
    TrimLeftEnds(TrimRightSpace(s));
  }

  /** Whitespace around something that has none at its ends is what TrimSpace removes. */
  lemma TrimOfPadded(w: string, x: string, w': string)
    requires (forall c :: c in w + w' ==> c == ' ' || c == '\t' || c == '\n' || c == '\r' || c == '\U{A0}')
    requires x != [] && !IsSpace(x[0]) && !IsSpace(x[|x| - 1])
    ensures TrimSpace(w + x + w') == x
  {
    assert forall c :: c in w || c in w' ==> c in w + w';
    assert (w + x)[|w + x| - 1] == x[|x| - 1];
    TrimRightPadded(w + x, w');
    TrimLeftPadded(w, x);
  }

  lemma {:induction false} TrimRightPadded(x: string, w: string)
    requires (forall c :: c in w ==> IsSpace(c)) && x != [] && !IsSpace(x[|x| - 1])
    ensures TrimRightSpace(x + w) == x
  {
    if w == [] {
      assert x + w == x;
    } else {
      var n := |w| - 1;
      assert (x + w)[..|x| + n] == x + w[..n];
      assert w[n] in w && forall c :: c in w[..n] ==> c in w;
      TrimRightPadded(x, w[..n]);
    }
  }

  lemma {:induction false} TrimLeftPadded(w: string, x: string)
    requires (forall c :: c in w ==> IsSpace(c)) && x != [] && !IsSpace(x[0])
    ensures TrimLeftSpace(w + x) == x
  {
    if w == [] {
      assert w + x == x;
    } else {
      assert (w + x)[1..] == w[1..] + x;
      assert w[0] in w && forall c :: c in w[1..] ==> c in w;
      TrimLeftPadded(w[1..], x);
    }
  }

  /** Case is changed rune by rune; digits and what is no ASCII letter keep theirs. */
  lemma CasesAre(s: string, i: nat)
    requires i < |s|
    ensures |ToUpper(s)| == |s| == |ToLower(s)|
    ensures 'a' <= s[i] <= 'z' ==> ToUpper(s)[i] as int == s[i] as int - 32 && ToLower(s)[i] == s[i]
    ensures 'A' <= s[i] <= 'Z' ==> ToUpper(s)[i] == s[i] && ToLower(s)[i] as int == s[i] as int + 32
    ensures s[i] as int < 128 && !('a' <= s[i] <= 'z') && !('A' <= s[i] <= 'Z') ==> ToUpper(s)[i] == s[i] == ToLower(s)[i]
    ensures s[i] as int >= 128 && s[i] != '\U{131}' && s[i] != '\U{17F}' ==> ToUpper(s)[i] as int >= 128
    ensures s[i] as int >= 128 && s[i] != '\U{130}' && s[i] != '\U{212A}' ==> ToLower(s)[i] as int >= 128
  {
  }
}
