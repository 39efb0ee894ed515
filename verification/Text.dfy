/** Python string operations used by several components. */
module Text {

  /** str.isspace for one code point. */
  predicate IsSpace(c: char) {
    || '\U{9}' <= c <= '\U{D}' || '\U{1C}' <= c <= '\U{20}' || c == '\U{85}' || c == '\U{A0}' || c == '\U{1680}'
    || '\U{2000}' <= c <= '\U{200A}' || c == '\U{2028}' || c == '\U{2029}' || c == '\U{202F}' || c == '\U{205F}'
    || c == '\U{3000}'
  }

  predicate AllSpace(s: string) {
    forall i | 0 <= i < |s| :: IsSpace(s[i])
  }

  predicate EndsInSpace(s: string) {
    s != "" && IsSpace(s[|s| - 1])
  }

  /** str.rstrip */
  function RStrip(s: string): (r: string)
    ensures |r| <= |s| && !EndsInSpace(r)
  {
    if EndsInSpace(s) then RStrip(s[..|s| - 1]) else s
  }

  /** What remains is a prefix, and only whitespace was taken. */
  lemma {:induction false} RStripMeans(s: string)
    ensures RStrip(s) == s[..|RStrip(s)|]
    ensures AllSpace(s[|RStrip(s)|..])
    decreases |s|
  {
    if EndsInSpace(s) {
      RStripMeans(s[..|s| - 1]);
      var k := |RStrip(s)|;
      assert s[..|s| - 1][..k] == s[..k];
      assert s[k..] == s[..|s| - 1][k..] + [s[|s| - 1]];
    }
  }

  /** str.lstrip */
  function LStrip(s: string): (r: string)
    ensures |r| <= |s| && (r == "" || !IsSpace(r[0]))
  {
    if s != "" && IsSpace(s[0]) then LStrip(s[1..]) else s
  }

  /** str.strip */
  function Strip(s: string): string {
    LStrip(RStrip(s))
  }

  /** str.split with a one-character separator */
  function Split(s: string, sep: char): (r: seq<string>)
    ensures r != []
  {
    if s == "" then [""]
    else
      var rest := Split(s[1..], sep);
      if s[0] == sep then [""] + rest else [[s[0]] + rest[0]] + rest[1..]
  }

  predicate EndsWith(s: string, suffix: string) {
    |suffix| <= |s| && s[|s| - |suffix|..] == suffix
  }

  /** Nothing to strip at either end. */
  lemma StripIdentity(s: string)
    requires s == "" || (!IsSpace(s[0]) && !IsSpace(s[|s| - 1]))
    ensures Strip(s) == s
  {
  }

  /** What follows a last non-space character is stripped on its own. */
  lemma {:induction false} RStripAppend(p: string, s: string)
    requires p == "" || !EndsInSpace(p)
    ensures RStrip(p + s) == p + RStrip(s)
    decreases |s|
  {
    if s == "" {
      assert p + s == p;
    } else if EndsInSpace(s) {
      assert (p + s)[..|p + s| - 1] == p + s[..|s| - 1];
      RStripAppend(p, s[..|s| - 1]);
    }
  }

  /** Trailing whitespace is all that RStrip takes. */
  lemma {:induction false} RStripSpaces(p: string, s: string)
    requires AllSpace(s)
    ensures RStrip(p + s) == RStrip(p)
    decreases |s|
  {
    if s == "" {
      assert p + s == p;
    } else {
      assert (p + s)[..|p + s| - 1] == p + s[..|s| - 1];
      RStripSpaces(p, s[..|s| - 1]);
    }
  }
}
