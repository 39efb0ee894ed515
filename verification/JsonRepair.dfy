/** The last two stages of repairing JSON that a model produced: closing an open string and closing open brackets
    (backend/app/services/ai.py).  The text here is what the earlier, purely textual stages leave. */
module JsonRepair {
  import opened Text

  const QUOTE := '\"'
  const BACKSLASH := '\\'

  // ---- the scanner -------------------------------------------------------------------------

  datatype Scan = Scan(inString: bool, escape: bool, stack: seq<char>)

  function Step(st: Scan, c: char): Scan {
    if st.escape then st.(escape := false)
    else if c == BACKSLASH then st.(escape := true)
    else if c == QUOTE then st.(inString := !st.inString)
    else if st.inString then st
    else if c == '{' then st.(stack := st.stack + ['}'])
    else if c == '[' then st.(stack := st.stack + [']'])
    else if (c == '}' || c == ']') && st.stack != [] && st.stack[|st.stack| - 1] == c then
      st.(stack := st.stack[..|st.stack| - 1])
    else st
  }

  function ScanFrom(st: Scan, s: string): Scan {
    if s == "" then st else Step(ScanFrom(st, s[..|s| - 1]), s[|s| - 1])
  }

  function ScanText(s: string): Scan {
    ScanFrom(Scan(false, false, []), s)
  }

  // ---- what the quote count sees -----------------------------------------------------------

  /** The number of quotes without a backslash right before them: what the pattern finds. */
  function QuoteCount(s: string): nat {
    if s == "" then 0
    else
      var n := |s| - 1;
      QuoteCount(s[..n]) + if s[n] == QUOTE && (n == 0 || s[n - 1] != BACKSLASH) then 1 else 0
  }

  /** The number of backslashes at the end. */
  function Run(s: string): nat {
    if s != "" && s[|s| - 1] == BACKSLASH then 1 + Run(s[..|s| - 1]) else 0
  }

  predicate EndsEscaped(s: string) {
    Run(s) % 2 == 1
  }

  /** The number of quotes behind an even, positive number of backslashes: real quotes that the count misses. */
  function MissedQuotes(s: string): nat {
    if s == "" then 0
    else
      var n := |s| - 1;
      MissedQuotes(s[..n]) + if s[n] == QUOTE && Run(s[..n]) > 0 && !EndsEscaped(s[..n]) then 1 else 0
  }

  // ---- the two stages ----------------------------------------------------------------------

  function Quoted(s: string): string {
    if QuoteCount(s) % 2 == 1 then RStrip(s) + [QUOTE] else s
  }

  function Reversed(s: seq<char>): (r: seq<char>)
    ensures |r| == |s|
  {
    if s == [] then [] else [s[|s| - 1]] + Reversed(s[..|s| - 1])
  }

  function Repaired(s: string): string {
    var t := Quoted(s);
    t + Reversed(ScanText(t).stack)
  }

  lemma ScanNext(s: string, i: nat)
    requires i < |s|
    ensures ScanText(s[..i + 1]) == Step(ScanText(s[..i]), s[i])
  {
    assert s[..i + 1][..i] == s[..i] && s[..i + 1][i] == s[i];
  }

  /** The closers of the brackets that are open at the end of the text, innermost last. */
  method OpenBrackets(cleaned: string) returns (stack: seq<char>)
    ensures stack == ScanText(cleaned).stack
  {
    var inString, escape := false, false;
    stack := [];
    for i := 0 to |cleaned|
      invariant Scan(inString, escape, stack) == ScanText(cleaned[..i])
    {
      var c := cleaned[i];
      ScanNext(cleaned, i);
      if escape {
        escape := false;
        continue;
      }
      if c == BACKSLASH {
        escape := true;
        continue;
      }
      if c == QUOTE {
        inString := !inString;
        continue;
      }
      if inString { continue; }
      if c == '{' {
        stack := stack + ['}'];
      } else if c == '[' {
        stack := stack + [']'];
      } else if (c == '}' || c == ']') && stack != [] && stack[|stack| - 1] == c {
        stack := stack[..|stack| - 1];
      }
    }
    assert cleaned[..|cleaned|] == cleaned;
  }

  method Repair(text: string) returns (cleaned: string)
    ensures cleaned == Repaired(text)
  {
    cleaned := text;
    var unescapedQuotes := QuoteCount(cleaned);
    if unescapedQuotes % 2 == 1 {
      cleaned := RStrip(cleaned) + [QUOTE];
    }
    var stack := OpenBrackets(cleaned);
    cleaned := cleaned + Reversed(stack);
  }

  // ---- counting against scanning -----------------------------------------------------------

  /** The scanner waits for an escaped character exactly behind an odd number of backslashes, and it is in a string
      exactly when the quotes the count sees and the ones it misses add up to an odd number. */
  lemma {:induction false} ScanCounts(s: string)
    ensures ScanText(s).escape <==> EndsEscaped(s)
    ensures ScanText(s).inString <==> (QuoteCount(s) + MissedQuotes(s)) % 2 == 1
    decreases |s|
  {
    if s != "" {
      var n := |s| - 1;
      ScanCounts(s[..n]);
      assert n > 0 && s[n - 1] == BACKSLASH <==> Run(s[..n]) > 0;
    }
  }

  /** The count has the parity of the scanner's state exactly when it misses an even number of quotes. */
  lemma ParityIff(s: string)
    ensures (ScanText(s).inString <==> QuoteCount(s) % 2 == 1) <==> MissedQuotes(s) % 2 == 0
  {
    ScanCounts(s);
  }

  /** Two backslashes and a quote: a string is open, but the count is even and nothing is closed. */
  lemma DoubleBackslashFoolsTheCount()
    ensures var s := [BACKSLASH, BACKSLASH, QUOTE];
      QuoteCount(s) == 0 && ScanText(s).inString && Repaired(s) == s
  {
    var one, two, s := [BACKSLASH], [BACKSLASH, BACKSLASH], [BACKSLASH, BACKSLASH, QUOTE];
    assert s[..2] == two && two[..1] == one && one[..0] == "";
    assert Run(one) == 1 && Run(two) == 2;
    assert QuoteCount(one) == 0 && QuoteCount(two) == 0;
    assert MissedQuotes(one) == 0;
    assert MissedQuotes(two) == 0;
    ScanCounts(s);
    var e := Scan(false, false, []);
    assert ScanFrom(e, one) == Step(e, BACKSLASH);
    assert ScanFrom(e, two) == e;
  }

  // ---- closing what is open ----------------------------------------------------------------

  predicate Closers(stack: seq<char>) {
    forall i | 0 <= i < |stack| :: stack[i] == '}' || stack[i] == ']'
  }

  lemma {:induction false} StackHoldsClosers(st: Scan, s: string)
    requires Closers(st.stack)
    ensures Closers(ScanFrom(st, s).stack)
    decreases |s|
  {
    if s != "" {
      StackHoldsClosers(st, s[..|s| - 1]);
    }
  }

  lemma {:induction false} ScanAppend(st: Scan, a: string, b: string)
    ensures ScanFrom(st, a + b) == ScanFrom(ScanFrom(st, a), b)
    decreases |b|
  {
    if b == "" {
      assert a + b == a;
    } else {
      assert (a + b)[..|a + b| - 1] == a + b[..|b| - 1];
      ScanAppend(st, a, b[..|b| - 1]);
    }
  }

  /** Outside strings the reversed stack closes everything. */
  lemma {:induction false} ReversedCloses(stack: seq<char>)
    requires Closers(stack)
    ensures ScanFrom(Scan(false, false, stack), Reversed(stack)) == Scan(false, false, [])
    decreases |stack|
  {
    if stack != [] {
      var n := |stack| - 1;
      var c := stack[n];
      ReversedCloses(stack[..n]);
      ScanAppend(Scan(false, false, stack), [c], Reversed(stack[..n]));
      assert [c][..0] == "";
      assert ScanFrom(Scan(false, false, stack), [c]) == Step(ScanFrom(Scan(false, false, stack), ""), c);
    }
  }

  lemma {:induction false} ReversedIsClosers(stack: seq<char>)
    requires Closers(stack)
    ensures Closers(Reversed(stack))
    decreases |stack|
  {
    if stack != [] {
      ReversedIsClosers(stack[..|stack| - 1]);
    }
  }

  /** In a string, closers change nothing. */
  lemma {:induction false} ClosersInString(st: Scan, s: string)
    requires st.inString && Closers(s)
    ensures ScanFrom(st, s).inString && ScanFrom(st, s).stack == st.stack
    decreases |s|
  {
    if s != "" {
      ClosersInString(st, s[..|s| - 1]);
    }
  }

  /** One character closes at most one bracket. */
  lemma {:induction false} OnePopEach(st: Scan, s: string)
    ensures |ScanFrom(st, s).stack| + |s| >= |st.stack|
    decreases |s|
  {
    if s != "" { OnePopEach(st, s[..|s| - 1]); }
  }

  predicate Closed(st: Scan) {
    !st.inString && st.stack == []
  }

  /** The second stage closes the text exactly when it starts outside strings and, if there is something to close,
      not behind a backslash that escapes the first closer. */
  lemma StageClosesIff(t: string)
    ensures var st := ScanText(t);
      Closed(ScanText(t + Reversed(st.stack))) <==> !st.inString && (st.stack == [] || !st.escape)
    ensures var st := ScanText(t);
      ScanText(t + Reversed(st.stack)).stack == [] <==> st.stack == [] || (!st.inString && !st.escape)
  {
    var e := Scan(false, false, []);
    var st := ScanText(t);
    var r := Reversed(st.stack);
    ScanAppend(e, t, r);
    StackHoldsClosers(e, t);
    ReversedIsClosers(st.stack);
    if st.stack != [] {
      if st.inString {
        ClosersInString(st, r);
      } else if st.escape {
        ScanAppend(st, r[..1], r[1..]);
        assert r == r[..1] + r[1..] && r[..1][..0] == "";
        assert ScanFrom(st, r[..1]) == Step(ScanFrom(st, ""), r[0]);
        OnePopEach(ScanFrom(st, r[..1]), r[1..]);
      } else {
        ReversedCloses(st.stack);
      }
    }
  }

  // ---- the whole repair --------------------------------------------------------------------

  lemma {:induction false} SpacesDoNotCount(p: string, s: string)
    requires AllSpace(s)
    ensures QuoteCount(p + s) == QuoteCount(p) && MissedQuotes(p + s) == MissedQuotes(p)
    decreases |s|
  {
    if s == "" {
      assert p + s == p;
    } else {
      assert (p + s)[..|p + s| - 1] == p + s[..|s| - 1];
      SpacesDoNotCount(p, s[..|s| - 1]);
    }
  }

  /** What can be read off the text: whether both stages together leave it closed. */
  predicate Repairable(s: string) {
    if QuoteCount(s) % 2 == 0 then
      MissedQuotes(s) % 2 == 0 && (ScanText(s).stack == [] || !EndsEscaped(s))
    else
      MissedQuotes(s) % 2 == 0 <==> !EndsEscaped(RStrip(s))
  }

  lemma OddPlus(q: nat, m: nat)
    requires q % 2 == 1
    ensures (q + m) % 2 == 1 <==> m % 2 == 0
    ensures (q + 1) % 2 == 0 && (q + 0) % 2 == 1
  {
  }

  lemma ScanBehind(p: string, c: char)
    ensures ScanText(p + [c]) == Step(ScanText(p), c)
  {
    var t := p + [c];
    assert t[..|p|] == p && t[..|p| + 1] == t;
    ScanNext(t, |p|);
  }

  lemma QuoteIsCounted(p: string)
    ensures QuoteCount(p + [QUOTE]) == QuoteCount(p) + if Run(p) == 0 then 1 else 0
  {
    var t := p + [QUOTE];
    assert t[..|t| - 1] == p && t[|t| - 1] == QUOTE;
    assert p != "" ==> t[|p| - 1] == p[|p| - 1];
  }

  lemma QuoteBehind(p: string)
    requires QuoteCount(p) % 2 == 1
    ensures var st := ScanText(p + [QUOTE]);
      && !st.escape
      && (st.inString <==> !(MissedQuotes(p) % 2 == 0 <==> !EndsEscaped(p)))
    ensures QuoteCount(p + [QUOTE]) % 2 == 0 <==> Run(p) == 0
  {
    ScanCounts(p);
    OddPlus(QuoteCount(p), MissedQuotes(p));
    ScanBehind(p, QUOTE);
    QuoteIsCounted(p);
  }

  /** State behind the first stage when it appends a quote. */
  lemma AppendedQuote(s: string)
    requires QuoteCount(s) % 2 == 1
    ensures var st := ScanText(Quoted(s));
      && !st.escape
      && (st.inString <==> !(MissedQuotes(s) % 2 == 0 <==> !EndsEscaped(RStrip(s))))
    ensures QuoteCount(Quoted(s)) % 2 == 0 <==> Run(RStrip(s)) == 0
  {
    var p := RStrip(s);
    RStripMeans(s);
    assert s == p + s[|p|..];
    SpacesDoNotCount(p, s[|p|..]);
    QuoteBehind(p);
  }

  /** Both stages leave a text that a rescan ends outside strings with nothing open, exactly for repairable texts. */
  lemma RepairClosesIff(s: string)
    ensures Closed(ScanText(Repaired(s))) <==> Repairable(s)
  {
    var t := Quoted(s);
    StageClosesIff(t);
    ScanCounts(s);
    if QuoteCount(s) % 2 == 1 { AppendedQuote(s); }
  }

  /** Nothing but trailing space is ever taken away. */
  lemma RepairExtends(s: string)
    ensures RStrip(s) <= Repaired(s)
  {
    RStripMeans(s);
    assert RStrip(s) <= Quoted(s);
  }

  lemma {:induction false} ClosersDoNotCount(t: string, r: string)
    requires Closers(r)
    ensures QuoteCount(t + r) == QuoteCount(t)
    decreases |r|
  {
    if r == "" {
      assert t + r == t;
    } else {
      assert (t + r)[..|t + r| - 1] == t + r[..|r| - 1];
      ClosersDoNotCount(t, r[..|r| - 1]);
    }
  }

  lemma UnchangedIff(t: string)
    requires QuoteCount(t) % 2 == 1 ==> !EndsInSpace(t)
    ensures Repaired(t) == t <==> QuoteCount(t) % 2 == 0 && ScanText(t).stack == []
  {
    assert |Repaired(t)| == |Quoted(t)| + |ScanText(Quoted(t)).stack|;
    if QuoteCount(t) % 2 == 1 {
      assert |Quoted(t)| == |t| + 1;
    }
  }

  lemma RepairedCounts(s: string)
    ensures QuoteCount(Repaired(s)) % 2 == 0 <==> QuoteCount(s) % 2 == 0 || Run(RStrip(s)) == 0
    ensures QuoteCount(Repaired(s)) % 2 == 1 ==> !EndsInSpace(Repaired(s))
  {
    var t := Quoted(s);
    var stack := ScanText(t).stack;
    StackHoldsClosers(Scan(false, false, []), t);
    ReversedIsClosers(stack);
    ClosersDoNotCount(t, Reversed(stack));
    if QuoteCount(s) % 2 == 1 { AppendedQuote(s); }
    assert stack != [] ==> Repaired(s)[|Repaired(s)| - 1] == Reversed(stack)[|stack| - 1];
  }

  /** A second run changes nothing exactly when the appended quote was not swallowed by a backslash and the brackets
      were closed or there were none to close. */
  lemma RepairIsIdempotentIff(s: string)
    ensures Repaired(Repaired(s)) == Repaired(s)
      <==> (QuoteCount(s) % 2 == 0 || Run(RStrip(s)) == 0) && (ScanText(Quoted(s)).stack == [] || Repairable(s))
  {
    RepairedCounts(s);
    UnchangedIff(Repaired(s));
    StageClosesIff(Quoted(s));
    RepairClosesIff(s);
  }

  // ---- texts without adjacent backslashes --------------------------------------------------

  predicate NoAdjacentBackslashes(s: string) {
    forall i | 0 < i < |s| :: !(s[i - 1] == BACKSLASH && s[i] == BACKSLASH)
  }

  lemma {:induction false} SingleBackslashesMissNothing(s: string)
    requires NoAdjacentBackslashes(s)
    ensures MissedQuotes(s) == 0 && Run(s) <= 1
    decreases |s|
  {
    if s != "" {
      var n := |s| - 1;
      assert NoAdjacentBackslashes(s[..n]);
      SingleBackslashesMissNothing(s[..n]);
      assert Run(s[..n]) == 1 ==> s[n - 1] == BACKSLASH;
    }
  }

  lemma OrdinaryCountIsExact(s: string)
    requires NoAdjacentBackslashes(s)
    ensures ScanText(s).inString <==> QuoteCount(s) % 2 == 1
  {
    SingleBackslashesMissNothing(s);
    ParityIff(s);
  }

  lemma OrdinaryTextIsRepairable(s: string)
    requires NoAdjacentBackslashes(s) && Run(RStrip(s)) == 0
    ensures Repairable(s)
  {
    SingleBackslashesMissNothing(s);
    assert Run(s) == 0 by {
      if s != "" && !IsSpace(s[|s| - 1]) { assert RStrip(s) == s; }
    }
  }

  /** The everyday case: no two adjacent backslashes, and no backslash at the end but for spaces. */
  lemma OrdinaryTextIsRepaired(s: string)
    requires NoAdjacentBackslashes(s) && Run(RStrip(s)) == 0
    ensures ScanText(s).inString <==> QuoteCount(s) % 2 == 1
    ensures Closed(ScanText(Repaired(s))) && Repaired(Repaired(s)) == Repaired(s)
  {
    OrdinaryCountIsExact(s);
    OrdinaryTextIsRepairable(s);
    RepairClosesIff(s);
    RepairIsIdempotentIff(s);
  }
}
