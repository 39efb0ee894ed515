/** What repairing makes of nested text, with nesting defined by a grammar (backend/app/services/ai.py). */
module JsonNesting {
  import opened Prelude
  import opened Text
  import opened JsonRepair

  // ---- the grammar -------------------------------------------------------------------------

  /** One character of a string literal, or a backslash and the character it escapes. */
  datatype Unit = Ordinary(c: char) | Escaped(c: char)

  /** A plain character, a string literal, or something in brackets. */
  datatype Piece = Plain(c: char) | Literal(units: seq<Unit>) | Object(inner: seq<Piece>) | Array(inner: seq<Piece>)

  predicate FineUnits(us: seq<Unit>) {
    forall i | 0 <= i < |us| :: us[i].Ordinary? ==> us[i].c != '\"' && us[i].c != '\\'
  }

  predicate FinePiece(p: Piece) {
    match p
    case Plain(c) => c !in "\"\\{}[]"
    case Literal(us) => FineUnits(us)
    case Object(inner) => Fine(inner)
    case Array(inner) => Fine(inner)
  }

  predicate Fine(doc: seq<Piece>) {
    forall i | 0 <= i < |doc| :: FinePiece(doc[i])
  }

  function PrintUnits(us: seq<Unit>): string {
    if us == [] then ""
    else
      var u := us[|us| - 1];
      PrintUnits(us[..|us| - 1]) + if u.Ordinary? then [u.c] else ['\\', u.c]
  }

  function PrintPiece(p: Piece): string {
    match p
    case Plain(c) => [c]
    case Literal(us) => "\"" + PrintUnits(us) + "\""
    case Object(inner) => "{" + Print(inner) + "}"
    case Array(inner) => "[" + Print(inner) + "]"
  }

  function Print(doc: seq<Piece>): string {
    if doc == [] then "" else Print(doc[..|doc| - 1]) + PrintPiece(doc[|doc| - 1])
  }

  /** Plain characters, string literals, "{" balanced "}" and "[" balanced "]", one after the other. */
  ghost predicate Balanced(s: string) {
    exists doc :: Fine(doc) && Print(doc) == s
  }

  lemma {:induction false} PrintLast(doc: seq<Piece>, p: Piece)
    ensures Print(doc + [p]) == Print(doc) + PrintPiece(p)
  {
    assert (doc + [p])[..|doc|] == doc;
  }

  // ---- text that breaks off --------------------------------------------------------------------

  /** What stands before an open bracket, and which bracket it is. */
  datatype Frame = Frame(before: seq<Piece>, curly: bool)

  /** Open brackets, what follows the innermost, and possibly an open string literal, which may end in a lone backslash. */
  datatype Open = Open(frames: seq<Frame>, last: seq<Piece>, tail: Option<seq<Unit>>, dangling: bool)

  predicate FineFrames(fs: seq<Frame>) {
    forall i | 0 <= i < |fs| :: Fine(fs[i].before)
  }

  predicate FineOpen(o: Open) {
    FineFrames(o.frames) && Fine(o.last) && (o.tail.Some? ==> FineUnits(o.tail.value)) && (o.dangling ==> o.tail.Some?)
  }

  function Bracket(f: Frame): string {
    if f.curly then "{" else "["
  }

  function PrintFrames(fs: seq<Frame>): string {
    if fs == [] then ""
    else PrintFrames(fs[..|fs| - 1]) + Print(fs[|fs| - 1].before) + Bracket(fs[|fs| - 1])
  }

  function PrintTail(o: Open): string {
    if o.tail == None then "" else "\"" + PrintUnits(o.tail.value) + if o.dangling then "\\" else ""
  }

  function PrintOpen(o: Open): string {
    PrintFrames(o.frames) + Print(o.last) + PrintTail(o)
  }

  /** The matching closers, outermost first. */
  function Matching(fs: seq<Frame>): (r: seq<char>)
    ensures |r| == |fs| && forall i | 0 <= i < |fs| :: r[i] == if fs[i].curly then '}' else ']'
  {
    seq(|fs|, i requires 0 <= i < |fs| => if fs[i].curly then '}' else ']')
  }

  lemma {:induction false} PrintFrame(fs: seq<Frame>, f: Frame)
    ensures PrintFrames(fs + [f]) == PrintFrames(fs) + Print(f.before) + Bracket(f)
  {
    assert (fs + [f])[..|fs|] == fs;
  }

  // ---- the scanner on the grammar -----------------------------------------------------------------

  lemma ScanChar(st: Scan, s: string, c: char)
    ensures ScanFrom(st, s + [c]) == Step(ScanFrom(st, s), c)
  {
    assert (s + [c])[..|s|] == s;
  }

  lemma ScanOne(st: Scan, c: char)
    ensures ScanFrom(st, [c]) == Step(st, c)
  {
    assert [c] == "" + [c];
    ScanChar(st, "", c);
  }

  lemma {:induction false} ScanUnits(st: Scan, us: seq<Unit>)
    requires FineUnits(us) && st.inString && !st.escape
    ensures ScanFrom(st, PrintUnits(us)) == st
    decreases |us|
  {
    if us != [] {
      var init, u := us[..|us| - 1], us[|us| - 1];
      ScanUnits(st, init);
      if u.Ordinary? {
        ScanChar(st, PrintUnits(init), u.c);
      } else {
        assert PrintUnits(us) == PrintUnits(init) + ['\\'] + [u.c];
        ScanChar(st, PrintUnits(init), '\\');
        ScanChar(st, PrintUnits(init) + ['\\'], u.c);
      }
    }
  }

  /** An opening quote and some units. */
  lemma {:induction false} ScanLiteral(st: Scan, us: seq<Unit>)
    requires FineUnits(us) && !st.inString && !st.escape
    ensures ScanFrom(st, "\"" + PrintUnits(us)) == st.(inString := true)
  {
    ScanOne(st, '\"');
    ScanAppend(st, "\"", PrintUnits(us));
    ScanUnits(st.(inString := true), us);
  }

  lemma {:induction false} ScanPiece(st: Scan, p: Piece)
    requires FinePiece(p) && !st.inString && !st.escape
    ensures ScanFrom(st, PrintPiece(p)) == st
    decreases p
  {
    match p
    case Plain(c) => ScanOne(st, c);
    case Literal(us) =>
      ScanLiteral(st, us);
      ScanChar(st, "\"" + PrintUnits(us), '\"');
    case Object(inner) => ScanBracketed(st, "{", inner, '}');
    case Array(inner) => ScanBracketed(st, "[", inner, ']');
  }

  lemma {:induction false} ScanBracketed(st: Scan, open: string, inner: seq<Piece>, close: char)
    requires Fine(inner) && !st.inString && !st.escape
    requires (open == "{" && close == '}') || (open == "[" && close == ']')
    ensures ScanFrom(st, open + Print(inner) + [close]) == st
    decreases inner, 1
  {
    ScanOne(st, open[0]);
    ScanAppend(st, open, Print(inner));
    ScanDoc(st.(stack := st.stack + [close]), inner);
    ScanChar(st, open + Print(inner), close);
  }

  /** Balanced text changes nothing. */
  lemma {:induction false} ScanDoc(st: Scan, doc: seq<Piece>)
    requires Fine(doc) && !st.inString && !st.escape
    ensures ScanFrom(st, Print(doc)) == st
    decreases doc, 0
  {
    if doc != [] {
      ScanDoc(st, doc[..|doc| - 1]);
      ScanPiece(st, doc[|doc| - 1]);
      ScanAppend(st, Print(doc[..|doc| - 1]), PrintPiece(doc[|doc| - 1]));
    }
  }

  /** A balanced text leaves the scanner outside strings with an empty stack. */
  lemma BalancedIsClosed(s: string)
    requires Balanced(s)
    ensures ScanText(s) == Scan(false, false, [])
  {
    var doc :| Fine(doc) && Print(doc) == s;
    ScanDoc(Scan(false, false, []), doc);
  }

  lemma {:induction false} ScanFrame(text: string, stack: seq<char>, f: Frame)
    requires ScanText(text) == Scan(false, false, stack) && Fine(f.before)
    ensures ScanText(text + Print(f.before) + Bracket(f)) == Scan(false, false, stack + [if f.curly then '}' else ']'])
  {
    var e := Scan(false, false, []);
    ScanAppend(e, text, Print(f.before));
    ScanDoc(Scan(false, false, stack), f.before);
    ScanChar(e, text + Print(f.before), Bracket(f)[0]);
  }

  lemma {:induction false} MatchingLast(fs: seq<Frame>)
    requires fs != []
    ensures var n := |fs| - 1; Matching(fs) == Matching(fs[..n]) + [if fs[n].curly then '}' else ']']
  {
  }

  lemma {:induction false} ScanFrames(fs: seq<Frame>)
    requires FineFrames(fs)
    ensures ScanText(PrintFrames(fs)) == Scan(false, false, Matching(fs))
    decreases |fs|
  {
    if fs != [] {
      ScanFrames(fs[..|fs| - 1]);
      ScanFrame(PrintFrames(fs[..|fs| - 1]), Matching(fs[..|fs| - 1]), fs[|fs| - 1]);
      MatchingLast(fs);
    }
  }

  /** The scanner's state is what is open. */
  lemma ScanOpen(o: Open)
    requires FineOpen(o)
    ensures ScanText(PrintOpen(o)) == Scan(o.tail.Some?, o.dangling, Matching(o.frames))
  {
    var e, st := Scan(false, false, []), Scan(false, false, Matching(o.frames));
    ScanFrames(o.frames);
    ScanAppend(e, PrintFrames(o.frames), Print(o.last));
    ScanDoc(st, o.last);
    var closed := PrintFrames(o.frames) + Print(o.last);
    ScanAppend(e, closed, PrintTail(o));
    if o.tail.Some? {
      ScanLiteral(st, o.tail.value);
      var t := "\"" + PrintUnits(o.tail.value);
      if o.dangling { ScanChar(st, t, '\\'); } else { assert PrintTail(o) == t; }
    } else {
      assert closed + PrintTail(o) == closed;
    }
  }

  // ---- prefixes ------------------------------------------------------------------------------

  predicate DropsOne(s: string, t: string) {
    s != "" && t == s[..|s| - 1]
  }

  lemma DropLast(a: string, b: string)
    requires b != ""
    ensures DropsOne(a + b, a + b[..|b| - 1])
  {
  }

  /** One character less of an open literal. */
  lemma DropInLiteral(o: Open) returns (r: Open)
    requires FineOpen(o) && o.tail.Some?
    ensures FineOpen(r) && DropsOne(PrintOpen(o), PrintOpen(r)) && r.frames == o.frames && r.last == o.last
    ensures IsSpace(PrintOpen(o)[|PrintOpen(o)| - 1]) ==> r.tail.Some? && |r.tail.value| < |o.tail.value|
  {
    var closed, us := PrintFrames(o.frames) + Print(o.last), o.tail.value;
    DropLast(closed, PrintTail(o));
    assert PrintOpen(o)[|PrintOpen(o)| - 1] == PrintTail(o)[|PrintTail(o)| - 1];
    if o.dangling {
      r := o.(dangling := false);
      assert PrintTail(r) == PrintTail(o)[..|PrintTail(o)| - 1];
    } else if us == [] {
      r := o.(tail := None);
      assert PrintTail(r) == PrintTail(o)[..|PrintTail(o)| - 1];
    } else {
      r := o.(tail := Some(us[..|us| - 1]), dangling := us[|us| - 1].Escaped?);
      assert PrintTail(r) == PrintTail(o)[..|PrintTail(o)| - 1];
    }
  }

  /** One character less of a bracketed piece: its closer. */
  lemma {:induction false} DropCloser(fs: seq<Frame>, init: seq<Piece>, inner: seq<Piece>, curly: bool)
    ensures var p := if curly then Object(inner) else Array(inner);
      PrintFrames(fs + [Frame(init, curly)]) + Print(inner)
        == PrintFrames(fs) + Print(init) + PrintPiece(p)[..|PrintPiece(p)| - 1]
  {
    var p, f := if curly then Object(inner) else Array(inner), Frame(init, curly);
    PrintFrame(fs, f);
    assert PrintPiece(p)[..|PrintPiece(p)| - 1] == Bracket(f) + Print(inner);
  }

  lemma {:induction false} DropQuote(us: seq<Unit>)
    ensures PrintPiece(Literal(us))[..|PrintPiece(Literal(us))| - 1] == "\"" + PrintUnits(us)
  {
  }

  /** What a text is that breaks off in its last piece. */
  function WithoutLast(o: Open): Open
    requires o.last != []
  {
    var init, p := o.last[..|o.last| - 1], o.last[|o.last| - 1];
    match p
    case Plain(_) => Open(o.frames, init, None, false)
    case Literal(us) => Open(o.frames, init, Some(us), false)
    case Object(inner) => Open(o.frames + [Frame(init, true)], inner, None, false)
    case Array(inner) => Open(o.frames + [Frame(init, false)], inner, None, false)
  }

  lemma WithoutLastIsFine(o: Open)
    requires FineOpen(o) && o.last != []
    ensures FineOpen(WithoutLast(o))
  {
    assert FinePiece(o.last[|o.last| - 1]);
  }

  lemma PrintWithoutLast(o: Open)
    requires o.last != []
    ensures var init, t := o.last[..|o.last| - 1], PrintPiece(o.last[|o.last| - 1]);
      t != "" && PrintOpen(WithoutLast(o)) == PrintFrames(o.frames) + Print(init) + t[..|t| - 1]
  {
    var init, p := o.last[..|o.last| - 1], o.last[|o.last| - 1];
    var r := WithoutLast(o);
    match p
    case Plain(c) => assert PrintPiece(p)[..0] == "";
    case Literal(us) =>
      DropQuote(us);
      assert PrintTail(r) == "\"" + PrintUnits(us);
    case Object(inner) =>
      DropCloser(o.frames, init, inner, true);
      assert PrintTail(r) == "";
    case Array(inner) =>
      DropCloser(o.frames, init, inner, false);
      assert PrintTail(r) == "";
  }

  lemma Associate(a: string, b: string, c: string)
    ensures a + (b + c) + "" == a + b + c
  {
  }

  lemma PrintWithLast(o: Open)
    requires o.tail == None && o.last != []
    ensures PrintOpen(o)
      == PrintFrames(o.frames) + Print(o.last[..|o.last| - 1]) + PrintPiece(o.last[|o.last| - 1])
  {
    Associate(PrintFrames(o.frames), Print(o.last[..|o.last| - 1]), PrintPiece(o.last[|o.last| - 1]));
  }

  /** One character less of the last piece. */
  lemma DropInPiece(o: Open) returns (r: Open)
    requires FineOpen(o) && o.tail == None && o.last != []
    ensures FineOpen(r) && DropsOne(PrintOpen(o), PrintOpen(r))
  {
    r := WithoutLast(o);
    WithoutLastIsFine(o);
    PrintWithoutLast(o);
    PrintWithLast(o);
    DropLast(PrintFrames(o.frames) + Print(o.last[..|o.last| - 1]), PrintPiece(o.last[|o.last| - 1]));
  }

  lemma DropBracket(o: Open) returns (r: Open)
    requires FineOpen(o) && o.tail == None && o.last == [] && o.frames != []
    ensures FineOpen(r) && DropsOne(PrintOpen(o), PrintOpen(r))
  {
    var init, f := o.frames[..|o.frames| - 1], o.frames[|o.frames| - 1];
    r := Open(init, f.before, None, false);
    DropLast(PrintFrames(init) + Print(f.before), Bracket(f));
    assert PrintOpen(o) == PrintFrames(init) + Print(f.before) + Bracket(f);
    assert PrintOpen(r) == PrintFrames(init) + Print(f.before) + Bracket(f)[..0];
  }

  /** Every prefix of a text that breaks off is such a text. */
  lemma {:induction false} PrefixIsOpen(o: Open, k: nat) returns (r: Open)
    requires FineOpen(o) && k <= |PrintOpen(o)|
    ensures FineOpen(r) && PrintOpen(r) == PrintOpen(o)[..k]
    decreases |PrintOpen(o)| - k
  {
    var s := PrintOpen(o);
    if k == |s| {
      r := o;
    } else {
      var p;
      if o.tail.Some? {
        p := DropInLiteral(o);
      } else if o.last != [] {
        p := DropInPiece(o);
      } else {
        p := DropBracket(o);
      }
      r := PrefixIsOpen(p, k);
      assert s[..|s| - 1][..k] == s[..k];
    }
  }

  /** And every prefix of a balanced text is one. */
  lemma PrefixOfBalancedIsOpen(s: string, k: nat) returns (o: Open)
    requires Balanced(s) && k <= |s|
    ensures FineOpen(o) && PrintOpen(o) == s[..k]
  {
    var doc :| Fine(doc) && Print(doc) == s;
    var whole := Open([], doc, None, false);
    assert PrintOpen(whole) == s;
    o := PrefixIsOpen(whole, k);
  }

  // ---- repairing -----------------------------------------------------------------------------

  /** Stripping spaces in an open literal stays in it. */
  lemma {:induction false} StripInLiteral(o: Open) returns (r: Open)
    requires FineOpen(o) && o.tail.Some?
    ensures FineOpen(r) && PrintOpen(r) == RStrip(PrintOpen(o))
    ensures r.frames == o.frames && r.last == o.last && r.tail.Some?
    decreases |o.tail.value|
  {
    var s := PrintOpen(o);
    if EndsInSpace(s) {
      var p := DropInLiteral(o);
      r := StripInLiteral(p);
    } else {
      r := o;
    }
  }

  lemma StripKeepsCounts(s: string)
    ensures QuoteCount(RStrip(s)) == QuoteCount(s) && MissedQuotes(RStrip(s)) == MissedQuotes(s)
    ensures |RStrip(s)| <= |s| && RStrip(s) == s[..|RStrip(s)|]
  {
    RStripMeans(s);
    assert s == RStrip(s) + s[|RStrip(s)|..];
    SpacesDoNotCount(RStrip(s), s[|RStrip(s)|..]);
  }

  /** A backslash that escapes nothing yet stands in a literal. */
  lemma EscapedIsInString(o: Open)
    requires FineOpen(o) && EndsEscaped(PrintOpen(o))
    ensures (QuoteCount(PrintOpen(o)) + MissedQuotes(PrintOpen(o))) % 2 == 1
  {
    ScanOpen(o);
    ScanCounts(PrintOpen(o));
  }

  /** Outside string literals there is no backslash, also before trailing spaces. */
  lemma NoBackslashOutside(o: Open, s: string)
    requires FineOpen(o) && o.tail == None && s == PrintOpen(o)
    ensures !EndsEscaped(RStrip(s))
  {
    StripKeepsCounts(s);
    var r := PrefixIsOpen(o, |RStrip(s)|);
    ScanOpen(o);
    ScanCounts(s);
    if EndsEscaped(RStrip(s)) { EscapedIsInString(r); }
  }

  /** The first stage appends a quote to a repairable text that breaks off exactly in a literal, and not behind a lone
      backslash. */
  lemma QuoteIffInLiteral(o: Open, s: string)
    requires FineOpen(o) && s == PrintOpen(o) && Repairable(s)
    ensures QuoteCount(s) % 2 == 1 <==> o.tail.Some?
    ensures o.tail.Some? ==> !EndsEscaped(RStrip(s))
  {
    ScanOpen(o);
    ScanCounts(s);
    if o.tail == None { NoBackslashOutside(o, s); }
  }

  lemma QuoteBehindTail(frames: string, last: string, open: string)
    ensures frames + (last + (open + "\"")) + "" == frames + last + open + "\""
  {
  }

  /** An open literal and its closing quote. */
  lemma LiteralCloses(p: Open)
    requires FineOpen(p) && p.tail.Some? && !p.dangling
    ensures var r := Open(p.frames, p.last + [Literal(p.tail.value)], None, false);
      FineOpen(r) && PrintOpen(r) == PrintOpen(p) + "\""
  {
    var r := Open(p.frames, p.last + [Literal(p.tail.value)], None, false);
    PrintLast(p.last, Literal(p.tail.value));
    QuoteBehindTail(PrintFrames(p.frames), Print(p.last), "\"" + PrintUnits(p.tail.value));
    assert PrintTail(p) == "\"" + PrintUnits(p.tail.value);
  }

  /** What the first stage makes of a text that breaks off, if it is repairable. */
  lemma QuotedIsOpen(o: Open, s: string) returns (r: Open)
    requires FineOpen(o) && s == PrintOpen(o) && Repairable(s)
    ensures FineOpen(r) && r.tail == None && r.frames == o.frames && PrintOpen(r) == Quoted(s)
    ensures Quoted(s) == if o.tail.Some? then RStrip(s) + "\"" else s
  {
    QuoteIffInLiteral(o, s);
    if o.tail == None {
      r := o;
    } else {
      var p := StripInLiteral(o);
      ScanOpen(p);
      ScanCounts(RStrip(s));
      LiteralCloses(p);
      r := Open(o.frames, p.last + [Literal(p.tail.value)], None, false);
    }
  }

  /** Closing the brackets from the inside. */
  function CloseAll(fs: seq<Frame>, last: seq<Piece>): seq<Piece>
    decreases |fs|
  {
    if fs == [] then last
    else
      var f := fs[|fs| - 1];
      CloseAll(fs[..|fs| - 1], f.before + [if f.curly then Object(last) else Array(last)])
  }

  lemma Nest(a: string, b: string, open: string, inner: string, close: char, rest: string)
    ensures a + (b + (open + inner + [close])) + rest == (a + b + open) + inner + ([close] + rest)
  {
  }

  lemma {:induction false} ReversedMatching(fs: seq<Frame>)
    requires fs != []
    ensures var n := |fs| - 1;
      Reversed(Matching(fs)) == [if fs[n].curly then '}' else ']'] + Reversed(Matching(fs[..n]))
  {
    MatchingLast(fs);
    assert Matching(fs)[..|fs| - 1] == Matching(fs[..|fs| - 1]);
  }

  lemma {:induction false} ClosedIsBalanced(fs: seq<Frame>, last: seq<Piece>)
    requires FineFrames(fs) && Fine(last)
    ensures Fine(CloseAll(fs, last))
    ensures Print(CloseAll(fs, last)) == PrintFrames(fs) + Print(last) + Reversed(Matching(fs))
    decreases |fs|
  {
    if fs != [] {
      var init, f := fs[..|fs| - 1], fs[|fs| - 1];
      var p, c := if f.curly then Object(last) else Array(last), if f.curly then '}' else ']';
      ClosedIsBalanced(init, f.before + [p]);
      PrintLast(f.before, p);
      ReversedMatching(fs);
      Nest(PrintFrames(init), Print(f.before), Bracket(f), Print(last), c, Reversed(Matching(init)));
    }
  }

  lemma {:induction false} ReversedAt(s: seq<char>, i: nat)
    requires i < |s|
    ensures Reversed(s)[|s| - 1 - i] == s[i]
    decreases |s|
  {
    if i < |s| - 1 { ReversedAt(s[..|s| - 1], i); }
  }

  lemma {:induction false} FromTheEnd(kept: string, closers: seq<char>, i: nat)
    requires i < |closers|
    ensures var t := kept + Reversed(closers); t[|t| - 1 - i] == closers[i]
  {
    ReversedAt(closers, i);
  }

  /** Text with open brackets and nothing else open, and the closers. */
  lemma BracketsClose(r: Open, t: string)
    requires FineOpen(r) && r.tail == None && t == PrintOpen(r)
    ensures ScanText(t).stack == Matching(r.frames) && Balanced(t + Reversed(Matching(r.frames)))
  {
    ScanOpen(r);
    ClosedIsBalanced(r.frames, r.last);
    assert PrintOpen(r) == PrintFrames(r.frames) + Print(r.last);
    assert Print(CloseAll(r.frames, r.last)) == t + Reversed(Matching(r.frames));
  }

  lemma {:induction false} AppendedClosers(kept: string, closers: seq<char>)
    ensures var t := kept + Reversed(closers);
      kept <= t && |t| == |kept| + |closers| && forall i | 0 <= i < |closers| :: t[|t| - 1 - i] == closers[i]
  {
    forall i | 0 <= i < |closers|
      ensures (kept + Reversed(closers))[|kept + Reversed(closers)| - 1 - i] == closers[i]
    {
      FromTheEnd(kept, closers, i);
    }
  }

  /** What is left of a text that breaks off: an open literal loses trailing spaces and gets its quote. */
  function Kept(o: Open, s: string): string {
    if o.tail.Some? then RStrip(s) + "\"" else s
  }

  lemma RepairedIs(o: Open, s: string)
    requires FineOpen(o) && s == PrintOpen(o) && Repairable(s)
    ensures Repaired(s) == Kept(o, s) + Reversed(Matching(o.frames)) && Balanced(Repaired(s))
  {
    var r := QuotedIsOpen(o, s);
    BracketsClose(r, Quoted(s));
  }

  /** A repairable text that breaks off gets its open literal closed, and then one closer for each open bracket: counted
      from the end, closer i is '}' exactly when open bracket i is '{'.  The result is balanced. */
  lemma OpenTextIsBalanced(o: Open, s: string)
    requires FineOpen(o) && s == PrintOpen(o) && Repairable(s)
    ensures var t, kept := Repaired(s), Kept(o, s);
      && Balanced(t)
      && kept <= t && |t| == |kept| + |o.frames|
      && forall i | 0 <= i < |o.frames| :: t[|t| - 1 - i] == if o.frames[i].curly then '}' else ']'
  {
    RepairedIs(o, s);
    AppendedClosers(Kept(o, s), Matching(o.frames));
  }

  /** A prefix of a balanced text is repaired to a balanced text exactly when it is repairable. */
  lemma PrefixIsRepairedIff(s: string, k: nat)
    requires Balanced(s) && k <= |s|
    ensures Balanced(Repaired(s[..k])) <==> Repairable(s[..k])
  {
    var o := PrefixOfBalancedIsOpen(s, k);
    if Repairable(s[..k]) { OpenTextIsBalanced(o, s[..k]); }
    if Balanced(Repaired(s[..k])) {
      BalancedIsClosed(Repaired(s[..k]));
      RepairClosesIff(s[..k]);
    }
  }

  /** A quote that no backslash precedes. */
  predicate MatchesAt(s: string, i: nat) {
    i < |s| && s[i] == '\"' && (i > 0 ==> s[i - 1] != '\\')
  }

  function Matches(s: string): set<nat> {
    set i: nat | i < |s| && MatchesAt(s, i)
  }

  /** The count is the number of matches of the pattern. */
  lemma {:induction false} CountIsPattern(s: string)
    ensures QuoteCount(s) == |Matches(s)|
    decreases |s|
  {
    if s != "" {
      var n, p := |s| - 1, s[..|s| - 1];
      CountIsPattern(p);
      assert forall i: nat | i < n :: MatchesAt(s, i) <==> MatchesAt(p, i);
      assert Matches(s) == Matches(p) + if MatchesAt(s, n) then {n} else {};
    } else {
      assert Matches(s) == {};
    }
  }
}
