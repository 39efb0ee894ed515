/** What normalising keeps of a label (backend/app/plugins/labeling.py). */
module LabelText {
  import opened Prelude
  import opened Text
  import opened Labeling

  /** The letters and digits of a text, in order. */
  function Letters(s: string): string {
    if s == "" then ""
    else (if 'a' <= s[0] <= 'z' || '0' <= s[0] <= '9' then [s[0]] else "") + Letters(s[1..])
  }

  lemma {:induction false} LettersAppend(a: string, b: string)
    ensures Letters(a + b) == Letters(a) + Letters(b)
    decreases |a|
  {
    if a == "" {
      assert a + b == b;
    } else {
      assert (a + b)[0] == a[0] && (a + b)[1..] == a[1..] + b;
      LettersAppend(a[1..], b);
    }
  }

  lemma SeparatorIsNoLetter(c: char)
    requires IsSeparator(c)
    ensures !('a' <= c <= 'z' || '0' <= c <= '9' || c == '-')
  {
  }

  lemma {:induction false} HyphenateKeepsLetters(s: string, inRun: bool)
    ensures Letters(Hyphenate(s, inRun)) == Letters(s)
    decreases |s|
  {
    if s != "" {
      HyphenateKeepsLetters(s[1..], IsSeparator(s[0]));
      if IsSeparator(s[0]) {
        SeparatorIsNoLetter(s[0]);
        LettersAppend(if inRun then "" else "-", Hyphenate(s[1..], true));
        assert Letters("-") == "";
      } else {
        LettersAppend([s[0]], Hyphenate(s[1..], false));
        assert Letters([s[0]]) + Letters(s[1..]) == Letters(s) by { LettersAppend([s[0]], s[1..]); assert [s[0]] + s[1..] == s; }
      }
    }
  }

  lemma {:induction false} KeepKeepsLetters(s: string)
    ensures Letters(Keep(s)) == Letters(s)
    decreases |s|
  {
    if s != "" {
      KeepKeepsLetters(s[1..]);
      LettersAppend(if IsLabelChar(s[0]) then [s[0]] else "", Keep(s[1..]));
      assert Letters([s[0]]) == if 'a' <= s[0] <= 'z' || '0' <= s[0] <= '9' then [s[0]] else "";
    }
  }

  lemma {:induction false} StripKeepsLetters(s: string)
    ensures Letters(StripHyphens(s)) == Letters(s)
    decreases |s|
  {
    if s != "" && s[0] == '-' {
      StripKeepsLetters(s[1..]);
    } else if s != "" && s[|s| - 1] == '-' {
      var t := s[..|s| - 1];
      StripKeepsLetters(t);
      LettersAppend(t, "-");
      assert s == t + "-" && Letters("-") == "";
    }
  }

  /** No letter or digit of the lower-cased label is lost, doubled or moved. */
  lemma LettersAreKept(raw: string, lower: string -> string)
    ensures Letters(Normalise(raw, lower)) == Letters(lower(Strip(raw)))
  {
    var t := lower(Strip(raw));
    HyphenateKeepsLetters(t, false);
    KeepKeepsLetters(Hyphenate(t, false));
    StripKeepsLetters(Keep(Hyphenate(t, false)));
  }

  lemma {:induction false} HyphenateRun(s: string, b: string)
    requires (forall i | 0 <= i < |s| :: IsSpace(s[i]) || s[i] == '_') && LabelText(b)
    ensures Hyphenate(s + b, true) == b
    decreases |s|
  {
    if s == "" {
      assert s + b == b;
      HyphenateLabel(b, false);
      if b != "" {
        assert IsLabelChar(b[0]);
        if IsSeparator(b[0]) { SeparatorIsNoLetter(b[0]); }
      }
    } else {
      assert (s + b)[0] == s[0] && (s + b)[1..] == s[1..] + b;
      HyphenateRun(s[1..], b);
    }
  }

  lemma {:induction false} HyphenateWords(a: string, s: string, b: string, inRun: bool)
    requires LabelText(a) && LabelText(b) && s != "" && (a != "" || !inRun)
    requires forall i | 0 <= i < |s| :: IsSpace(s[i]) || s[i] == '_'
    ensures Hyphenate(a + s + b, inRun) == a + "-" + b
    decreases |a|
  {
    var t := a + s + b;
    if a == "" {
      assert t[0] == s[0] && t[1..] == s[1..] + b;
      HyphenateRun(s[1..], b);
    } else {
      assert t[0] == a[0] && t[1..] == a[1..] + s + b && IsLabelChar(a[0]);
      HyphenateWords(a[1..], s, b, false);
      assert [a[0]] + (a[1..] + "-" + b) == a + "-" + b;
    }
  }

  /** Two words with any spaces and underscores between them come out with one hyphen. */
  lemma WordsAreJoined(a: string, s: string, b: string, lower: string -> string)
    requires IsLabel(a) && IsLabel(b) && a != "" && b != "" && s != ""
    requires (forall i | 0 <= i < |s| :: IsSpace(s[i]) || s[i] == '_') && lower(a + s + b) == a + s + b
    ensures Normalise(a + s + b, lower) == a + "-" + b
  {
    var t := a + s + b;
    assert IsLabelChar(a[0]) && IsLabelChar(b[|b| - 1]) && t[0] == a[0] && t[|t| - 1] == b[|b| - 1];
    StripIdentity(t);
    HyphenateWords(a, s, b, false);
    KeepLabel(a + "-" + b);
    assert (a + "-" + b)[0] == a[0] && (a + "-" + b)[|a + "-" + b| - 1] == b[|b| - 1];
  }

  lemma {:induction false} PickedIff(labels: seq<string>, existing: set<string>, wanted: bool, lower: string -> string, l: string)
    ensures l in Picked(labels, existing, wanted, lower) <==> l in labels && ((lower(l) in existing) == wanted)
    decreases |labels|
  {
    if labels != [] {
      PickedIff(labels[..|labels| - 1], existing, wanted, lower, l);
      assert labels == labels[..|labels| - 1] + [labels[|labels| - 1]];
    }
  }

  /** A label is reused exactly if an existing one has its name, up to case; the others are created. */
  lemma ReusedIff(raws: seq<string>, existing: seq<string>, lower: string -> string, l: string)
    requires l in Labels(raws, lower)
    ensures l in Reused(raws, existing, lower) <==> exists e | e in existing :: lower(e) == lower(l)
    ensures l in Created(raws, existing, lower) <==> forall e | e in existing :: lower(e) != lower(l)
  {
    PickedIff(Labels(raws, lower), Lowered(existing, lower), true, lower, l);
    PickedIff(Labels(raws, lower), Lowered(existing, lower), false, lower, l);
  }
}
