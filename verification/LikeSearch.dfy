/** Escaping search text for SQL LIKE (backend/app/api/deps.py). */
module LikeSearch {

  /** str.replace of one character */
  function Replace(s: string, c: char, r: string): string {
    if s == "" then "" else (if s[0] == c then r else [s[0]]) + Replace(s[1..], c, r)
  }

  /** The three replacements, in the order of the source. */
  function SanitizeLike(value: string): string {
    Replace(Replace(Replace(value, '\\', "\\\\"), '%', "\\%"), '_', "\\_")
  }

  predicate Special(c: char) {
    c == '\\' || c == '%' || c == '_'
  }

  /** A backslash in front of every special character. */
  function Escape(v: string): string {
    if v == "" then "" else (if Special(v[0]) then ['\\', v[0]] else [v[0]]) + Escape(v[1..])
  }

  /** SQL LIKE with the default escape character; ILIKE when `fold` is case folding, LIKE when it is the identity.
      A pattern that ends in the escape character matches nothing. */
  ghost predicate Like(p: string, t: string, fold: char -> char)
    decreases |p|
  {
    if p == "" then t == ""
    else if p[0] == '%' then exists k | 0 <= k <= |t| :: Like(p[1..], t[k..], fold)
    else if p[0] == '_' then t != "" && Like(p[1..], t[1..], fold)
    else if p[0] == '\\' then |p| > 1 && t != "" && fold(p[1]) == fold(t[0]) && Like(p[2..], t[1..], fold)
    else t != "" && fold(p[0]) == fold(t[0]) && Like(p[1..], t[1..], fold)
  }

  /** v occurs in t at i, up to folding. */
  ghost predicate OccursAt(v: string, t: string, i: int, fold: char -> char) {
    0 <= i && i + |v| <= |t| && forall k | 0 <= k < |v| :: fold(v[k]) == fold(t[i + k])
  }

  lemma {:induction false} ReplaceAppend(a: string, b: string, c: char, r: string)
    ensures Replace(a + b, c, r) == Replace(a, c, r) + Replace(b, c, r)
  {
    if a == "" {
      assert a + b == b;
    } else {
      assert (a + b)[1..] == a[1..] + b;
      ReplaceAppend(a[1..], b, c, r);
    }
  }

  lemma ReplaceOne(x: char, c: char, r: string)
    ensures Replace([x], c, r) == if x == c then r else [x]
  {
    assert Replace([x][1..], c, r) == "";
  }

  lemma ReplaceTwo(x: char, y: char, c: char, r: string)
    ensures Replace([x, y], c, r) == (if x == c then r else [x]) + if y == c then r else [y]
  {
    ReplaceOne(x, c, r);
    ReplaceOne(y, c, r);
    ReplaceAppend([x], [y], c, r);
    assert [x] + [y] == [x, y];
  }

  /** One character through the three replacements. */
  lemma SanitizeOne(x: char)
    ensures SanitizeLike([x]) == Escape([x])
  {
    ReplaceOne(x, '\\', "\\\\");
    ReplaceOne(x, '%', "\\%");
    ReplaceOne(x, '_', "\\_");
    ReplaceTwo('\\', '\\', '%', "\\%");
    ReplaceTwo('\\', '\\', '_', "\\_");
    ReplaceTwo('\\', '%', '_', "\\_");
    assert [x][1..] == "" && Escape("") == "";
  }

  /** The ordered replacements escape each character once, independently of its neighbours. */
  lemma {:induction false} SanitizeIsEscape(v: string)
    ensures SanitizeLike(v) == Escape(v)
  {
    if v != "" {
      var a, b := [v[0]], v[1..];
      assert v == a + b && a[1..] == "" && Escape("") == "";
      ReplaceAppend(a, b, '\\', "\\\\");
      ReplaceAppend(Replace(a, '\\', "\\\\"), Replace(b, '\\', "\\\\"), '%', "\\%");
      ReplaceAppend(Replace(Replace(a, '\\', "\\\\"), '%', "\\%"), Replace(Replace(b, '\\', "\\\\"), '%', "\\%"), '_', "\\_");
      SanitizeOne(v[0]);
      SanitizeIsEscape(b);
    }
  }

  lemma OccursStep(v: string, t: string, fold: char -> char)
    requires v != "" && t != ""
    ensures OccursAt(v, t, 0, fold) <==> fold(v[0]) == fold(t[0]) && OccursAt(v[1..], t[1..], 0, fold)
  {
    if |v| <= |t| {
      assert forall k | 0 < k < |v| :: v[k] == v[1..][k - 1] && t[k] == t[1..][k - 1];
    }
  }

  /** An escaped text in front of a pattern matches exactly itself. */
  lemma {:induction false} EscapedMatchesItself(v: string, rest: string, t: string, fold: char -> char)
    ensures Like(Escape(v) + rest, t, fold) <==> OccursAt(v, t, 0, fold) && Like(rest, t[|v|..], fold)
    decreases |v|
  {
    if v == "" {
      assert Escape(v) + rest == rest && t[0..] == t;
    } else {
      var p := Escape(v) + rest;
      if t != "" {
        EscapedMatchesItself(v[1..], rest, t[1..], fold);
        OccursStep(v, t, fold);
        if |v| <= |t| { assert t[1..][|v[1..]|..] == t[|v|..]; }
        assert p[if Special(v[0]) then 2 else 1..] == Escape(v[1..]) + rest;
      }
    }
  }

  lemma PercentMatchesAll(t: string, fold: char -> char)
    ensures Like("%", t, fold)
  {
    assert "%"[1..] == "" && t[|t|..] == "";
    assert Like("%"[1..], t[|t|..], fold);
  }

  /** The search pattern matches a text exactly when the search text occurs in it. */
  lemma SearchIsSubstring(v: string, t: string, fold: char -> char)
    ensures Like("%" + SanitizeLike(v) + "%", t, fold) <==> exists i :: OccursAt(v, t, i, fold)
  {
    SanitizeIsEscape(v);
    var p := "%" + Escape(v) + "%";
    assert p[1..] == Escape(v) + "%";
    forall k | 0 <= k <= |t| ensures Like(p[1..], t[k..], fold) <==> OccursAt(v, t, k, fold) {
      EscapedMatchesItself(v, "%", t[k..], fold);
      if |v| <= |t| - k {
        PercentMatchesAll(t[k..][|v|..], fold);
        assert forall j | 0 <= j < |v| :: t[k..][j] == t[k + j];
      }
    }
  }
}
