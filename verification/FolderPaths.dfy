/** Which folders create_folder makes for a path (backend/app/services/mail.py). */
module FolderPaths {
  import opened Prelude
  import opened Text
  import opened ImapServer
  import opened ImapActions

  /** A separator or the end of the path stands behind its first k characters. */
  predicate EndsAt(path: string, sep: char, k: nat) {
    k == |path| || (k < |path| && path[k] == sep)
  }

  /** The path itself, or what stands before one of its separators. */
  predicate IsAncestor(f: string, path: string, sep: char) {
    0 < |f| && f <= path && EndsAt(path, sep, |f|)
  }

  lemma {:induction false} FirstPart(rest: string, sep: char) returns (j: nat)
    ensures j <= |rest| && sep !in rest[..j] && EndsAt(rest, sep, j)
    ensures j == |rest| ==> Split(rest, sep) == [rest]
    ensures j < |rest| ==> Split(rest, sep) == [rest[..j]] + Split(rest[j + 1..], sep)
  {
    j := 0;
    if rest != "" && rest[0] != sep {
      assert [rest[0]] + rest[1..] == rest;
      var k := FirstPart(rest[1..], sep);
      j := k + 1;
      assert rest[..j] == [rest[0]] + rest[1..][..k];
      if j < |rest| { assert rest[1..][k + 1..] == rest[j + 1..]; } else { assert rest[..j] == rest; }
    }
  }

  /** The part behind `current`, which is empty for the whole path. */
  predicate Continues(current: string, rest: string, sep: char, path: string) {
    if current == "" then path == rest && rest != "" && rest[0] != sep else path == current + [sep] + rest
  }

  /** Up to its end or its next separator the path has no other. */
  lemma NextAncestor(current: string, rest: string, sep: char, path: string, j: nat)
    requires Continues(current, rest, sep, path) && j <= |rest| && sep !in rest[..j] && EndsAt(rest, sep, j)
    ensures var next := if current != "" then current + [sep] + rest[..j] else rest[..j];
      && |current| < |next| && IsAncestor(next, path, sep)
      && (j < |rest| ==> Continues(next, rest[j + 1..], sep, path))
      && (j == |rest| ==> next == path)
      && forall k: nat | |current| < k < |next| :: !EndsAt(path, sep, k)
  {
    var next := if current != "" then current + [sep] + rest[..j] else rest[..j];
    var from := if current == "" then 0 else |current| + 1;
    assert path == path[..from] + rest;
    forall k: nat | |current| < k < |next| ensures !EndsAt(path, sep, k) {
      assert path[k] == rest[..j][k - from];
    }
    if j < |rest| {
      assert rest == rest[..j] + [sep] + rest[j + 1..];
      assert path == next + [sep] + rest[j + 1..];
    } else {
      assert rest[..j] == rest;
    }
  }

  lemma {:induction false} PathsAreAncestors(current: string, rest: string, sep: char, path: string, f: string)
    requires Continues(current, rest, sep, path)
    ensures f in Paths(Split(rest, sep), current, sep) <==> IsAncestor(f, path, sep) && |f| > |current|
    decreases |rest|
  {
    var j := FirstPart(rest, sep);
    NextAncestor(current, rest, sep, path, j);
    var next := if current != "" then current + [sep] + rest[..j] else rest[..j];
    var parts := Split(rest, sep);
    if j < |rest| {
      PathsAreAncestors(next, rest[j + 1..], sep, path, f);
      assert parts[1..] == Split(rest[j + 1..], sep);
    } else {
      assert parts[1..] == [];
    }
    assert f in Paths(parts, current, sep) <==> f == next || f in Paths(parts[1..], next, sep);
    if f <= path && next <= path && |f| == |next| { assert f == path[..|f|] == next; }
  }

  /** For a path that does not begin with a separator: on success the path exists and so do all its ancestors, and
      nothing else is ever created. */
  lemma CreatedFolders(s: Server, path: string, sep: char, replies: seq<Reply>)
    requires |path| < |replies| && path != "" && path[0] != sep
    ensures var (t, ok) := CreateFolderRun(s, path, sep, replies);
      && (ok ==> path in t && forall f | IsAncestor(f, path, sep) :: f in t)
      && (forall f | f in t && f !in s :: IsAncestor(f, path, sep))
  {
    PathCount(path, sep);
    CreateGrows(s, Paths(Split(path, sep), "", sep), replies);
    forall f ensures f in Paths(Split(path, sep), "", sep) <==> IsAncestor(f, path, sep) {
      PathsAreAncestors("", path, sep, path, f);
    }
    assert IsAncestor(path, path, sep);
  }

  lemma {:induction false} LeadingParts(lead: string, rest: string, sep: char, f: string)
    requires forall i | 0 <= i < |lead| :: lead[i] == sep
    requires rest == "" || rest[0] != sep
    ensures f in Paths(Split(lead + rest, sep), "", sep)
      <==> IsAncestor(f, rest, sep) || (f == "" && lead + rest != rest) || (f == "" && rest == "")
    decreases |lead|
  {
    if lead == "" {
      assert lead + rest == rest;
      if rest != "" { PathsAreAncestors("", rest, sep, rest, f); }
    } else {
      assert lead + rest == [sep] + (lead[1..] + rest);
      LeadingParts(lead[1..], rest, sep, f);
      var parts := Split(lead + rest, sep);
      assert parts[0] == "" && parts[1..] == Split(lead[1..] + rest, sep);
    }
  }

  /** Separators at the beginning are lost: the client creates the folder with the empty name and the ancestors of the
      rest, and never the path itself. */
  lemma LeadingSeparatorsAreLost(s: Server, lead: string, rest: string, sep: char, replies: seq<Reply>)
    requires lead != "" && (forall i | 0 <= i < |lead| :: lead[i] == sep) && (rest == "" || rest[0] != sep)
    requires |lead + rest| < |replies|
    ensures var (t, ok) := CreateFolderRun(s, lead + rest, sep, replies);
      && (ok ==> "" in t && forall f | IsAncestor(f, rest, sep) :: f in t)
      && (forall f | f in t && f !in s :: f == "" || IsAncestor(f, rest, sep))
      && (lead + rest in t ==> lead + rest in s)
  {
    var path := lead + rest;
    PathCount(path, sep);
    CreateGrows(s, Paths(Split(path, sep), "", sep), replies);
    assert path[0] == sep && path != rest;
    forall f ensures f in Paths(Split(path, sep), "", sep) <==> f == "" || IsAncestor(f, rest, sep) {
      LeadingParts(lead, rest, sep, f);
    }
  }
}
