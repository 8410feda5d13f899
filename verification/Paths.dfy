/** std::filesystem::path on POSIX: parent_path and filename of a path held as a string. */
module Paths {
  /** Index of the last '/', or -1. */
  function LastSlash(p: string): (i: int)
    ensures -1 <= i < |p|
    ensures i >= 0 ==> p[i] == '/'
    ensures forall k | i < k < |p| :: p[k] != '/'
  {
    if p == "" then -1
    else if p[|p| - 1] == '/' then |p| - 1
    else LastSlash(p[..|p| - 1])
  }

  /** Drop trailing separators. */
  function StripSlashes(p: string): string {
    if p != "" && p[|p| - 1] == '/' then StripSlashes(p[..|p| - 1]) else p
  }

  function Filename(p: string): string {
    p[LastSlash(p) + 1..]
  }

  /** A path made of separators only (or empty) is its own parent. */
  function Parent(p: string): string {
    if StripSlashes(p) == "" then p
    else
      var d := StripSlashes(p[..LastSlash(p) + 1]);
      if d == "" && LastSlash(p) >= 0 then "/" else d
  }

  function Join(d: string, n: string): string {
    if d == "/" then "/" + n else d + "/" + n
  }

  /** The path is spelled the way its parent and file name spell it. */
  predicate Canonical(p: string) {
    Filename(p) != "" && p == Join(Parent(p), Filename(p))
  }

  lemma {:induction false} LastSlashBefore(dir: string, n: string)
    requires '/' !in n
    ensures LastSlash(dir + "/" + n) == |dir|
  {
    var p := dir + "/" + n;
    if n == "" {
      assert p[|p| - 1] == '/';
    } else {
      assert p[|p| - 1] == n[|n| - 1] != '/';
      assert p[..|p| - 1] == dir + "/" + n[..|n| - 1];
      LastSlashBefore(dir, n[..|n| - 1]);
    }
  }

  lemma StripOne(dir: string)
    ensures StripSlashes(dir + "/") == StripSlashes(dir)
  {
    assert (dir + "/")[..|dir|] == dir;
  }

  /** Joining a slash-free name to a directory gives a canonical path with these two parts. */
  lemma JoinParts(d: string, n: string)
    requires d == "/" || Canonical(d)
    requires n != "" && '/' !in n
    ensures Canonical(Join(d, n)) && Parent(Join(d, n)) == d && Filename(Join(d, n)) == n
  {
    var dir := if d == "/" then "" else d;
    var p := dir + "/" + n;
    assert p == Join(d, n);
    LastSlashBefore(dir, n);
    assert p[|dir| + 1..] == n;
    assert p[|p| - 1] == n[|n| - 1] != '/';
    StripOne(dir);
    assert p[..|dir| + 1] == dir + "/";
    assert dir != "" ==> dir[|dir| - 1] != '/';
  }

  /** A trailing separator makes an empty file name below the path itself. */
  lemma TrailingSlash(p: string)
    requires p != "" && p[|p| - 1] != '/'
    ensures Parent(p + "/") == p && Filename(p + "/") == ""
  {
    var q := p + "/";
    assert q[|q| - 1] == '/' && q[..|p| + 1] == q && StripSlashes(p) == p;
    StripOne(p);
  }

  /** A name without any separator has the empty path as its parent; a path of separators is its own. */
  lemma ParentOfBare(p: string)
    ensures p != "" && '/' !in p ==> Parent(p) == "" && Filename(p) == p
    ensures (forall i | 0 <= i < |p| :: p[i] == '/') ==> Parent(p) == p && Filename(p) == ""
  {
    if p != "" && '/' !in p {
      assert LastSlash(p) == -1;
      assert p[|p| - 1] in p;
    } else if forall i | 0 <= i < |p| :: p[i] == '/' {
      OnlySlashes(p);
    }
  }

  lemma {:induction false} OnlySlashes(p: string)
    requires forall i | 0 <= i < |p| :: p[i] == '/'
    ensures StripSlashes(p) == ""
  {
    if p != "" { OnlySlashes(p[..|p| - 1]); }
  }
}
