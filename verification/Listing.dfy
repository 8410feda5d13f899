/**
 A directory's content is its children's names, each one preceded by a NUL
 character.  Names are appended at the end and removed by searching the content
 for NUL + name and erasing what was found.
 */
module Listing {
  import opened Prelude

  const NUL: char := '\0'

  /** A name as the directory code can store it. */
  predicate ValidName(n: string) {
    n != "" && NUL !in n
  }

  predicate ValidNames(names: seq<string>) {
    forall i | 0 <= i < |names| :: ValidName(names[i])
  }

  function Encode(names: seq<string>): string {
    if names == [] then "" else [NUL] + names[0] + Encode(names[1..])
  }

  /** Where entry j of the listing starts. */
  function Offset(names: seq<string>, j: nat): nat
    requires j <= |names|
  {
    |Encode(names[..j])|
  }

  predicate OccursAt(s: string, pat: string, i: nat) {
    i + |pat| <= |s| && s[i..i + |pat|] == pat
  }

  /** std::string::find, from position i on. */
  function FindFrom(s: string, pat: string, i: nat): (r: Option<nat>)
    requires i <= |s|
    ensures r.Some? ==> i <= r.value && OccursAt(s, pat, r.value)
    ensures r.Some? ==> forall k | i <= k < r.value :: !OccursAt(s, pat, k)
    ensures r.None? ==> forall k | i <= k :: !OccursAt(s, pat, k)
    decreases |s| - i
  {
    if OccursAt(s, pat, i) then Some(i)
    else if i == |s| then None
    else FindFrom(s, pat, i + 1)
  }

  function Find(s: string, pat: string): Option<nat> {
    FindFrom(s, pat, 0)
  }

  /** Erase the first NUL + name from the content; None when there is none. */
  function EraseName(content: string, name: string): Option<string> {
    match Find(content, [NUL] + name)
    case None => None
    case Some(pos) => Some(content[..pos] + content[pos + |name| + 1..])
  }

  function Without(names: seq<string>, k: nat): seq<string>
    requires k < |names|
  {
    names[..k] + names[k + 1..]
  }

  lemma {:induction false} EncodeConcat(a: seq<string>, b: seq<string>)
    ensures Encode(a + b) == Encode(a) + Encode(b)
  {
    if a == [] {
      assert a + b == b;
    } else {
      EncodeConcat(a[1..], b);
      assert (a + b)[0] == a[0] && (a + b)[1..] == a[1..] + b;
      assert [NUL] + a[0] + (Encode(a[1..]) + Encode(b)) == ([NUL] + a[0] + Encode(a[1..])) + Encode(b);
    }
  }

  lemma EncodeAround(names: seq<string>, j: nat)
    requires j < |names|
    ensures Encode(names) == Encode(names[..j]) + ([NUL] + names[j] + Encode(names[j + 1..]))
  {
    EncodeConcat(names[..j], names[j..]);
    assert names == names[..j] + names[j..];
    assert names[j..][1..] == names[j + 1..];
  }

  lemma EncodeOne(n: string)
    ensures Encode([n]) == [NUL] + n
  {
    assert Encode([n][1..]) == "";
  }

  /** Position i of the listing is the start of an entry that n is a prefix of. */
  predicate EntryAt(names: seq<string>, n: string, i: nat) {
    names != [] &&
    if i == 0 then n <= names[0]
    else i > |names[0]| && EntryAt(names[1..], n, i - 1 - |names[0]|)
  }

  /** NUL + n occurs in a listing exactly at the starts of the entries that n is a prefix of. */
  lemma {:induction false} Occurrences(names: seq<string>, n: string, i: nat)
    requires ValidNames(names) && NUL !in n
    ensures OccursAt(Encode(names), [NUL] + n, i) <==> EntryAt(names, n, i)
  {
    var s, pat := Encode(names), [NUL] + n;
    if names != [] {
      var h, rest := names[0], names[1..];
      assert s == [NUL] + h + Encode(rest);
      if i == 0 {
        OccursAtHead(h, rest, n);
      } else if i <= |h| {
        assert s[i] == h[i - 1] != NUL;
        assert i + |pat| <= |s| ==> s[i..i + |pat|][0] == s[i];
      } else {
        var i' := i - 1 - |h|;
        Occurrences(rest, n, i');
        assert i + |pat| <= |s| ==> s[i..i + |pat|] == Encode(rest)[i'..i' + |pat|];
      }
    }
  }

  lemma OccursAtHead(h: string, rest: seq<string>, n: string)
    requires NUL !in n
    ensures OccursAt([NUL] + h + Encode(rest), [NUL] + n, 0) <==> n <= h
  {
    var s, pat := [NUL] + h + Encode(rest), [NUL] + n;
    assert rest != [] ==> Encode(rest)[0] == NUL;
    if |n| <= |h| {
      assert s[..|pat|] == [NUL] + h[..|n|];
      assert h[..|n|] == ([NUL] + h[..|n|])[1..] && n == pat[1..];
    } else {
      assert n[|h|] == pat[|h| + 1] != NUL;
      assert |pat| <= |s| ==> s[..|pat|][|h| + 1] == s[|h| + 1] == Encode(rest)[0];
    }
  }

  lemma {:induction false} EntryAtOffset(names: seq<string>, n: string, j: nat)
    requires j < |names|
    ensures EntryAt(names, n, Offset(names, j)) <==> n <= names[j]
  {
    if j > 0 {
      EntryAtOffset(names[1..], n, j - 1);
      assert names[..j][1..] == names[1..][..j - 1];
    }
  }

  lemma {:induction false} EntryIndex(names: seq<string>, n: string, i: nat) returns (j: nat)
    requires EntryAt(names, n, i)
    ensures j < |names| && Offset(names, j) == i && n <= names[j]
  {
    if i == 0 {
      j := 0;
    } else {
      j := EntryIndex(names[1..], n, i - 1 - |names[0]|);
      j := j + 1;
      assert names[..j][1..] == names[1..][..j - 1];
    }
  }

  lemma OffsetsIncrease(names: seq<string>, j: nat, k: nat)
    requires j < k <= |names|
    ensures Offset(names, j) < Offset(names, k)
  {
    EncodeConcat(names[..j], names[j..k]);
    assert names[..k] == names[..j] + names[j..k];
  }

  /** The search stops at the first entry that the name is a prefix of. */
  lemma FindFirstEntry(names: seq<string>, n: string, j: nat)
    requires ValidNames(names) && NUL !in n
    requires j < |names| && n <= names[j] && forall i | 0 <= i < j :: !(n <= names[i])
    ensures Find(Encode(names), [NUL] + n) == Some(Offset(names, j))
  {
    var r := Find(Encode(names), [NUL] + n);
    EntryAtOffset(names, n, j);
    Occurrences(names, n, Offset(names, j));
    assert r.Some? && r.value <= Offset(names, j);
    Occurrences(names, n, r.value);
    var f := EntryIndex(names, n, r.value);
    assert f >= j;
    if j < f { OffsetsIncrease(names, j, f); }
  }

  /** The first index not above k whose entry has n as a prefix. */
  lemma {:induction false} FirstExtension(names: seq<string>, n: string, k: nat) returns (j: nat)
    requires k < |names| && n <= names[k]
    ensures j <= k && n <= names[j] && forall i | 0 <= i < j :: !(n <= names[i])
  {
    if i :| 0 <= i < k && n <= names[i] {
      j := FirstExtension(names, n, i);
    } else {
      j := k;
    }
  }

  lemma ErasedText(names: seq<string>, n: string, j: nat)
    requires ValidNames(names) && NUL !in n
    requires j < |names| && n <= names[j] && forall i | 0 <= i < j :: !(n <= names[i])
    ensures EraseName(Encode(names), n)
         == Some(Encode(names[..j]) + (names[j][|n|..] + Encode(names[j + 1..])))
  {
    FindFirstEntry(names, n, j);
    EncodeAround(names, j);
    CutOut(Encode(names), n, Encode(names[..j]), names[j], Encode(names[j + 1..]));
  }

  lemma CutOut(content: string, name: string, pre: string, entry: string, tail: string)
    requires content == pre + ([NUL] + entry + tail) && |name| <= |entry|
    requires Find(content, [NUL] + name) == Some(|pre|)
    ensures EraseName(content, name) == Some(pre + (entry[|name|..] + tail))
  {
    assert content[..|pre|] == pre;
    assert content[|pre| + |name| + 1..] == entry[|name|..] + tail;
  }

  /** Cutting a prefix out of an earlier, longer entry leaves a text that no removal of an entry gives. */
  lemma WrongEntryCut(names: seq<string>, j: nat, k: nat)
    requires ValidNames(names) && j < k < |names| && names[k] < names[j]
    ensures Encode(names[..j]) + (names[j][|names[k]|..] + Encode(names[j + 1..])) != Encode(Without(names, k))
  {
    var pre, rest := Encode(names[..j]), names[j][|names[k]|..];
    var right := Without(names, k);
    EncodeAround(right, j);
    assert right[..j] == names[..j];
    assert Encode(right)[|pre|] == NUL;
    assert rest[0] == names[j][|names[k]|] != NUL;
    assert (pre + (rest + Encode(names[j + 1..])))[|pre|] == rest[0];
  }

  lemma RightEntryCut(names: seq<string>, k: nat)
    requires k < |names|
    ensures Encode(names[..k]) + (names[k][|names[k]|..] + Encode(names[k + 1..])) == Encode(Without(names, k))
  {
    EncodeConcat(names[..k], names[k + 1..]);
    assert names[k][|names[k]|..] + Encode(names[k + 1..]) == Encode(names[k + 1..]);
  }

  lemma EraseExact(names: seq<string>, k: nat)
    requires ValidNames(names) && Distinct(names) && k < |names|
    requires forall j | 0 <= j < k :: !(names[k] < names[j])
    ensures EraseName(Encode(names), names[k]) == Some(Encode(Without(names, k)))
  {
    forall i | 0 <= i < k
      ensures !(names[k] <= names[i])
    {
      assert names[k] != names[i];
    }
    ErasedText(names, names[k], k);
    RightEntryCut(names, k);
  }

  lemma EraseWrong(names: seq<string>, j: nat, k: nat)
    requires ValidNames(names) && Distinct(names) && j < k < |names| && names[k] < names[j]
    ensures EraseName(Encode(names), names[k]) != Some(Encode(Without(names, k)))
  {
    var f := FirstExtension(names, names[k], j);
    assert names[f] != names[k];
    ErasedText(names, names[k], f);
    WrongEntryCut(names, f, k);
  }

  /**
   Erasing the first NUL + name removes the listed name, and nothing else, exactly
   when no earlier entry properly extends it.
   */
  lemma EraseRefinesRemoval(names: seq<string>, k: nat)
    requires ValidNames(names) && Distinct(names) && k < |names|
    ensures EraseName(Encode(names), names[k]) == Some(Encode(Without(names, k)))
       <==> forall j | 0 <= j < k :: !(names[k] < names[j])
  {
    if j :| 0 <= j < k && names[k] < names[j] {
      EraseWrong(names, j, k);
    } else {
      EraseExact(names, k);
    }
  }

  /** A name that no entry starts with is not found, and nothing is erased. */
  lemma EraseUnlisted(names: seq<string>, n: string)
    requires ValidNames(names) && NUL !in n
    ensures EraseName(Encode(names), n).None? <==> forall j | 0 <= j < |names| :: !(n <= names[j])
  {
    var r := Find(Encode(names), [NUL] + n);
    if j :| 0 <= j < |names| && n <= names[j] {
      EntryAtOffset(names, n, j);
      Occurrences(names, n, Offset(names, j));
    }
    if r.Some? {
      Occurrences(names, n, r.value);
      var j := EntryIndex(names, n, r.value);
    }
  }

  lemma AppendName(names: seq<string>, n: string)
    ensures Encode(names) + ([NUL] + n) == Encode(names + [n])
  {
    EncodeConcat(names, [n]);
    EncodeOne(n);
  }

  /** Whatever the content, erasing shortens it by the name and its separator. */
  lemma EraseLength(content: string, name: string)
    ensures var r := EraseName(content, name);
            r.Some? ==> |r.value| + |name| + 1 == |content|
  {
  }
}
