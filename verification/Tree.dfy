/**
 The name tree: every directory's content lists exactly its existing children, and
 every existing file has an existing directory above it.
 */
module Tree {
  import opened Prelude
  import opened Listing
  import opened Paths
  import opened Store

  /** The paths that may be opened, and those among them that may be opened ephemeral. */
  datatype Naming = Naming(paths: set<string>, eph: set<string>)

  /** Canonical paths with storable names, no name properly extending a sibling's. */
  predicate GoodNaming(N: Naming) {
    && "/" !in N.paths && "/" !in N.eph
    && (forall p | p in N.paths :: Canonical(p) && ValidName(Filename(p)))
    && (forall p, q | p in N.paths && q in N.paths && Parent(p) == Parent(q) :: !(Filename(p) < Filename(q)))
  }

  /** q is an existing child of directory d. */
  predicate Child(ds: map<string, File>, d: string, q: string) {
    q in ds && q != "/" && Parent(q) == d && ds[q].fileExists
  }

  /** names is the listing of d: distinct, and exactly its existing children. */
  predicate Lists(ds: map<string, File>, d: string, names: seq<string>)
    requires d in ds
  {
    ds[d].content == Encode(names) && Distinct(names) && Covers(ds, d, names) && Members(ds, d, names)
  }

  /** Every existing child's name is there. */
  predicate Covers(ds: map<string, File>, d: string, names: seq<string>) {
    forall q | q in ds && Child(ds, d, q) :: Filename(q) in names
  }

  predicate Names(ds: map<string, File>, d: string, n: string) {
    Child(ds, d, Join(d, n)) && Filename(Join(d, n)) == n
  }

  /** Every name is an existing child's. */
  predicate Members(ds: map<string, File>, d: string, names: seq<string>) {
    forall i | 0 <= i < |names| :: Names(ds, d, names[i])
  }

  predicate LiveDir(f: File) {
    f.fileExists && f.isDirectory
  }

  predicate ParentsIn(ds: map<string, File>) {
    forall p | p in ds :: Parent(p) in ds
  }

  predicate Named(ds: map<string, File>, N: Naming) {
    && "/" in ds && LiveDir(ds["/"])
    && (forall p | p in ds :: p == "/" || p in N.paths)
    && (forall p | p in ds :: (ds[p].isEphemeral ==> p in N.eph) && (ds[p].isDirectory ==> p !in N.eph))
    && (forall p | p in ds :: !ds[p].fileExists && p !in N.eph ==> ds[p].content == "")
  }

  /** Every existing file but the root is in an existing directory. */
  predicate ClosedTree(ds: map<string, File>)
    requires ParentsIn(ds)
  {
    forall p | p in ds && p != "/" && ds[p].fileExists :: LiveDir(ds[Parent(p)])
  }

  ghost predicate Listed(ds: map<string, File>) {
    forall d | d in ds && LiveDir(ds[d]) :: exists names :: Lists(ds, d, names)
  }

  ghost predicate TreeOk(ds: map<string, File>, N: Naming) {
    ParentsIn(ds) && Named(ds, N) && ClosedTree(ds) && Listed(ds)
  }

  ghost function NamesOf(ds: map<string, File>, d: string): (names: seq<string>)
    requires Listed(ds) && d in ds && LiveDir(ds[d])
    ensures Lists(ds, d, names)
  {
    var names :| Lists(ds, d, names);
    names
  }

  lemma ListedNames(ds: map<string, File>, N: Naming, d: string, names: seq<string>)
    requires GoodNaming(N) && Named(ds, N) && d in ds && Lists(ds, d, names)
    ensures ValidNames(names)
    ensures forall i | 0 <= i < |names| :: Join(d, names[i]) in N.paths && Parent(Join(d, names[i])) == d
  {
    forall i | 0 <= i < |names|
      ensures ValidName(names[i]) && Join(d, names[i]) in N.paths && Parent(Join(d, names[i])) == d
    {
      assert Names(ds, d, names[i]);
    }
  }

  // ----- edits that leave the tree alone -----

  /** A listing whose directory's content and existing children are unchanged still lists them. */
  lemma SameListing(ds: map<string, File>, es: map<string, File>, d: string, names: seq<string>)
    requires d in ds && d in es && Lists(ds, d, names) && es[d].content == ds[d].content
    requires forall q | q in es && Child(es, d, q) :: Child(ds, d, q)
    requires forall q | q in ds && Child(ds, d, q) :: Child(es, d, q)
    ensures Lists(es, d, names)
  {
    forall i | 0 <= i < |names|
      ensures Child(es, d, Join(d, names[i]))
    {
      assert Names(ds, d, names[i]);
    }
  }

  /** As far as the tree goes, g is f; only a plain file's content may differ. */
  predicate SameNode(f: File, g: File) {
    && g.fileExists == f.fileExists && g.isDirectory == f.isDirectory
    && (g.content == f.content || (f.fileExists && !f.isDirectory))
  }

  lemma FrameTree(ds: map<string, File>, es: map<string, File>, N: Naming)
    requires TreeOk(ds, N) && es.Keys == ds.Keys
    requires forall p | p in ds :: SameNode(ds[p], es[p]) && (es[p].isEphemeral ==> ds[p].isEphemeral || p in N.eph)
    ensures TreeOk(es, N)
  {
    forall d | d in es && LiveDir(es[d])
      ensures exists names :: Lists(es, d, names)
    {
      SameListing(ds, es, d, NamesOf(ds, d));
    }
  }

  // ----- a file goes -----

  /** g is f, gone. */
  predicate Gone(f: File, g: File) {
    !g.fileExists && g.isDirectory == f.isDirectory && g.isEphemeral == f.isEphemeral
  }

  predicate Childless(ds: map<string, File>, key: string) {
    forall q | q in ds :: !Child(ds, key, q)
  }

  lemma ParentShorter(p: string)
    requires Canonical(p)
    ensures Parent(p) != p
  {
  }

  /** Erasing a sibling's name from a listing: exactly its own entry goes, if it is there. */
  lemma UnlistedContent(ds: map<string, File>, key: string, N: Naming)
    requires GoodNaming(N) && ParentsIn(ds) && Named(ds, N) && key in N.paths
    requires Parent(key) in ds && LiveDir(ds[Parent(key)]) && Listed(ds)
    ensures var d, names := Parent(key), NamesOf(ds, Parent(key));
            if key in ds && ds[key].fileExists
            then exists k | 0 <= k < |names| ::
                   && names[k] == Filename(key)
                   && EraseName(ds[d].content, Filename(key)) == Some(Encode(Without(names, k)))
            else EraseName(ds[d].content, Filename(key)) == None && Filename(key) !in names
  {
    var d, n, names := Parent(key), Filename(key), NamesOf(ds, Parent(key));
    ListedNames(ds, N, d, names);
    forall j | 0 <= j < |names|
      ensures !(n < names[j])
    {
      assert Names(ds, d, names[j]);
    }
    if key in ds && ds[key].fileExists {
      assert Child(ds, d, key);
      var k :| 0 <= k < |names| && names[k] == n;
      EraseExact(names, k);
    } else {
      forall j | 0 <= j < |names|
        ensures !(n <= names[j])
      {
        assert Names(ds, d, names[j]);
        assert Canonical(key) && key == Join(d, n);
        assert names[j] != n;
      }
      EraseUnlisted(names, n);
    }
  }

  predicate AllCanonical(ds: map<string, File>) {
    forall q | q in ds && q != "/" :: Canonical(q)
  }

  lemma ShorterCovers(ds: map<string, File>, es: map<string, File>, key: string, k: nat, names: seq<string>)
    requires AllCanonical(ds) && key != "/" && key in ds && es.Keys == ds.Keys
    requires Covers(ds, Parent(key), names) && k < |names| && names[k] == Filename(key)
    requires forall q | q in ds && q != key :: es[q].fileExists == ds[q].fileExists
    requires !es[key].fileExists
    ensures Covers(es, Parent(key), Without(names, k))
  {
    var d, rest := Parent(key), Without(names, k);
    forall q | q in es && Child(es, d, q)
      ensures Filename(q) in rest
    {
      assert Child(ds, d, q) && q != key;
      assert Canonical(q) && Canonical(key);
      assert Filename(q) != names[k];
      var i :| 0 <= i < |names| && names[i] == Filename(q);
      assert rest[if i < k then i else i - 1] == names[i];
    }
  }

  lemma ShorterMembers(ds: map<string, File>, es: map<string, File>, key: string, k: nat, names: seq<string>)
    requires Members(ds, Parent(key), names) && Distinct(names) && k < |names| && names[k] == Filename(key)
    requires forall q | q in ds && q != key :: q in es && es[q].fileExists == ds[q].fileExists
    ensures Members(es, Parent(key), Without(names, k)) && Distinct(Without(names, k))
  {
    var d, rest := Parent(key), Without(names, k);
    forall i | 0 <= i < |rest|
      ensures Names(es, d, rest[i])
    {
      var j := if i < k then i else i + 1;
      assert rest[i] == names[j] && names[j] != names[k];
      assert Names(ds, d, names[j]);
    }
  }

  predicate Removable(ds: map<string, File>, key: string, g: File, N: Naming) {
    && GoodNaming(N) && ParentsIn(ds) && Named(ds, N) && key in ds && key != "/" && Childless(ds, key)
    && Gone(ds[key], g) && (key !in N.eph ==> g.content == "")
  }

  /** The files after the removal: key is g, the parent's content may differ, the rest is as before. */
  predicate Removed(ds: map<string, File>, es: map<string, File>, key: string, g: File)
    requires key in ds && Parent(key) in ds
  {
    && es.Keys == ds.Keys && Parent(key) != key && es[key] == g
    && (forall p | p in ds && p != key && p != Parent(key) :: es[p] == ds[p])
    && es[Parent(key)] == ds[Parent(key)].(content := After(ds[Parent(key)].content, Filename(key)))
  }

  /** The content once the name was looked for and erased. */
  function After(content: string, name: string): string {
    var r := EraseName(content, name);
    if r.Some? then r.value else content
  }

  lemma UnlistIs(ds: map<string, File>, key: string)
    requires Parent(key) in ds
    ensures var dir := ds[Parent(key)];
            Unlist(ds, key).ds == ds[Parent(key) := dir.(content := After(dir.content, Filename(key)))]
  {
    hide EraseName;
    var dir := ds[Parent(key)];
    assert dir.(content := dir.content) == dir && ds[Parent(key) := dir] == ds;
  }

  lemma UnlistRemoves(ds: map<string, File>, key: string, g: File)
    requires key in ds && Parent(key) in ds && Parent(key) != key
    ensures Removed(ds, Unlist(ds[key := g], key).ds, key, g)
  {
    hide Unlist, After, EraseName;
    UnlistIs(ds[key := g], key);
  }

  lemma RemoveNamed(ds: map<string, File>, es: map<string, File>, key: string, g: File, N: Naming)
    requires Removable(ds, key, g, N) && Removed(ds, es, key, g)
    ensures Named(es, N)
  {
    var d := Parent(key);
    if !ds[d].fileExists && d !in N.eph {
      assert ds[d].content == Encode([]);
      EraseUnlisted([], Filename(key));
    }
  }

  lemma RemoveClosed(ds: map<string, File>, es: map<string, File>, key: string, g: File, N: Naming)
    requires Removable(ds, key, g, N) && Removed(ds, es, key, g) && ClosedTree(ds)
    ensures ParentsIn(es) && ClosedTree(es)
  {
    hide EraseName;
    forall p | p in es && p != "/" && es[p].fileExists
      ensures LiveDir(es[Parent(p)])
    {
      assert LiveDir(ds[Parent(p)]);
      assert !Child(ds, key, p);
    }
  }

  lemma RemoveFromParent(ds: map<string, File>, es: map<string, File>, key: string, g: File, N: Naming)
    requires Removable(ds, key, g, N) && Removed(ds, es, key, g) && Listed(ds) && LiveDir(ds[Parent(key)])
    ensures exists names :: Lists(es, Parent(key), names)
  {
    hide EraseName, Covers, Members, Encode;
    var names := NamesOf(ds, Parent(key));
    UnlistedContent(ds, key, N);
    if ds[key].fileExists {
      var k :| 0 <= k < |names| && names[k] == Filename(key)
            && EraseName(ds[Parent(key)].content, Filename(key)) == Some(Encode(Without(names, k)));
      ShorterCovers(ds, es, key, k, names);
      ShorterMembers(ds, es, key, k, names);
      assert Lists(es, Parent(key), Without(names, k));
    } else {
      SameListing(ds, es, Parent(key), names);
    }
  }

  lemma RemoveListed(ds: map<string, File>, es: map<string, File>, key: string, g: File, N: Naming)
    requires Removable(ds, key, g, N) && Removed(ds, es, key, g) && Listed(ds)
    ensures Listed(es)
  {
    hide EraseName, After, Named, Lists;
    forall p | p in es && LiveDir(es[p])
      ensures exists names :: Lists(es, p, names)
    {
      if p == Parent(key) {
        RemoveFromParent(ds, es, key, g, N);
      } else {
        SameListing(ds, es, p, NamesOf(ds, p));
      }
    }
  }

  /** Marking a childless file as gone and erasing its name from its parent keeps the tree. */
  lemma RemoveTree(ds: map<string, File>, key: string, g: File, N: Naming)
    requires GoodNaming(N) && TreeOk(ds, N) && key in ds && key != "/" && Childless(ds, key)
    requires Gone(ds[key], g) && (key !in N.eph ==> g.content == "")
    ensures TreeOk(Unlist(ds[key := g], key).ds, N)
  {
    hide Unlist, Removed;
    var es := Unlist(ds[key := g], key).ds;
    assert key in N.paths;
    ParentShorter(key);
    UnlistRemoves(ds, key, g);
    RemoveNamed(ds, es, key, g, N);
    RemoveClosed(ds, es, key, g, N);
    RemoveListed(ds, es, key, g, N);
  }

  /** An ephemeral file is neither a directory nor the root, and nothing is below it. */
  lemma EphemeralNode(ds: map<string, File>, N: Naming, key: string)
    requires GoodNaming(N) && TreeOk(ds, N) && key in ds
    ensures Parent(key) in ds
    ensures ds[key].isEphemeral ==> key in N.eph && key != "/" && Childless(ds, key)
  {
    EmptyIffChildless(ds, N, key);
  }

  // ----- a file comes -----

  predicate Creatable(ds: map<string, File>, key: string, g: File, N: Naming) {
    && GoodNaming(N) && ParentsIn(ds) && Named(ds, N) && key in N.paths && !FileAt(ds, key).fileExists
    && Parent(key) in ds && LiveDir(ds[Parent(key)])
    && g.fileExists && g.content == FileAt(ds, key).content
    && (g.isEphemeral ==> key in N.eph) && (g.isDirectory ==> key !in N.eph)
  }

  /** The files after the creation: key is g, and its name is at the end of its parent's listing. */
  predicate Created(ds: map<string, File>, es: map<string, File>, key: string, g: File)
    requires Parent(key) in ds
  {
    && es.Keys == ds.Keys + {key} && Parent(key) != key && es[key] == g
    && (forall p | p in ds && p != key && p != Parent(key) :: es[p] == ds[p])
    && es[Parent(key)] == AddName(ds[Parent(key)], Filename(key))
  }

  lemma CreateNamed(ds: map<string, File>, es: map<string, File>, key: string, g: File, N: Naming)
    requires Creatable(ds, key, g, N) && Created(ds, es, key, g)
    ensures Named(es, N)
  {
    forall p | p in es && p != key && p != Parent(key)
      ensures p in ds && es[p] == ds[p]
    {
    }
    assert LiveDir(es[Parent(key)]);
  }

  lemma CreateClosed(ds: map<string, File>, es: map<string, File>, key: string, g: File, N: Naming)
    requires Creatable(ds, key, g, N) && Created(ds, es, key, g) && ClosedTree(ds)
    ensures ParentsIn(es) && ClosedTree(es)
  {
    forall p | p in es && p != "/" && es[p].fileExists
      ensures LiveDir(es[Parent(p)])
    {
      if p != key {
        assert LiveDir(ds[Parent(p)]);
        assert Parent(p) != key;
      }
    }
  }

  lemma CreatedChildren(ds: map<string, File>, es: map<string, File>, key: string, g: File, d: string, q: string)
    requires key != "/" && g.fileExists && Parent(key) in ds && Created(ds, es, key, g)
    requires key in ds ==> !ds[key].fileExists
    ensures Child(es, d, q) <==> Child(ds, d, q) || (q == key && d == Parent(key))
    ensures Child(ds, d, q) ==> q in ds
  {
  }

  lemma LongerCovers(ds: map<string, File>, es: map<string, File>, key: string, g: File, names: seq<string>)
    requires key != "/" && g.fileExists && Parent(key) in ds && Created(ds, es, key, g)
    requires key in ds ==> !ds[key].fileExists
    requires Covers(ds, Parent(key), names)
    ensures Covers(es, Parent(key), names + [Filename(key)])
  {
    var d, more := Parent(key), names + [Filename(key)];
    hide Created, Child;
    forall q | q in es && Child(es, d, q)
      ensures Filename(q) in more
    {
      CreatedChildren(ds, es, key, g, d, q);
      assert more[|names|] == Filename(key);
      assert q in ds && Child(ds, d, q) ==> Filename(q) in names;
    }
  }

  lemma LongerMembers(ds: map<string, File>, es: map<string, File>, key: string, g: File, names: seq<string>)
    requires Canonical(key) && key != "/" && g.fileExists && Parent(key) in ds && Created(ds, es, key, g)
    requires key in ds ==> !ds[key].fileExists
    requires Members(ds, Parent(key), names)
    ensures Members(es, Parent(key), names + [Filename(key)])
  {
    var d, more := Parent(key), names + [Filename(key)];
    hide Created, Child;
    forall i | 0 <= i < |more|
      ensures Names(es, d, more[i])
    {
      CreatedChildren(ds, es, key, g, d, Join(d, more[i]));
      if i < |names| {
        assert Names(ds, d, names[i]);
      } else {
        assert Join(d, Filename(key)) == key;
      }
    }
  }

  lemma CreateInParent(ds: map<string, File>, es: map<string, File>, key: string, g: File, N: Naming)
    requires Creatable(ds, key, g, N) && Created(ds, es, key, g) && Listed(ds)
    ensures exists names :: Lists(es, Parent(key), names)
  {
    hide EraseName, Covers, Members, Encode;
    var names := NamesOf(ds, Parent(key));
    UnlistedContent(ds, key, N);
    AppendName(names, Filename(key));
    LongerCovers(ds, es, key, g, names);
    LongerMembers(ds, es, key, g, names);
    assert Lists(es, Parent(key), names + [Filename(key)]);
  }

  lemma CreateEmpty(ds: map<string, File>, es: map<string, File>, key: string, g: File, N: Naming)
    requires Creatable(ds, key, g, N) && Created(ds, es, key, g) && ClosedTree(ds) && g.isDirectory
    ensures Lists(es, key, [])
  {
    assert g.content == "" == Encode([]);
    forall q | q in es
      ensures !Child(es, key, q)
    {
      if q in ds && q != "/" && ds[q].fileExists {
        assert LiveDir(ds[Parent(q)]);
      }
    }
  }

  lemma CreateElsewhere(ds: map<string, File>, es: map<string, File>, key: string, g: File, d: string)
    requires key != "/" && g.fileExists && Parent(key) in ds && Created(ds, es, key, g)
    requires key in ds ==> !ds[key].fileExists
    requires Listed(ds) && d in ds && LiveDir(ds[d]) && d != key && d != Parent(key)
    ensures d in es && Lists(es, d, NamesOf(ds, d))
  {
    hide Lists;
    forall q: string
      ensures Child(es, d, q) <==> Child(ds, d, q)
    {
      CreatedChildren(ds, es, key, g, d, q);
    }
    SameListing(ds, es, d, NamesOf(ds, d));
  }

  lemma CreateListed(ds: map<string, File>, es: map<string, File>, key: string, g: File, N: Naming)
    requires Creatable(ds, key, g, N) && Created(ds, es, key, g) && Listed(ds) && ClosedTree(ds)
    ensures Listed(es)
  {
    hide Lists;
    forall p | p in es && LiveDir(es[p])
      ensures exists names :: Lists(es, p, names)
    {
      if p == Parent(key) {
        CreateInParent(ds, es, key, g, N);
      } else if p == key {
        CreateEmpty(ds, es, key, g, N);
      } else {
        CreateElsewhere(ds, es, key, g, p);
      }
    }
  }

  lemma CreateTree(ds: map<string, File>, es: map<string, File>, key: string, g: File, N: Naming)
    requires TreeOk(ds, N) && Creatable(ds, key, g, N) && Created(ds, es, key, g)
    ensures TreeOk(es, N)
  {
    hide Created, Creatable, Named;
    CreateNamed(ds, es, key, g, N);
    CreateClosed(ds, es, key, g, N);
    CreateListed(ds, es, key, g, N);
  }

  // ----- steps -----

  /** What the runs with exact listings keep to. */
  predicate TreeGuard(st: State, a: Action, N: Naming)
    requires Wf(st)
  {
    match a
    case Open(_, path, isDirectory, isEphemeral) =>
      && (path == "/" || (path in N.paths && Parent(path) in st.ds && st.ds[Parent(path)].fileExists))
      && (isEphemeral ==> path in N.eph) && (isDirectory ==> path !in N.eph)
    case SetContent(sid, fh, _) =>
      HasHandle(st, sid, fh) ==> (assert WfSession(st.ds, st.db[sid]); !st.ds[PathOf(st, sid, fh)].isDirectory)
    case Delete(sid, fh) => HasHandle(st, sid, fh) ==> PathOf(st, sid, fh) != "/"
    case _ => true
  }

  lemma OpenIs(ds: map<string, File>, a: Action, fh: int)
    requires a.Open? && OpenFile(ds, a, fh).Some?
    ensures var f, es := FileAt(ds, a.path), OpenFile(ds, a, fh).value;
            var g := f.(isDirectory := if f.fileExists then f.isDirectory else a.isDirectory,
                        isEphemeral := a.isEphemeral, fileExists := true,
                        subscribers := f.subscribers[a.sid := fh]);
            if a.path == "/" || f.fileExists then es == ds[a.path := g]
            else Parent(a.path) != a.path ==>
              Parent(a.path) in ds && ds[Parent(a.path)].isDirectory && Created(ds, es, a.path, g)
  {
  }

  lemma OpenFileTree(ds: map<string, File>, a: Action, fh: int, N: Naming)
    requires a.Open? && OpenFile(ds, a, fh).Some? && GoodNaming(N) && TreeOk(ds, N)
    requires a.path == "/" || (a.path in N.paths && Parent(a.path) in ds && ds[Parent(a.path)].fileExists)
    requires (a.isEphemeral ==> a.path in N.eph) && (a.isDirectory ==> a.path !in N.eph)
    ensures TreeOk(OpenFile(ds, a, fh).value, N)
  {
    hide OpenFile, Created, Listed, ClosedTree;
    var es := OpenFile(ds, a, fh).value;
    var f := FileAt(ds, a.path);
    var g := f.(isDirectory := if f.fileExists then f.isDirectory else a.isDirectory,
                isEphemeral := a.isEphemeral, fileExists := true,
                subscribers := f.subscribers[a.sid := fh]);
    OpenIs(ds, a, fh);
    if a.path == "/" || f.fileExists {
      FrameTree(ds, es, N);
    } else {
      ParentShorter(a.path);
      CreateTree(ds, es, a.path, g, N);
    }
  }

  lemma OpenTree(s: State, a: Action, t: State, N: Naming)
    requires Step(s, a, t) && a.Open? && GoodNaming(N) && TreeOk(s.ds, N) && TreeGuard(s, a, N)
    ensures TreeOk(t.ds, N)
  {
    hide OpenFile, TreeOk;
    if a.sid in s.db {
      OpenFileTree(s.ds, a, |s.db[a.sid].paths|, N);
    }
  }

  lemma DeleteTree(s: State, a: Action, t: State, N: Naming)
    requires Step(s, a, t) && a.Delete? && GoodNaming(N) && TreeOk(s.ds, N) && TreeGuard(s, a, N)
    ensures TreeOk(t.ds, N)
  {
    hide Unlist;
    if a.sid in s.db {
      assert WfSession(s.ds, s.db[a.sid]);
      var key := PathOf(s, a.sid, a.fh);
      EmptyIffChildless(s.ds, N, key);
      RemoveTree(s.ds, key, Deleted(s.ds[key]), N);
    }
  }

  /** Delete's test is right: a directory's content is empty exactly if it has no existing child. */
  lemma EmptyIffChildless(ds: map<string, File>, N: Naming, d: string)
    requires TreeOk(ds, N) && d in ds
    ensures ds[d].isDirectory ==> (ds[d].content == "" <==> Childless(ds, d))
    ensures !LiveDir(ds[d]) ==> Childless(ds, d)
  {
    if LiveDir(ds[d]) {
      var names := NamesOf(ds, d);
      if names != [] {
        assert Names(ds, d, names[0]);
        assert ds[d].content[0] == NUL;
      } else {
        assert forall q | q in ds && Child(ds, d, q) :: Filename(q) in names;
      }
    } else {
      forall q | q in ds
        ensures !Child(ds, d, q)
      {
        assert q != "/" && ds[q].fileExists ==> LiveDir(ds[Parent(q)]);
      }
    }
  }

  lemma UnsubscribeTree(ds: map<string, File>, sid: int, key: string, N: Naming)
    requires GoodNaming(N) && TreeOk(ds, N) && key in ds
    ensures Parent(key) in ds && TreeOk(Unsubscribe(ds, sid, key).ds, N)
  {
    hide Unlist, TreeOk, GoodNaming, Childless;
    var f := ds[key];
    var f1 := f.(subscribers := f.subscribers - {sid});
    EphemeralNode(ds, N, key);
    if sid in f.subscribers && f1.subscribers == map[] && f.isEphemeral {
      RemoveTree(ds, key, f1.(fileExists := false), N);
    } else if sid in f.subscribers {
      FrameTree(ds, ds[key := f1], N);
    }
  }

  lemma ReleaseTree(s: State, sid: int, fh: int, N: Naming)
    requires Wf(s) && (sid in s.db ==> HasHandle(s, sid, fh)) && TreeOk(s.ds, N)
    ensures TreeOk(ReleaseLock(s, sid, fh).st.ds, N)
  {
    if sid in s.db { assert WfSession(s.ds, s.db[sid]); }
    FrameTree(s.ds, ReleaseLock(s, sid, fh).st.ds, N);
  }

  lemma EndOneTree(done: Ended, sid: int, fh: nat, N: Naming)
    requires Wf(done.st) && sid in done.st.db && fh < |done.st.db[sid].paths|
    requires GoodNaming(N) && TreeOk(done.st.ds, N)
    ensures TreeOk(CloseFile(done.st, sid, fh).st.ds, N) && TreeOk(EndOne(done, sid, fh).st.ds, N)
  {
    hide Unsubscribe, ReleaseLock, TreeOk;
    assert WfSession(done.st.ds, done.st.db[sid]);
    UnsubscribeTree(done.st.ds, sid, done.st.db[sid].paths[fh], N);
    ReleaseTree(CloseFile(done.st, sid, fh).st, sid, fh, N);
  }

  lemma {:induction false} EndTree(s: State, sid: int, n: nat, N: Naming)
    requires Wf(s) && sid in s.db && n <= |s.db[sid].paths| && GoodNaming(N) && TreeOk(s.ds, N)
    ensures TreeOk(EndUpTo(s, sid, n).st.ds, N)
  {
    hide EndOne, TreeOk;
    if n > 0 {
      EndTree(s, sid, n - 1, N);
      EndOneTree(EndUpTo(s, sid, n - 1), sid, n - 1, N);
    }
  }

  lemma CloseTree(s: State, a: Action, t: State, N: Naming)
    requires Step(s, a, t) && (a.Close? || a.Rel? || a.EndSession?) && GoodNaming(N) && TreeOk(s.ds, N)
    ensures TreeOk(t.ds, N)
  {
    hide CloseFile, ReleaseLock, EndUpTo, TreeOk;
    if a.sid in s.db {
      match a
      case EndSession(sid) => EndTree(s, sid, |s.db[sid].paths|, N);
      case Rel(sid, fh) => ReleaseTree(s, sid, fh, N);
      case Close(sid, fh) =>
        EndOneTree(Ended(s, [], {}), sid, fh, N);
        ReleaseTree(CloseFile(s, sid, fh).st, sid, fh, N);
    } else if a.Rel? {
      ReleaseTree(s, a.sid, a.fh, N);
    }
  }

  lemma OtherTree(s: State, a: Action, t: State, N: Naming)
    requires Step(s, a, t) && (a.StartSession? || a.SetContent? || a.Acq?)
    requires GoodNaming(N) && TreeOk(s.ds, N) && TreeGuard(s, a, N)
    ensures TreeOk(t.ds, N)
  {
    hide TreeOk, GoodNaming;
    FrameTree(s.ds, t.ds, N);
  }

  lemma StepTree(s: State, a: Action, t: State, N: Naming)
    requires Step(s, a, t) && GoodNaming(N) && TreeOk(s.ds, N) && TreeGuard(s, a, N)
    ensures TreeOk(t.ds, N)
  {
    hide Step, TreeOk, TreeGuard, GoodNaming;
    match a
    case Open(_, _, _, _) => OpenTree(s, a, t, N);
    case Delete(_, _) => DeleteTree(s, a, t, N);
    case Close(_, _) => CloseTree(s, a, t, N);
    case Rel(_, _) => CloseTree(s, a, t, N);
    case EndSession(_) => CloseTree(s, a, t, N);
    case _ => OtherTree(s, a, t, N);
  }

  lemma InitTree(N: Naming)
    requires GoodNaming(N)
    ensures TreeOk(INIT.ds, N)
  {
    assert Parent("/") == "/";
    assert Lists(INIT.ds, "/", []);
  }

  lemma {:induction false} TreeKept(states: seq<State>, log: seq<Action>, n: nat, N: Naming)
    requires InitRun(states, log) && n <= |log| && GoodNaming(N)
    requires forall i | 0 <= i < |log| :: TreeGuard(states[i], log[i], N)
    ensures TreeOk(states[n].ds, N)
  {
    hide Apply, TreeOk, TreeGuard;
    if n == 0 {
      InitTree(N);
    } else {
      TreeKept(states, log, n - 1, N);
      assert Step(states[n - 1], log[n - 1], states[n]);
      StepTree(states[n - 1], log[n - 1], states[n], N);
    }
  }

  /**
   In every reachable state an existing directory's content is the concatenation,
   without duplicates, of NUL and name for exactly its existing children.
   */
  lemma ListingsAreExact(states: seq<State>, log: seq<Action>, n: nat, N: Naming, d: string)
    returns (names: seq<string>)
    requires InitRun(states, log) && n <= |log| && GoodNaming(N)
    requires forall i | 0 <= i < |log| :: TreeGuard(states[i], log[i], N)
    requires d in states[n].ds && LiveDir(states[n].ds[d])
    ensures states[n].ds[d].content == Encode(names) && Distinct(names)
    ensures forall q | Child(states[n].ds, d, q) :: Filename(q) in names
    ensures forall x | x in names :: Child(states[n].ds, d, Join(d, x)) && Filename(Join(d, x)) == x
  {
    TreeKept(states, log, n, N);
    names := NamesOf(states[n].ds, d);
  }

  /** In every reachable state every existing file but the root is in an existing directory. */
  lemma TreeStaysClosed(states: seq<State>, log: seq<Action>, n: nat, N: Naming, p: string)
    requires InitRun(states, log) && n <= |log| && GoodNaming(N)
    requires forall i | 0 <= i < |log| :: TreeGuard(states[i], log[i], N)
    requires p in states[n].ds && p != "/" && states[n].ds[p].fileExists
    ensures Parent(p) in states[n].ds && LiveDir(states[n].ds[Parent(p)])
  {
    TreeKept(states, log, n, N);
  }
}
