/**
 What a file holds: along every run, the text of the last write that got through.
 */
module Contents {
  import opened Paths
  import opened Store
  import opened Handles
  import Easing
  import Report

  /** a is a SetContent on p that passes both of its checks. */
  predicate Writes(s: State, a: Action, p: string)
    requires Wf(s)
  {
    a.SetContent? && HasHandle(s, a.sid, a.fh) && PathOf(s, a.sid, a.fh) == p
    && Fresh(s, a.sid, a.fh) && FileAt(s.ds, p).fileExists
  }

  /** The text of the last write to p since it was last deleted, after n entries. */
  function LastWritten(states: seq<State>, log: seq<Action>, p: string, n: nat): string
    requires Run(states, log) && n <= |log|
  {
    if n == 0 then ""
    else
      var s, a := states[n - 1], log[n - 1];
      if Writes(s, a, p) then a.content
      else if Deletes(s, a, p) then ""
      else LastWritten(states, log, p, n - 1)
  }

  /** No known path has p as its parent. */
  predicate NothingBelow(ds: map<string, File>, p: string) {
    forall key | key in ds :: Parent(key) != p
  }

  predicate NoDirectory(s: State, p: string) {
    p in s.ds ==> !s.ds[p].isDirectory
  }

  /** What p holds after the step. */
  function TextAfter(s: State, a: Action, p: string): string
    requires Wf(s)
  {
    if Writes(s, a, p) then a.content else if Deletes(s, a, p) then "" else FileAt(s.ds, p).content
  }

  lemma BelowAgain(ds: map<string, File>, es: map<string, File>, p: string)
    requires es.Keys == ds.Keys && NothingBelow(ds, p)
    ensures NothingBelow(es, p)
  {
  }

  lemma OpenContent(s: State, a: Action, t: State, p: string)
    requires Step(s, a, t) && a.Open? && NothingBelow(s.ds, p) && NoDirectory(t, p)
    ensures NothingBelow(t.ds, p)
    ensures FileAt(t.ds, p).content == FileAt(s.ds, p).content
  {
    hide OpenFile;
    if a.sid in s.db {
      OpenedContent(s.ds, a, |s.db[a.sid].paths|, p);
    }
  }

  lemma OpenedContent(ds: map<string, File>, a: Action, fh: int, p: string)
    requires a.Open? && OpenFile(ds, a, fh).Some? && NothingBelow(ds, p)
    requires var es := OpenFile(ds, a, fh).value; p in es ==> !es[p].isDirectory
    ensures var es := OpenFile(ds, a, fh).value;
            NothingBelow(es, p) && FileAt(es, p).content == FileAt(ds, p).content
  {
    hide Parent, Filename;
    var es := OpenFile(ds, a, fh).value;
    assert es[Parent(a.path)].isDirectory;
  }

  /** Every erased listing entry was in the parent directory of a known path. */
  lemma ErasedItem(ds: map<string, File>, sid: int, key: string)
    requires key in ds && Parent(key) in ds
    ensures var e := Unsubscribe(ds, sid, key); e.item.Some? ==> e.item.value.dir == Parent(key)
  {
  }

  lemma CloseItem(s: State, sid: int, fh: int, p: string)
    requires Wf(s) && HasHandle(s, sid, fh) && NothingBelow(s.ds, p)
    ensures var c := CloseFile(s, sid, fh); c.item.Some? ==> c.item.value.dir != p
  {
    hide Unsubscribe;
    assert WfSession(s.ds, s.db[sid]);
    ErasedItem(s.ds, sid, PathOf(s, sid, fh));
  }

  lemma EndOneErases(done: Ended, sid: int, fh: nat, p: string)
    requires Wf(done.st) && sid in done.st.db && fh < |done.st.db[sid].paths|
    requires NothingBelow(done.st.ds, p) && p !in Dirs(done.items)
    ensures p !in Dirs(EndOne(done, sid, fh).items)
  {
    hide CloseFile, ReleaseLock, NothingBelow, Dirs;
    CloseItem(done.st, sid, fh, p);
    var c := CloseFile(done.st, sid, fh);
    if c.item.Some? {
      Report.AppendItem(done.items, c.item.value, p);
    }
  }

  lemma {:induction false} ErasedBelow(s: State, sid: int, n: nat, p: string)
    requires Wf(s) && sid in s.db && n <= |s.db[sid].paths| && NothingBelow(s.ds, p)
    ensures p !in Dirs(EndUpTo(s, sid, n).items)
  {
    hide EndOne, NothingBelow, Dirs, Wf;
    if n == 0 {
      assert Dirs([]) == [];
    } else {
      ErasedBelow(s, sid, n - 1, p);
      BelowAgain(s.ds, EndUpTo(s, sid, n - 1).st.ds, p);
      EndOneErases(EndUpTo(s, sid, n - 1), sid, n - 1, p);
    }
  }

  lemma CloseContent(s: State, a: Action, t: State, p: string)
    requires Step(s, a, t) && a.Close? && NothingBelow(s.ds, p) && p in s.ds
    ensures t.ds.Keys == s.ds.Keys && t.ds[p].content == s.ds[p].content
  {
    hide CloseFile, ReleaseLock, NothingBelow;
    if a.sid in s.db {
      Report.EndOneContent(Ended(s, [], {}), a.sid, a.fh, p);
      CloseItem(s, a.sid, a.fh, p);
    }
  }

  lemma EndContent(s: State, a: Action, t: State, p: string)
    requires Step(s, a, t) && a.EndSession? && NothingBelow(s.ds, p) && p in s.ds
    ensures t.ds.Keys == s.ds.Keys && t.ds[p].content == s.ds[p].content
  {
    hide EndUpTo, NothingBelow;
    if a.sid in s.db {
      ErasedBelow(s, a.sid, |s.db[a.sid].paths|, p);
      Report.EndContent(s, a.sid, |s.db[a.sid].paths|, p);
    }
  }

  lemma LockContent(s: State, a: Action, t: State, p: string)
    requires Step(s, a, t) && (a.Rel? || a.StartSession? || a.Acq?) && p in s.ds
    ensures t.ds.Keys == s.ds.Keys && t.ds[p].content == s.ds[p].content
  {
    if a.Rel? && a.sid in s.db { Report.ReleaseContent(s, a.sid, a.fh, p); }
  }

  lemma DeletedContent(ds: map<string, File>, key: string, p: string)
    requires key in ds && Parent(key) in ds && p in ds && NothingBelow(ds, p)
    ensures DeleteFile(ds, key)[p].content == if p == key then "" else ds[p].content
  {
    hide Unlist;
    Easing.UnlistFrame(ds[key := Deleted(ds[key])], key, p);
  }

  lemma DeleteContent(s: State, a: Action, t: State, p: string)
    requires Step(s, a, t) && a.Delete? && NothingBelow(s.ds, p) && p in s.ds
    ensures t.ds.Keys == s.ds.Keys
    ensures t.ds[p].content == if Deletes(s, a, p) then "" else s.ds[p].content
  {
    hide DeleteFile, NothingBelow;
    if a.sid in s.db {
      assert WfSession(s.ds, s.db[a.sid]);
      DeletedContent(s.ds, PathOf(s, a.sid, a.fh), p);
    }
  }

  lemma WrittenContent(s: State, a: Action, t: State, p: string)
    requires Step(s, a, t) && a.SetContent? && p in s.ds
    ensures t.ds.Keys == s.ds.Keys
    ensures t.ds[p].content == if Writes(s, a, p) then a.content else s.ds[p].content
  {
    assert a.sid in s.db ==> WfSession(s.ds, s.db[a.sid]);
  }

  lemma TextAfterOthers(s: State, a: Action, p: string)
    requires Wf(s)
    ensures !a.SetContent? && !a.Delete? ==> TextAfter(s, a, p) == FileAt(s.ds, p).content
    ensures a.SetContent? ==> TextAfter(s, a, p) == if Writes(s, a, p) then a.content else FileAt(s.ds, p).content
    ensures a.Delete? ==> TextAfter(s, a, p) == if Deletes(s, a, p) then "" else FileAt(s.ds, p).content
    ensures p !in s.ds ==> TextAfter(s, a, p) == ""
  {
    assert a.SetContent? && a.sid in s.db ==> WfSession(s.ds, s.db[a.sid]);
    assert a.Delete? && a.sid in s.db ==> WfSession(s.ds, s.db[a.sid]);
  }

  lemma KeysSame(s: State, a: Action, t: State)
    requires Step(s, a, t) && !a.Open?
    ensures t.ds.Keys == s.ds.Keys
  {
    hide CloseFile, ReleaseLock, EndUpTo, DeleteFile;
    assert a.SetContent? || a.Acq? || a.Delete? ==> a.sid in s.db ==> WfSession(s.ds, s.db[a.sid]);
  }

  lemma OtherContent(s: State, a: Action, t: State, p: string)
    requires Wf(s) && Step(s, a, t) && !a.Open? && NothingBelow(s.ds, p) && p in s.ds
    ensures p in t.ds && t.ds[p].content == TextAfter(s, a, p)
  {
    hide Step, Writes, Deletes, TextAfter, NothingBelow;
    TextAfterOthers(s, a, p);
    match a
    case Close(_, _) => CloseContent(s, a, t, p);
    case EndSession(_) => EndContent(s, a, t, p);
    case Delete(_, _) => DeleteContent(s, a, t, p);
    case SetContent(_, _, _) => WrittenContent(s, a, t, p);
    case _ => LockContent(s, a, t, p);
  }

  lemma StepContent(s: State, a: Action, t: State, p: string)
    requires Wf(s) && Step(s, a, t) && NothingBelow(s.ds, p) && NoDirectory(t, p)
    ensures NothingBelow(t.ds, p) && FileAt(t.ds, p).content == TextAfter(s, a, p)
  {
    hide Step, TextAfter, NothingBelow;
    TextAfterOthers(s, a, p);
    if a.Open? {
      OpenContent(s, a, t, p);
    } else {
      KeysSame(s, a, t);
      BelowAgain(s.ds, t.ds, p);
      if p in s.ds { OtherContent(s, a, t, p); }
    }
  }

  lemma StartBelow(p: string)
    requires NoDirectory(INIT, p)
    ensures NothingBelow(INIT.ds, p) && FileAt(INIT.ds, p).content == ""
  {
    assert Parent("/") == "/";
  }

  lemma {:induction false} BelowPlainFiles(states: seq<State>, log: seq<Action>, n: nat, p: string)
    requires InitRun(states, log) && n <= |log| && forall i | 0 <= i <= n :: NoDirectory(states[i], p)
    ensures NothingBelow(states[n].ds, p)
    ensures FileAt(states[n].ds, p).content == LastWritten(states, log, p, n)
  {
    hide Apply, Writes, Deletes, NothingBelow, NoDirectory;
    if n == 0 {
      StartBelow(p);
    } else {
      BelowPlainFiles(states, log, n - 1, p);
      assert Step(states[n - 1], log[n - 1], states[n]);
      StepContent(states[n - 1], log[n - 1], states[n], p);
    }
  }

  /**
   A file that never was a directory holds the text of the last SetContent that got
   through since its last Delete, and nothing if there was none.  An ephemeral file that
   goes with its last subscriber keeps its text for whoever opens it next.
   */
  lemma ContentIsLastWritten(states: seq<State>, log: seq<Action>, n: nat, p: string)
    requires InitRun(states, log) && n <= |log| && forall i | 0 <= i <= n :: NoDirectory(states[i], p)
    ensures FileAt(states[n].ds, p).content == LastWritten(states, log, p, n)
  {
    BelowPlainFiles(states, log, n, p);
  }

  /**
   A successful Open returns a fresh handle on an existing file and subscribes the session
   with it.  The kind of file is the one asked for exactly if the Open created it.
   */
  lemma OpenTakesEffect(s: State, a: Action)
    requires Wf(s) && a.Open? && a.sid in s.db && Apply(s, a).Done?
    ensures var t, fh := Apply(s, a).st, Apply(s, a).reply.fh;
            && fh == |s.db[a.sid].paths| && HasHandle(t, a.sid, fh) && PathOf(t, a.sid, fh) == a.path
            && Fresh(t, a.sid, fh) && a.path in t.ds && t.ds[a.path].fileExists
            && a.sid in t.ds[a.path].subscribers && t.ds[a.path].subscribers[a.sid] == fh
            && t.ds[a.path].isEphemeral == a.isEphemeral
            && t.ds[a.path].isDirectory ==
                 (if FileAt(s.ds, a.path).fileExists then s.ds[a.path].isDirectory else a.isDirectory)
  {
    hide Parent, Filename;
  }
}
