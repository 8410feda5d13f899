/**
 Which content changes the subscribers are told about: every one that a log entry makes,
 with two exceptions that are stated exactly.
 */
module Coverage {
  import opened Paths
  import opened Store
  import opened Handles
  import opened Coherence
  import Answers
  import Contents
  import Easing
  import Report

  predicate Changes(s: State, t: State, p: string) {
    FileAt(t.ds, p).content != FileAt(s.ds, p).content
  }

  /** The Delete is of p itself, and p is not its own parent. */
  predicate DeletesItself(s: State, a: Action, p: string) {
    Deletes(s, a, p) && Parent(p) != p
  }

  /** The handler looks its session up again and finds it gone. */
  predicate LosesSession(a: Action, now: State) {
    (a.SetContent? || a.Delete?) && a.sid !in now.db
  }

  lemma OpenCovered(s: State, a: Action, t: State, now: State, p: string)
    requires Step(s, a, t) && a.Open?
    ensures Changes(s, t, p) ==> p in Targets(s, a, now)
  {
    if a.sid in s.db { OpenChanges(s.ds, a, |s.db[a.sid].paths|, p); }
    hide OpenFile;
  }

  lemma OpenChanges(ds: map<string, File>, a: Action, fh: int, p: string)
    requires a.Open? && OpenFile(ds, a, fh).Some?
    ensures FileAt(OpenFile(ds, a, fh).value, p).content != FileAt(ds, p).content ==> p == Parent(a.path)
  {
    hide Parent, Filename;
  }

  lemma CloseCovered(s: State, a: Action, t: State, now: State, p: string)
    requires Step(s, a, t) && a.Close?
    ensures Changes(s, t, p) ==> p in Targets(s, a, now)
  {
    hide CloseFile, ReleaseLock;
    if a.sid in s.db && p in s.ds {
      Report.EndOneContent(Ended(s, [], {}), a.sid, a.fh, p);
    }
  }

  lemma EndCovered(s: State, a: Action, t: State, now: State, p: string)
    requires Step(s, a, t) && a.EndSession?
    ensures Changes(s, t, p) ==> p in Targets(s, a, now)
  {
    hide EndUpTo, Dirs;
    Contents.KeysSame(s, a, t);
    if a.sid in s.db && p in s.ds {
      Report.EndSessionReports(s, a.sid, p);
    }
  }

  lemma SetContentCovered(s: State, a: Action, t: State, now: State, p: string)
    requires Step(s, a, t) && a.SetContent?
    ensures Changes(s, t, p) ==> (p in Targets(s, a, now) <==> a.sid in now.db)
  {
  }

  lemma LocksCovered(s: State, a: Action, t: State, p: string)
    requires Step(s, a, t) && (a.Acq? || a.Rel? || a.StartSession?)
    ensures !Changes(s, t, p)
  {
    Contents.KeysSame(s, a, t);
    if p in s.ds { Contents.LockContent(s, a, t, p); }
  }

  lemma DeleteChanges(ds: map<string, File>, key: string, p: string)
    requires key in ds && Parent(key) in ds && p in ds
    ensures p != key && p != Parent(key) ==> DeleteFile(ds, key)[p].content == ds[p].content
  {
    hide Unlist;
    Easing.UnlistFrame(ds[key := Deleted(ds[key])], key, p);
  }

  lemma DeleteCoveredIff(s: State, a: Action, t: State, now: State, p: string)
    requires Step(s, a, t) && a.Delete?
    ensures Changes(s, t, p) ==>
              (p in Targets(s, a, now) <==> a.sid in now.db && !DeletesItself(s, a, p))
  {
    hide DeleteFile;
    if a.sid in s.db {
      assert WfSession(s.ds, s.db[a.sid]);
      if p in s.ds { DeleteChanges(s.ds, PathOf(s, a.sid, a.fh), p); }
    }
  }

  /**
   A content that an entry changes goes unnotified exactly if the entry is a Delete of the
   very file it clears, or the entry is a SetContent or Delete whose session is gone by the
   time its handler looks it up again.
   */
  lemma ChangeUnnotifiedIff(s: State, a: Action, now: State, p: string)
    requires Wf(s) && Apply(s, a).Done? && Changes(s, Apply(s, a).st, p)
    ensures p !in Targets(s, a, now) <==> DeletesItself(s, a, p) || LosesSession(a, now)
  {
    var t := Apply(s, a).st;
    assert Step(s, a, t);
    hide Apply, Step, Targets, Changes;
    match a
    case Open(_, _, _, _) => OpenCovered(s, a, t, now, p);
    case Close(_, _) => CloseCovered(s, a, t, now, p);
    case EndSession(_) => EndCovered(s, a, t, now, p);
    case SetContent(_, _, _) => SetContentCovered(s, a, t, now, p);
    case Delete(_, _) => DeleteCoveredIff(s, a, t, now, p);
    case _ => LocksCovered(s, a, t, p);
  }

  /** What an RPC notifies, whether or not the entry changed anything there. */
  predicate Notifies(s: State, a: Action, t: State, now: State, p: string)
    requires Wf(s)
  {
    match a
    case Open(sid, path, _, _) => sid in s.db && p == Parent(path)
    case Close(_, _) => Changes(s, t, p)
    case EndSession(_) => Changes(s, t, p)
    case SetContent(sid, fh, _) => sid in now.db && Contents.Writes(s, a, p)
    case Delete(sid, fh) => sid in now.db && HasHandle(s, sid, fh) && p == Parent(PathOf(s, sid, fh))
    case _ => false
  }

  /**
   An RPC notifies exactly: Open, its path's parent, even if nothing changed; Close and
   EndSession, the directories that changed; SetContent, the file it wrote; Delete, the
   deleted file's parent; the last two only while their session is there.
   */
  lemma TargetsExactly(s: State, a: Action, now: State, p: string)
    requires Wf(s) && Apply(s, a).Done?
    ensures p in Targets(s, a, now) <==> Notifies(s, a, Apply(s, a).st, now, p)
  {
    var t := Apply(s, a).st;
    match a
    case Open(_, _, _, _) => hide OpenFile;
    case Close(_, _) => CloseTargets(s, a, t, now, p);
    case EndSession(_) => EndTargets(s, a, t, now, p);
    case SetContent(_, _, _) => SetContentTargets(s, a, now, p);
    case Delete(_, _) => hide DeleteFile;
    case _ => NoTargets(s, a, now, p);
  }

  lemma CloseTargets(s: State, a: Action, t: State, now: State, p: string)
    requires Wf(s) && Step(s, a, t) && a.Close?
    ensures p in Targets(s, a, now) <==> Changes(s, t, p)
  {
    hide CloseFile, ReleaseLock;
    Contents.KeysSame(s, a, t);
    if p in s.ds {
      Answers.CloseAnswer(s, a, p);
    } else {
      Answers.CloseAnswer(s, a, "/");
    }
  }

  lemma EndTargets(s: State, a: Action, t: State, now: State, p: string)
    requires Wf(s) && Step(s, a, t) && a.EndSession?
    ensures p in Targets(s, a, now) <==> Changes(s, t, p)
  {
    hide EndUpTo, Dirs;
    Contents.KeysSame(s, a, t);
    if a.sid in s.db {
      if p in s.ds {
        Report.EndSessionReports(s, a.sid, p);
      } else {
        ReportedKnown(s, a.sid, |s.db[a.sid].paths|, p);
      }
    }
  }

  lemma EndOneKnown(done: Ended, sid: int, fh: nat, p: string)
    requires Wf(done.st) && sid in done.st.db && fh < |done.st.db[sid].paths|
    requires p !in done.st.ds && p !in Dirs(done.items)
    ensures p !in Dirs(EndOne(done, sid, fh).items)
  {
    hide CloseFile, ReleaseLock, Dirs;
    Answers.ErasedKnown(done.st, sid, fh);
    var c := CloseFile(done.st, sid, fh);
    if c.item.Some? { Report.AppendItem(done.items, c.item.value, p); }
  }

  /** Only known directories are reported. */
  lemma {:induction false} ReportedKnown(s: State, sid: int, n: nat, p: string)
    requires Wf(s) && sid in s.db && n <= |s.db[sid].paths| && p !in s.ds
    ensures p !in Dirs(EndUpTo(s, sid, n).items)
  {
    hide EndOne, Dirs, Wf;
    if n == 0 {
      assert Dirs([]) == [];
    } else {
      ReportedKnown(s, sid, n - 1, p);
      EndOneKnown(EndUpTo(s, sid, n - 1), sid, n - 1, p);
    }
  }

  lemma SetContentTargets(s: State, a: Action, now: State, p: string)
    requires Wf(s) && a.SetContent? && Apply(s, a).Done?
    ensures p in Targets(s, a, now) <==> a.sid in now.db && Contents.Writes(s, a, p)
  {
    Answers.SetContentAnswer(s, a);
  }

  lemma NoTargets(s: State, a: Action, now: State, p: string)
    requires Wf(s) && (a.Acq? || a.Rel? || a.StartSession?)
    ensures p !in Targets(s, a, now)
  {
  }
}
