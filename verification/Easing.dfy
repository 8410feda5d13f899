/**
 Closing handles and releasing locks, seen from outside: what Close, EndSession and Rel
 can at most do to a file and to the session table.
 */
module Easing {
  import opened Paths
  import opened Store

  /**
   g is f after some of sid's locks and subscriptions went, and perhaps an ephemeral file with
   them.  A directory's content may differ: it lists the ephemeral files.
   */
  predicate FileEased(f: File, g: File, sid: int) {
    && g.isLockedEx == f.isLockedEx && g.lockGenNum == f.lockGenNum
    && g.instanceNum == f.instanceNum && g.contentGenNum == f.contentGenNum
    && g.isDirectory == f.isDirectory && g.isEphemeral == f.isEphemeral
    && (g.lockOwners == f.lockOwners || g.lockOwners == f.lockOwners - {sid})
    && (g.subscribers == f.subscribers || g.subscribers == f.subscribers - {sid})
    && (g.fileExists ==> f.fileExists)
    && (f.fileExists && !g.fileExists ==> f.isEphemeral)
  }

  /** The handles keep their paths; a stored instance number stays or becomes -1. */
  predicate SessionEased(s: Session, t: Session) {
    && t.paths == s.paths && |t.inums| == |s.inums|
    && forall i | 0 <= i < |s.inums| :: t.inums[i] == s.inums[i] || t.inums[i] == -1
  }

  predicate Eased(s: State, t: State, sid: int) {
    && t.ds.Keys == s.ds.Keys && t.db.Keys == s.db.Keys && t.nextId == s.nextId
    && (forall p | p in s.ds :: FileEased(s.ds[p], t.ds[p], sid))
    && (forall q | q in s.db && q != sid :: t.db[q] == s.db[q])
    && (sid in s.db ==> SessionEased(s.db[sid], t.db[sid]))
  }

  lemma SelfEased(s: State, sid: int)
    ensures Eased(s, s, sid)
  {
  }

  lemma EasedTrans(s: State, t: State, u: State, sid: int)
    requires Eased(s, t, sid) && Eased(t, u, sid)
    ensures Eased(s, u, sid)
  {
    forall p | p in s.ds
      ensures FileEased(s.ds[p], u.ds[p], sid)
    {
      assert FileEased(s.ds[p], t.ds[p], sid) && FileEased(t.ds[p], u.ds[p], sid);
    }
  }

  /** Taking a name off a listing changes nothing but the parent's content. */
  lemma UnlistFrame(ds: map<string, File>, key: string, p: string)
    requires Parent(key) in ds && p in ds
    ensures var g := Unlist(ds, key).ds[p];
            g == ds[p].(content := g.content) && (p != Parent(key) ==> g == ds[p])
  {
  }

  lemma UnsubscribeEases(ds: map<string, File>, sid: int, key: string, p: string)
    requires key in ds && Parent(key) in ds && p in ds
    ensures var g := Unsubscribe(ds, sid, key).ds[p];
            FileEased(ds[p], g, sid) && g.lockOwners == ds[p].lockOwners
  {
    hide Unlist;
    var f := ds[key];
    var f1 := f.(subscribers := f.subscribers - {sid});
    UnlistFrame(ds[key := f1.(fileExists := false)], key, p);
  }

  lemma CloseEases(s: State, sid: int, fh: int)
    requires Wf(s) && HasHandle(s, sid, fh)
    ensures var t := CloseFile(s, sid, fh).st;
            Eased(s, t, sid) && forall p | p in s.ds :: t.ds[p].lockOwners == s.ds[p].lockOwners
  {
    hide Unsubscribe;
    assert WfSession(s.ds, s.db[sid]);
    forall p | p in s.ds
      ensures var t := CloseFile(s, sid, fh).st;
              FileEased(s.ds[p], t.ds[p], sid) && t.ds[p].lockOwners == s.ds[p].lockOwners
    {
      UnsubscribeEases(s.ds, sid, s.db[sid].paths[fh], p);
    }
  }

  lemma ReleaseEases(s: State, sid: int, fh: int)
    requires Wf(s) && (sid in s.db ==> HasHandle(s, sid, fh))
    ensures Eased(s, ReleaseLock(s, sid, fh).st, sid)
  {
    if sid in s.db {
      assert WfSession(s.ds, s.db[sid]);
    }
  }

  lemma EndOneEases(done: Ended, sid: int, fh: nat)
    requires Wf(done.st) && sid in done.st.db && fh < |done.st.db[sid].paths|
    ensures Eased(done.st, EndOne(done, sid, fh).st, sid)
  {
    hide CloseFile, ReleaseLock, FileEased, SessionEased;
    var t := CloseFile(done.st, sid, fh).st;
    CloseEases(done.st, sid, fh);
    ReleaseEases(t, sid, fh);
    EasedTrans(done.st, t, ReleaseLock(t, sid, fh).st, sid);
  }

  lemma {:induction false} EndEases(s: State, sid: int, n: nat)
    requires Wf(s) && sid in s.db && n <= |s.db[sid].paths|
    ensures Eased(s, EndUpTo(s, sid, n).st, sid)
  {
    hide EndOne, FileEased;
    if n == 0 {
      SelfEased(s, sid);
    } else {
      EndEases(s, sid, n - 1);
      EndOneEases(EndUpTo(s, sid, n - 1), sid, n - 1);
      EasedTrans(s, EndUpTo(s, sid, n - 1).st, EndUpTo(s, sid, n).st, sid);
    }
  }

  /** Close and Rel only ease the store; EndSession does too, and drops one session. */
  lemma StepEases(s: State, a: Action, t: State)
    requires Step(s, a, t) && (a.Close? || a.Rel? || a.EndSession?)
    ensures !a.EndSession? ==> Eased(s, t, a.sid)
    ensures a.EndSession? ==>
              && t.ds.Keys == s.ds.Keys && t.nextId == s.nextId && t.db == s.db - {a.sid}
              && forall p | p in s.ds :: FileEased(s.ds[p], t.ds[p], a.sid)
  {
    hide CloseFile, ReleaseLock, EndUpTo, FileEased;
    match a
    case Close(sid, fh) =>
      if sid in s.db {
        var t1 := CloseFile(s, sid, fh).st;
        CloseEases(s, sid, fh);
        ReleaseEases(t1, sid, fh);
        EasedTrans(s, t1, t, sid);
      } else {
        SelfEased(s, sid);
      }
    case Rel(sid, fh) =>
      ReleaseEases(s, sid, fh);
    case EndSession(sid) =>
      SelfEased(s, sid);
      if sid in s.db {
        EndEases(s, sid, |s.db[sid].paths|);
        DropSession(s, EndUpTo(s, sid, |s.db[sid].paths|).st, sid);
      } else {
        DropSession(s, s, sid);
        assert s.db - {sid} == s.db;
      }
  }

  lemma DropSession(s: State, t: State, sid: int)
    requires Eased(s, t, sid)
    ensures t.db - {sid} == s.db - {sid}
  {
    hide FileEased, SessionEased;
    assert (t.db - {sid}).Keys == (s.db - {sid}).Keys;
    forall q | q in (t.db - {sid})
      ensures (t.db - {sid})[q] == (s.db - {sid})[q]
    {
      assert q in s.db && q != sid;
    }
  }
}
