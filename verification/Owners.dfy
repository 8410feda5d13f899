/**
 Who may own a lock.  A file that is never opened ephemeral is only ever owned by live
 sessions that have a handle on it.  An ephemeral file can vanish inside the very Close
 that should free its lock; what happens then is stated exactly.
 */
module Owners {
  import opened Paths
  import opened Store
  import opened Easing
  import Handles
  import Locks

  /** Every owner of p is a live session with a handle on p, open or closed, and p exists. */
  predicate Tracked(st: State, p: string)
    requires p in st.ds
  {
    var f := st.ds[p];
    !f.isEphemeral &&
    forall sid | sid in f.lockOwners :: f.fileExists && sid in st.db && p in st.db[sid].paths
  }

  predicate OwnersTracked(st: State, eph: set<string>) {
    forall p | p in st.ds && p !in eph :: Tracked(st, p)
  }

  /** Ephemeral opens stay inside eph, and locks are asked for on existing files. */
  predicate LockGuard(st: State, a: Action, eph: set<string>)
    requires Wf(st)
  {
    && (a.Open? && a.isEphemeral ==> a.path in eph)
    && (a.Acq? && HasHandle(st, a.sid, a.fh) ==>
          PathOf(st, a.sid, a.fh) !in eph ==>
            (assert WfSession(st.ds, st.db[a.sid]); st.ds[PathOf(st, a.sid, a.fh)].fileExists))
  }

  lemma OpenTracks(s: State, a: Action, t: State, eph: set<string>)
    requires Step(s, a, t) && a.Open? && OwnersTracked(s, eph) && LockGuard(s, a, eph)
    ensures OwnersTracked(t, eph)
  {
    if a.sid in s.db {
      forall p | p in t.ds && p !in eph
        ensures Tracked(t, p)
      {
        OpenOwners(s.ds, a, |s.db[a.sid].paths|, p);
        if p in s.ds { assert Tracked(s, p); }
      }
    }
  }

  lemma OpenOwners(ds: map<string, File>, a: Action, fh: int, p: string)
    requires a.Open? && OpenFile(ds, a, fh).Some? && p in OpenFile(ds, a, fh).value
    ensures var f, g := FileAt(ds, p), OpenFile(ds, a, fh).value[p];
            && g.lockOwners == f.lockOwners && (f.fileExists ==> g.fileExists)
            && g.isEphemeral == if p == a.path then a.isEphemeral else f.isEphemeral
  {
    hide Parent, Filename;
  }

  lemma EasedTracks(s: State, t: State, sid: int, eph: set<string>)
    requires Eased(s, t, sid) && OwnersTracked(s, eph)
    ensures OwnersTracked(t, eph)
  {
    forall p | p in t.ds && p !in eph
      ensures Tracked(t, p)
    {
      assert Tracked(s, p) && FileEased(s.ds[p], t.ds[p], sid);
      forall q | q in t.ds[p].lockOwners
        ensures t.ds[p].fileExists && q in t.db && p in t.db[q].paths
      {
        assert q in s.ds[p].lockOwners;
      }
    }
  }

  /** Releasing an existing file's lock drops the session from its owners. */
  lemma ReleaseDrops(s: State, sid: int, fh: int, p: string)
    requires Wf(s) && HasHandle(s, sid, fh) && p in s.ds
    ensures ReleaseLock(s, sid, fh).st.ds[p].lockOwners ==
              if p == PathOf(s, sid, fh) && s.ds[p].fileExists then s.ds[p].lockOwners - {sid}
              else s.ds[p].lockOwners
  {
    assert WfSession(s.ds, s.db[sid]);
  }

  lemma EndOneFrees(done: Ended, sid: int, fh: nat)
    requires Wf(done.st) && sid in done.st.db && fh < |done.st.db[sid].paths|
    requires var p := done.st.db[sid].paths[fh]; p in done.st.ds && Tracked(done.st, p)
    ensures var p := done.st.db[sid].paths[fh];
            sid !in EndOne(done, sid, fh).st.ds[p].lockOwners
  {
    hide CloseFile, ReleaseLock;
    var p := done.st.db[sid].paths[fh];
    var t := CloseFile(done.st, sid, fh).st;
    CloseEases(done.st, sid, fh);
    assert FileEased(done.st.ds[p], t.ds[p], sid);
    ReleaseDrops(t, sid, fh, p);
  }

  lemma {:induction false} EndFrees(s: State, sid: int, n: nat, eph: set<string>)
    requires Wf(s) && sid in s.db && n <= |s.db[sid].paths| && OwnersTracked(s, eph)
    ensures var t := EndUpTo(s, sid, n).st;
            OwnersTracked(t, eph) &&
            forall i | 0 <= i < n :: s.db[sid].paths[i] in t.ds && (s.db[sid].paths[i] !in eph ==>
              sid !in t.ds[s.db[sid].paths[i]].lockOwners)
  {
    hide EndOne, FileEased;
    assert WfSession(s.ds, s.db[sid]);
    if n > 0 {
      EndFrees(s, sid, n - 1, eph);
      var r := EndUpTo(s, sid, n - 1);
      var t := EndUpTo(s, sid, n).st;
      EndOneEases(r, sid, n - 1);
      EasedTracks(r.st, t, sid, eph);
      var key := s.db[sid].paths[n - 1];
      if key !in eph {
        assert Tracked(r.st, key);
        EndOneFrees(r, sid, n - 1);
      }
      forall i | 0 <= i < n && s.db[sid].paths[i] !in eph
        ensures sid !in t.ds[s.db[sid].paths[i]].lockOwners
      {
        OwnersShrink(r.st, t, sid, s.db[sid].paths[i]);
      }
    }
  }

  lemma OwnersShrink(s: State, t: State, sid: int, p: string)
    requires Eased(s, t, sid) && p in s.ds
    ensures t.ds[p].lockOwners <= s.ds[p].lockOwners
  {
    assert FileEased(s.ds[p], t.ds[p], sid);
  }

  /** EndSession's loop leaves the session out of every owner set, ephemeral files apart. */
  lemma EndSessionFrees(s: State, a: Action, t: State, eph: set<string>)
    requires Step(s, a, t) && a.EndSession? && OwnersTracked(s, eph)
    ensures OwnersTracked(t, eph)
    ensures forall p | p in t.ds && p !in eph :: a.sid !in t.ds[p].lockOwners
  {
    hide EndUpTo;
    if a.sid in s.db {
      var n := |s.db[a.sid].paths|;
      EndFrees(s, a.sid, n, eph);
      var u := EndUpTo(s, a.sid, n).st;
      forall p | p in t.ds && p !in eph
        ensures a.sid !in t.ds[p].lockOwners && Tracked(t, p)
      {
        assert Tracked(u, p) && u.db[a.sid].paths == s.db[a.sid].paths;
        assert p in s.db[a.sid].paths ==> a.sid !in u.ds[p].lockOwners;
      }
    } else {
      forall p | p in t.ds && p !in eph
        ensures a.sid !in t.ds[p].lockOwners
      {
        assert Tracked(s, p);
      }
    }
  }

  lemma DeleteTracks(s: State, a: Action, t: State, eph: set<string>)
    requires Step(s, a, t) && a.Delete? && OwnersTracked(s, eph)
    ensures OwnersTracked(t, eph)
  {
    hide DeleteFile;
    if a.sid in s.db {
      assert WfSession(s.ds, s.db[a.sid]);
      forall p | p in t.ds && p !in eph
        ensures Tracked(t, p)
      {
        assert Tracked(s, p);
        DeleteOwners(s.ds, PathOf(s, a.sid, a.fh), p);
      }
    }
  }

  lemma DeleteOwners(ds: map<string, File>, key: string, p: string)
    requires key in ds && Parent(key) in ds && p in ds
    ensures var f, g := ds[p], DeleteFile(ds, key)[p];
            && g.isEphemeral == f.isEphemeral
            && (if p == key then g.lockOwners == {} && !g.fileExists
                else g.lockOwners == f.lockOwners && g.fileExists == f.fileExists)
  {
    hide Unlist;
    UnlistFrame(ds[key := Deleted(ds[key])], key, p);
  }

  lemma OtherTracks(s: State, a: Action, t: State, eph: set<string>)
    requires Step(s, a, t) && (a.StartSession? || a.SetContent? || a.Acq?)
    requires OwnersTracked(s, eph) && LockGuard(s, a, eph)
    ensures OwnersTracked(t, eph)
  {
    forall p | p in t.ds && p !in eph
      ensures Tracked(t, p)
    {
      assert Tracked(s, p);
    }
  }

  lemma CloseTracks(s: State, a: Action, t: State, eph: set<string>)
    requires Step(s, a, t) && (a.Close? || a.Rel?) && OwnersTracked(s, eph)
    ensures OwnersTracked(t, eph)
  {
    hide Apply;
    StepEases(s, a, t);
    EasedTracks(s, t, a.sid, eph);
  }

  lemma StepTracks(s: State, a: Action, t: State, eph: set<string>)
    requires Step(s, a, t) && OwnersTracked(s, eph) && LockGuard(s, a, eph)
    ensures OwnersTracked(t, eph)
  {
    hide Step, OwnersTracked, LockGuard;
    match a
    case Open(_, _, _, _) => OpenTracks(s, a, t, eph);
    case Close(_, _) => CloseTracks(s, a, t, eph);
    case Rel(_, _) => CloseTracks(s, a, t, eph);
    case EndSession(_) => EndSessionFrees(s, a, t, eph);
    case Delete(_, _) => DeleteTracks(s, a, t, eph);
    case _ => OtherTracks(s, a, t, eph);
  }

  // ----- ephemeral files -----

  /** The last subscription goes with this handle, and the file with it. */
  predicate VanishesWith(st: State, sid: int, fh: int)
    requires Wf(st) && HasHandle(st, sid, fh)
  {
    assert WfSession(st.ds, st.db[sid]);
    var f := st.ds[PathOf(st, sid, fh)];
    f.isEphemeral && InumOf(st, sid, fh) != -1 && f.subscribers.Keys == {sid}
  }

  lemma OnlySubscriber(f: File, sid: int)
    ensures sid in f.subscribers && f.subscribers - {sid} == map[] <==> f.subscribers.Keys == {sid}
  {
    assert (f.subscribers - {sid}).Keys == f.subscribers.Keys - {sid};
    assert f.subscribers - {sid} == map[] <==> f.subscribers.Keys - {sid} == {};
    assert sid in f.subscribers ==> (f.subscribers.Keys - {sid} == {} <==> f.subscribers.Keys == {sid});
  }

  lemma UnsubscribeExists(ds: map<string, File>, sid: int, key: string, p: string)
    requires key in ds && Parent(key) in ds && p in ds
    ensures var f, g := ds[p], Unsubscribe(ds, sid, key).ds[p];
            && g.lockOwners == f.lockOwners
            && (g.fileExists <==> f.fileExists && !(p == key && f.isEphemeral && f.subscribers.Keys == {sid}))
            && (p != key ==> g == f.(content := g.content))
  {
    hide Unlist;
    var f := ds[key];
    OnlySubscriber(f, sid);
    UnlistFrame(ds[key := f.(subscribers := f.subscribers - {sid}, fileExists := false)], key, p);
  }

  lemma CloseExists(s: State, sid: int, fh: int, p: string)
    requires Wf(s) && HasHandle(s, sid, fh) && p in s.ds
    ensures var g := CloseFile(s, sid, fh).st.ds[p];
            && g.lockOwners == s.ds[p].lockOwners
            && (g.fileExists <==> s.ds[p].fileExists && !(p == PathOf(s, sid, fh) && VanishesWith(s, sid, fh)))
            && (p != PathOf(s, sid, fh) ==> g == s.ds[p].(content := g.content))
  {
    hide Unsubscribe;
    assert WfSession(s.ds, s.db[sid]);
    UnsubscribeExists(s.ds, sid, PathOf(s, sid, fh), p);
  }

  /** Closing a handle frees the session's lock unless the file is gone, or goes with this handle. */
  lemma CloseKeepsLockIff(done: Ended, sid: int, fh: nat)
    requires Wf(done.st) && HasHandle(done.st, sid, fh) && PathOf(done.st, sid, fh) in done.st.ds
    ensures var p := PathOf(done.st, sid, fh);
            var f := done.st.ds[p];
            sid in EndOne(done, sid, fh).st.ds[p].lockOwners
            <==> sid in f.lockOwners && (!f.fileExists || VanishesWith(done.st, sid, fh))
  {
    hide CloseFile, ReleaseLock;
    var p := PathOf(done.st, sid, fh);
    CloseExists(done.st, sid, fh, p);
    ReleaseDrops(CloseFile(done.st, sid, fh).st, sid, fh, p);
  }

  lemma ReleaseLeaves(s: State, sid: int, fh: int, p: string)
    requires Wf(s) && HasHandle(s, sid, fh) && p in s.ds
    ensures var g := ReleaseLock(s, sid, fh).st.ds[p];
            && g.fileExists == s.ds[p].fileExists
            && (p != PathOf(s, sid, fh) ==> g == s.ds[p])
  {
    assert WfSession(s.ds, s.db[sid]);
  }

  /** Turns for handles on other paths leave p alone, its content apart. */
  lemma {:induction false} ElsewhereUntouched(s: State, sid: int, n: nat, p: string)
    requires Wf(s) && sid in s.db && n <= |s.db[sid].paths| && p in s.ds
    requires p !in s.db[sid].paths[..n]
    ensures var t := EndUpTo(s, sid, n).st;
            t.ds[p] == s.ds[p].(content := t.ds[p].content)
    ensures var t := EndUpTo(s, sid, n).st;
            t.db[sid].inums[n..] == s.db[sid].inums[n..] && |t.db[sid].inums| == |s.db[sid].inums|
  {
    hide CloseFile, ReleaseLock;
    assert WfSession(s.ds, s.db[sid]);
    if n > 0 {
      assert p !in s.db[sid].paths[..n - 1] && s.db[sid].paths[n - 1] != p;
      ElsewhereUntouched(s, sid, n - 1, p);
      var r := EndUpTo(s, sid, n - 1).st;
      CloseExists(r, sid, n - 1, p);
      Handles.CloseInums(r, sid, n - 1);
      ReleaseLeaves(CloseFile(r, sid, n - 1).st, sid, n - 1, p);
      var t := EndUpTo(s, sid, n).st;
      assert t.db[sid].inums == r.db[sid].inums[n - 1 := -1];
      assert t.db[sid].inums[n..] == r.db[sid].inums[n - 1..][1..];
      assert s.db[sid].inums[n..] == s.db[sid].inums[n - 1..][1..];
    }
  }

  lemma OneTurnSettles(done: Ended, sid: int, fh: nat, p: string)
    requires Wf(done.st) && HasHandle(done.st, sid, fh) && p in done.st.ds
    requires sid !in done.st.ds[p].lockOwners || !done.st.ds[p].fileExists
    ensures var f, g := done.st.ds[p], EndOne(done, sid, fh).st.ds[p];
            && (sid in g.lockOwners <==> sid in f.lockOwners)
            && (sid !in g.lockOwners || !g.fileExists)
  {
    hide CloseFile, ReleaseLock;
    CloseExists(done.st, sid, fh, p);
    var c := CloseFile(done.st, sid, fh).st;
    ReleaseDrops(c, sid, fh, p);
    ReleaseLeaves(c, sid, fh, p);
  }

  /** Once the file is gone its owners stay, and a session that is no owner does not become one. */
  lemma {:induction false} OwnersSettle(s: State, sid: int, m: nat, n: nat, p: string)
    requires Wf(s) && sid in s.db && m <= n <= |s.db[sid].paths| && p in s.ds
    requires var f := EndUpTo(s, sid, m).st.ds[p]; sid !in f.lockOwners || !f.fileExists
    ensures var f, g := EndUpTo(s, sid, m).st.ds[p], EndUpTo(s, sid, n).st.ds[p];
            && (sid in g.lockOwners <==> sid in f.lockOwners)
            && (sid !in g.lockOwners || !g.fileExists)
  {
    hide EndOne;
    if m < n {
      OwnersSettle(s, sid, m, n - 1, p);
      OneTurnSettles(EndUpTo(s, sid, n - 1), sid, n - 1, p);
    }
  }

  /**
   The session is left behind as an owner of p by its own EndSession exactly when it
   owned p and p was gone already, or p vanishes with the session's first handle on it.
   (LeftBehind.OwnerLiveOrLeft gives such an i for every owner.)
   */
  lemma OwnerOutlivesSessionIff(s: State, sid: int, i: nat, p: string)
    requires Wf(s) && sid in s.db && i < |s.db[sid].paths| && s.db[sid].paths[i] == p
    requires p !in s.db[sid].paths[..i]
    ensures Apply(s, EndSession(sid)).Done? && sid !in Apply(s, EndSession(sid)).st.db
    ensures p in s.ds && p in Apply(s, EndSession(sid)).st.ds
    ensures sid in Apply(s, EndSession(sid)).st.ds[p].lockOwners
       <==> sid in s.ds[p].lockOwners && (!s.ds[p].fileExists || VanishesWith(s, sid, i))
  {
    hide EndUpTo, EndOne;
    assert WfSession(s.ds, s.db[sid]);
    var n := |s.db[sid].paths|;
    ElsewhereUntouched(s, sid, i, p);
    var r := EndUpTo(s, sid, i);
    assert r.st.db[sid].inums[i..][0] == s.db[sid].inums[i..][0];
    FirstTurn(s, sid, i);
    CloseKeepsLockIff(r, sid, i);
    EndOneExists(r, sid, i);
    OwnersSettle(s, sid, i + 1, n, p);
  }

  lemma FirstTurn(s: State, sid: int, i: nat)
    requires Wf(s) && sid in s.db && i < |s.db[sid].paths|
    ensures EndUpTo(s, sid, i + 1) == EndOne(EndUpTo(s, sid, i), sid, i)
  {
  }

  lemma EndOneExists(done: Ended, sid: int, fh: nat)
    requires Wf(done.st) && HasHandle(done.st, sid, fh) && PathOf(done.st, sid, fh) in done.st.ds
    ensures var p := PathOf(done.st, sid, fh);
            EndOne(done, sid, fh).st.ds[p].fileExists
            <==> done.st.ds[p].fileExists && !VanishesWith(done.st, sid, fh)
  {
    hide CloseFile, ReleaseLock;
    var p := PathOf(done.st, sid, fh);
    CloseExists(done.st, sid, fh, p);
    ReleaseLeaves(CloseFile(done.st, sid, fh).st, sid, fh, p);
  }

  // ----- a lock that is left behind -----

  /** One session opens an ephemeral file, locks it, and ends. */
  const LEAK: seq<Action> := [StartSession, Open(0, "/e", false, true), Acq(0, 0, true), EndSession(0)]

  const LOCKED := NEW_FILE.(
    fileExists := true, isEphemeral := true, subscribers := map[0 := 0],
    lockOwners := {0}, isLockedEx := true, lockGenNum := 1)

  lemma LeakOpen(s: State)
    requires s == State(INIT.ds, map[0 := Session([], [])], 1)
    ensures Wf(s)
    ensures var o := Apply(s, LEAK[1]);
            && o.Done? && "/e" in o.st.ds && o.st.db == map[0 := Session(["/e"], [0])]
            && o.st.ds["/e"] == LOCKED.(lockOwners := {}, isLockedEx := false, lockGenNum := 0)
  {
    JoinParts("/", "e");
    assert Join("/", "e") == "/e" && Parent("/") == "/";
    assert [] + ["/e"] == ["/e"] && [] + [0] == [0];
    assert s.db[0 := Session(["/e"], [0])] == map[0 := Session(["/e"], [0])];
  }

  lemma LeakAcq(s: State)
    requires Wf(s) && "/e" in s.ds && s.db == map[0 := Session(["/e"], [0])]
    requires s.ds["/e"] == LOCKED.(lockOwners := {}, isLockedEx := false, lockGenNum := 0)
    ensures var o := Apply(s, LEAK[2]);
            && o.Done? && "/e" in o.st.ds && o.st.db == s.db && o.st.ds["/e"] == LOCKED
  {
  }

  /**
   Ephemeral files are a real exception: after this run the file is gone, its only
   session is gone, and that session still owns its lock, so that no Acquire on a later
   file of that name can proceed until it is deleted.
   */
  lemma EphemeralLockLeaks() returns (states: seq<State>)
    ensures InitRun(states, LEAK)
    ensures var t := states[4];
            && "/e" in t.ds && !t.ds["/e"].fileExists && t.ds["/e"].lockOwners == {0} && 0 !in t.db
            && !Locks.MayAcquire(t.ds["/e"], true) && !Locks.MayAcquire(t.ds["/e"], false)
  {
    hide Apply, EndUpTo;
    LeakStart();
    var s1 := Apply(INIT, LEAK[0]).st;
    LeakOpen(s1);
    var s2 := Apply(s1, LEAK[1]).st;
    LeakAcq(s2);
    var s3 := Apply(s2, LEAK[2]).st;
    LeakEnd(s3);
    var s4 := Apply(s3, LEAK[3]).st;
    states := [INIT, s1, s2, s3, s4];
    assert Step(INIT, LEAK[0], s1) && Step(s1, LEAK[1], s2) && Step(s2, LEAK[2], s3) && Step(s3, LEAK[3], s4);
  }

  lemma LeakStart()
    ensures Wf(INIT) && Apply(INIT, LEAK[0]).Done?
    ensures Apply(INIT, LEAK[0]).st == State(INIT.ds, map[0 := Session([], [])], 1)
  {
    assert Parent("/") == "/";
  }

  lemma LeakEnd(s: State)
    requires Wf(s) && "/e" in s.ds && s.db == map[0 := Session(["/e"], [0])] && s.ds["/e"] == LOCKED
    ensures var o := Apply(s, LEAK[3]);
            && o.Done? && "/e" in o.st.ds && 0 !in o.st.db
            && !o.st.ds["/e"].fileExists && o.st.ds["/e"].lockOwners == {0} && o.st.ds["/e"].isLockedEx
  {
    hide EndOne;
    assert VanishesWith(s, 0, 0);
    EndOneExists(Ended(s, [], {}), 0, 0);
    CloseKeepsLockIff(Ended(s, [], {}), 0, 0);
    EndOneEases(Ended(s, [], {}), 0, 0);
    assert EndUpTo(s, 0, 1) == EndOne(EndUpTo(s, 0, 0), 0, 0);
    assert FileEased(s.ds["/e"], EndUpTo(s, 0, 1).st.ds["/e"], 0);
  }
}
