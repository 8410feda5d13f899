/**
 What a lock, its sequencer and a file's kind are at any moment of a run, told from the log
 entries before it.
 */
module Histories {
  import opened Paths
  import opened Store
  import opened Easing
  import opened Handles
  import opened LeftBehind
  import Locks
  import Owners
  import Subscriptions

  // ----- owners -----

  /** The step takes the session's lock on p away. */
  predicate Drops(s: State, a: Action, p: string, sid: int)
    requires Wf(s)
  {
    match a
    case Delete(_, _) => Deletes(s, a, p)
    case Rel(q, fh) => q == sid && HasHandle(s, q, fh) && PathOf(s, q, fh) == p && Subscriptions.Exists(s, p)
    case Close(q, fh) =>
      && q == sid && HasHandle(s, q, fh) && PathOf(s, q, fh) == p && Subscriptions.Exists(s, p)
      && !Owners.VanishesWith(s, q, fh)
    case EndSession(q) =>
      && q == sid && HasOn(s, p, q) && Subscriptions.Exists(s, p)
      && forall i | 0 <= i < |s.db[q].paths| && IsFirst(s, p, q, i) :: !Owners.VanishesWith(s, q, i)
    case _ => false
  }

  predicate Takes(s: State, a: Action, p: string, sid: int)
    requires Wf(s)
  {
    AsksFor(s, a, p, sid) && p in s.ds && Locks.MayAcquire(s.ds[p], a.ex)
  }

  lemma AcqOwners(s: State, a: Action, t: State, p: string, sid: int)
    requires Wf(s) && Step(s, a, t) && a.Acq?
    ensures Owns(t, p, sid) <==> Takes(s, a, p, sid) || Owns(s, p, sid)
  {
    if a.sid in s.db { Locks.AcqGrantedIff(s, a); }
    assert a.sid !in s.db ==> t == s;
  }

  lemma RelOwners(s: State, a: Action, t: State, p: string, sid: int)
    requires Wf(s) && Step(s, a, t) && a.Rel?
    ensures Owns(t, p, sid) <==> Owns(s, p, sid) && !Drops(s, a, p, sid)
  {
    if a.sid in s.db && p in s.ds { Owners.ReleaseDrops(s, a.sid, a.fh, p); }
    assert a.sid !in s.db ==> t == s;
  }

  lemma CloseOwners(s: State, a: Action, t: State, p: string, sid: int)
    requires Wf(s) && Step(s, a, t) && a.Close?
    ensures Owns(t, p, sid) <==> Owns(s, p, sid) && !Drops(s, a, p, sid)
  {
    hide CloseFile, ReleaseLock, Owners.VanishesWith;
    if a.sid in s.db && p in s.ds {
      var c := CloseFile(s, a.sid, a.fh).st;
      Owners.CloseExists(s, a.sid, a.fh, p);
      Owners.ReleaseDrops(c, a.sid, a.fh, p);
    }
  }

  lemma EndOwners(s: State, a: Action, t: State, p: string, sid: int)
    requires Wf(s) && Step(s, a, t) && a.EndSession? && (Owns(s, p, sid) && sid in s.db ==> HasOn(s, p, sid))
    ensures Owns(t, p, sid) <==> Owns(s, p, sid) && !Drops(s, a, p, sid)
  {
    EasedOwners(s, a, t, p, sid);
    if Owns(s, p, sid) && a.sid == sid {
      if sid in s.db {
        var i := FirstHandle(s.db[sid].paths, p);
        Owners.OwnerOutlivesSessionIff(s, sid, i, p);
        hide Apply, Owners.VanishesWith;
        assert IsFirst(s, p, sid, i);
        OnlyFirst(s, p, sid, i);
      } else {
        assert t == s;
      }
    }
  }

  lemma OnlyFirst(s: State, p: string, sid: int, i: nat)
    requires IsFirst(s, p, sid, i)
    ensures forall k: nat | IsFirst(s, p, sid, k) :: k == i
  {
  }

  lemma OtherOwners(s: State, a: Action, t: State, p: string, sid: int)
    requires Wf(s) && Step(s, a, t) && (a.Open? || a.SetContent? || a.StartSession?)
    ensures Owns(t, p, sid) <==> Owns(s, p, sid)
  {
    hide OpenFile;
    if a.Open? {
      OpenKeepsOwners(s, a, t, p, sid);
    } else {
      AcqAddsOwner(s, a, t, p, sid);
    }
  }

  /** A session owns p after a step exactly if the step grants it, or it did before and the step does not drop it. */
  lemma OwnersExactly(s: State, a: Action, t: State, p: string, sid: int)
    requires Wf(s) && Step(s, a, t) && (Owns(s, p, sid) && sid in s.db ==> HasOn(s, p, sid))
    ensures Owns(t, p, sid) <==> Takes(s, a, p, sid) || (Owns(s, p, sid) && !Drops(s, a, p, sid))
  {
    NoTake(s, a, p, sid);
    hide Step, Owns, Drops, Takes, HasOn;
    match a
    case Acq(_, _, _) => AcqOwners(s, a, t, p, sid);
    case Rel(_, _) => RelOwners(s, a, t, p, sid);
    case Close(_, _) => CloseOwners(s, a, t, p, sid);
    case EndSession(_) => EndOwners(s, a, t, p, sid);
    case Delete(_, _) => DeleteOwnersExactly(s, a, t, p, sid);
    case _ => OtherOwners(s, a, t, p, sid);
  }

  lemma DeleteOwnersExactly(s: State, a: Action, t: State, p: string, sid: int)
    requires Wf(s) && Step(s, a, t) && a.Delete?
    ensures Owns(t, p, sid) <==> Owns(s, p, sid) && !Drops(s, a, p, sid)
  {
    DeleteClearsOwners(s, a, t, p, sid);
  }

  lemma NoTake(s: State, a: Action, p: string, sid: int)
    requires Wf(s)
    ensures !a.Acq? ==> !Takes(s, a, p, sid)
    ensures a.Acq? || a.Open? || a.SetContent? || a.StartSession? ==> !Drops(s, a, p, sid)
  {
  }

  /** Entry i gave the session the lock and no entry from then to n dropped it. */
  predicate TookAt(states: seq<State>, log: seq<Action>, i: nat, n: nat, p: string, sid: int)
    requires Run(states, log)
  {
    && i < n <= |log| && Takes(states[i], log[i], p, sid)
    && forall j | i < j < n :: !Drops(states[j], log[j], p, sid)
  }

  /** Along a run a session owns p exactly if it was granted the lock and nothing has dropped it since. */
  lemma {:induction false} OwnsIff(states: seq<State>, log: seq<Action>, n: nat, p: string, sid: int)
    requires InitRun(states, log) && n <= |log|
    ensures Owns(states[n], p, sid) <==> exists i: nat :: TookAt(states, log, i, n, p, sid)
  {
    hide Apply, Drops, Takes, Owns;
    if n == 0 {
      NobodyOwns(p, sid);
    } else {
      var s, a, t := states[n - 1], log[n - 1], states[n];
      assert Step(s, a, t);
      OwnsIff(states, log, n - 1, p, sid);
      if Owns(s, p, sid) && sid in s.db { LiveOwner(states, log, n - 1, p, sid); }
      OwnersExactly(s, a, t, p, sid);
      TookNext(states, log, n - 1, n, p, sid);
    }
  }

  lemma NobodyOwns(p: string, sid: int)
    ensures !Owns(INIT, p, sid)
  {
  }

  lemma LiveOwner(states: seq<State>, log: seq<Action>, n: nat, p: string, sid: int)
    requires InitRun(states, log) && n <= |log| && Owns(states[n], p, sid) && sid in states[n].db
    ensures HasOn(states[n], p, sid)
  {
    OwnerLiveOrLeft(states, log, n, p, sid);
  }

  lemma TookNext(states: seq<State>, log: seq<Action>, m: nat, n: nat, p: string, sid: int)
    requires Run(states, log) && n == m + 1 <= |log|
    ensures (exists i: nat :: TookAt(states, log, i, n, p, sid)) <==>
              Takes(states[m], log[m], p, sid)
              || ((exists i: nat :: TookAt(states, log, i, m, p, sid)) && !Drops(states[m], log[m], p, sid))
  {
    hide Takes, Drops, Step;
    if i: nat :| TookAt(states, log, i, n, p, sid) {
      if i < m { assert TookAt(states, log, i, m, p, sid); }
    }
    if Takes(states[m], log[m], p, sid) {
      assert TookAt(states, log, m, n, p, sid);
    }
    if !Drops(states[m], log[m], p, sid) {
      if i: nat :| TookAt(states, log, i, m, p, sid) { assert TookAt(states, log, i, n, p, sid); }
    }
  }

  // ----- sequencers -----

  /** The step takes p's lock from free to held. */
  predicate Starts(s: State, t: State, p: string) {
    p in s.ds && p in t.ds && s.ds[p].lockOwners == {} && t.ds[p].lockOwners != {}
  }

  function GenerationAt(st: State, p: string): int {
    FileAt(st.ds, p).lockGenNum
  }

  lemma StepGeneration(s: State, a: Action, t: State, p: string)
    requires Wf(s) && Step(s, a, t)
    ensures GenerationAt(t, p) ==
              if Deletes(s, a, p) then 0 else GenerationAt(s, p) + if Starts(s, t, p) then 1 else 0
  {
    hide CloseFile, ReleaseLock, EndUpTo, OpenFile, DeleteFile;
    match a
    case Open(_, _, _, _) => if a.sid in s.db { Locks.OpenKeepsLocks(s.ds, a, |s.db[a.sid].paths|); }
    case Close(_, _) => EasedGeneration(s, a, t, p);
    case Rel(_, _) => EasedGeneration(s, a, t, p);
    case EndSession(_) => EasedGeneration(s, a, t, p);
    case StartSession =>
    case SetContent(_, _, _) =>
    case Acq(_, _, _) => if a.sid in s.db { assert WfSession(s.ds, s.db[a.sid]); }
    case Delete(sid, fh) =>
      if sid in s.db {
        assert WfSession(s.ds, s.db[sid]);
        if p in s.ds { Locks.DeleteLock(s.ds, PathOf(s, sid, fh), p); }
      }
  }

  lemma EasedGeneration(s: State, a: Action, t: State, p: string)
    requires Step(s, a, t) && (a.Close? || a.Rel? || a.EndSession?)
    ensures t.ds.Keys == s.ds.Keys && GenerationAt(t, p) == GenerationAt(s, p) && !Starts(s, t, p)
  {
    hide Apply;
    StepEases(s, a, t);
    if p in s.ds { assert FileEased(s.ds[p], t.ds[p], a.sid); }
  }

  /** The tenures of p's lock that started since its last Delete, after n entries. */
  function Tenures(states: seq<State>, log: seq<Action>, p: string, n: nat): nat
    requires Run(states, log) && n <= |log|
  {
    if n == 0 || Deletes(states[n - 1], log[n - 1], p) then 0
    else Tenures(states, log, p, n - 1) + if Starts(states[n - 1], states[n], p) then 1 else 0
  }

  /** The Deletes that reached p, after n entries. */
  function DeletesOf(states: seq<State>, log: seq<Action>, p: string, n: nat): nat
    requires Run(states, log) && n <= |log|
  {
    if n == 0 then 0
    else DeletesOf(states, log, p, n - 1) + if Deletes(states[n - 1], log[n - 1], p) then 1 else 0
  }

  /** A lock's sequencer counts the Deletes of its file, and the tenures since the last one. */
  lemma {:induction false} SequencerCounts(states: seq<State>, log: seq<Action>, n: nat, p: string)
    requires InitRun(states, log) && n <= |log|
    ensures FileAt(states[n].ds, p).instanceNum == DeletesOf(states, log, p, n)
    ensures FileAt(states[n].ds, p).lockGenNum == Tenures(states, log, p, n)
  {
    hide Apply, Deletes, Starts;
    if n > 0 {
      SequencerCounts(states, log, n - 1, p);
      assert Step(states[n - 1], log[n - 1], states[n]);
      StepInstance(states[n - 1], log[n - 1], states[n], p);
      StepGeneration(states[n - 1], log[n - 1], states[n], p);
    }
  }

  // ----- kinds of files -----

  /** The step creates p, anew or for the first time. */
  predicate Creates(s: State, a: Action, p: string) {
    Subscriptions.OpensPath(s, a, p) && !Subscriptions.Exists(s, p)
  }

  lemma StepKind(s: State, a: Action, t: State, p: string)
    requires Wf(s) && Step(s, a, t)
    ensures FileAt(t.ds, p).isDirectory == if Creates(s, a, p) then a.isDirectory else FileAt(s.ds, p).isDirectory
    ensures FileAt(t.ds, p).isEphemeral ==
              if Subscriptions.OpensPath(s, a, p) then a.isEphemeral else FileAt(s.ds, p).isEphemeral
  {
    hide CloseFile, ReleaseLock, EndUpTo, OpenFile, DeleteFile;
    match a
    case Open(_, _, _, _) => if a.sid in s.db { OpenedKind(s.ds, a, |s.db[a.sid].paths|, p); }
    case Close(_, _) => EasedKind(s, a, t, p);
    case Rel(_, _) => EasedKind(s, a, t, p);
    case EndSession(_) => EasedKind(s, a, t, p);
    case StartSession =>
    case SetContent(_, _, _) =>
    case Acq(_, _, _) =>
    case Delete(sid, fh) =>
      if sid in s.db {
        assert WfSession(s.ds, s.db[sid]);
        if p in s.ds { DeletedKind(s.ds, PathOf(s, sid, fh), p); }
      }
  }

  lemma OpenedKind(ds: map<string, File>, a: Action, fh: int, p: string)
    requires a.Open? && OpenFile(ds, a, fh).Some?
    ensures var f, g := FileAt(ds, p), FileAt(OpenFile(ds, a, fh).value, p);
            && g.isDirectory == (if p == a.path && !f.fileExists then a.isDirectory else f.isDirectory)
            && g.isEphemeral == (if p == a.path then a.isEphemeral else f.isEphemeral)
  {
    hide Parent, Filename;
  }

  lemma EasedKind(s: State, a: Action, t: State, p: string)
    requires Step(s, a, t) && (a.Close? || a.Rel? || a.EndSession?)
    ensures FileAt(t.ds, p).isDirectory == FileAt(s.ds, p).isDirectory
    ensures FileAt(t.ds, p).isEphemeral == FileAt(s.ds, p).isEphemeral
  {
    hide Apply;
    StepEases(s, a, t);
    if p in s.ds { assert FileEased(s.ds[p], t.ds[p], a.sid); }
  }

  lemma DeletedKind(ds: map<string, File>, key: string, p: string)
    requires key in ds && Parent(key) in ds && p in ds
    ensures DeleteFile(ds, key)[p].isDirectory == ds[p].isDirectory
    ensures DeleteFile(ds, key)[p].isEphemeral == ds[p].isEphemeral
  {
    hide Unlist;
    UnlistFrame(ds[key := Deleted(ds[key])], key, p);
  }

  /** The last entry before n that created p. */
  predicate CreatedAt(states: seq<State>, log: seq<Action>, i: nat, n: nat, p: string)
    requires Run(states, log)
  {
    i < n <= |log| && Creates(states[i], log[i], p) && forall j | i < j < n :: !Creates(states[j], log[j], p)
  }

  /** Whether a file is a directory was settled by the Open that last created it. */
  lemma {:induction false} KindAsCreated(states: seq<State>, log: seq<Action>, i: nat, n: nat, p: string)
    requires InitRun(states, log) && CreatedAt(states, log, i, n, p)
    ensures log[i].Open? && FileAt(states[n].ds, p).isDirectory == log[i].isDirectory
  {
    hide Apply;
    assert Step(states[n - 1], log[n - 1], states[n]);
    StepKind(states[n - 1], log[n - 1], states[n], p);
    if i < n - 1 {
      assert CreatedAt(states, log, i, n - 1, p);
      KindAsCreated(states, log, i, n - 1, p);
    }
  }

  /** The last entry before n that opened p. */
  predicate LastOpenedAt(states: seq<State>, log: seq<Action>, i: nat, n: nat, p: string)
    requires Run(states, log)
  {
    && i < n <= |log| && Subscriptions.OpensPath(states[i], log[i], p)
    && forall j | i < j < n :: !Subscriptions.OpensPath(states[j], log[j], p)
  }

  /** Whether a file is ephemeral is settled anew by every Open of it. */
  lemma {:induction false} EphemeralAsOpened(states: seq<State>, log: seq<Action>, i: nat, n: nat, p: string)
    requires InitRun(states, log) && LastOpenedAt(states, log, i, n, p)
    ensures log[i].Open? && FileAt(states[n].ds, p).isEphemeral == log[i].isEphemeral
  {
    hide Apply;
    assert Step(states[n - 1], log[n - 1], states[n]);
    StepKind(states[n - 1], log[n - 1], states[n], p);
    if i < n - 1 {
      assert LastOpenedAt(states, log, i, n - 1, p);
      EphemeralAsOpened(states, log, i, n - 1, p);
    }
  }
}
