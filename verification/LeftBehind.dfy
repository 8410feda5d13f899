/**
 Every owner a lock ever has: a live session with a handle on the path, or a session that
 its own EndSession left behind, which then stays until the path is deleted.
 */
module LeftBehind {
  import opened Store
  import opened Easing
  import opened Handles
  import opened Owners
  import Locks

  predicate Owns(st: State, p: string, sid: int) {
    p in st.ds && sid in st.ds[p].lockOwners
  }

  /** a is a lock request of the session on p. */
  predicate AsksFor(s: State, a: Action, p: string, sid: int) {
    a.Acq? && a.sid == sid && HasHandle(s, a.sid, a.fh) && PathOf(s, a.sid, a.fh) == p
  }

  lemma EasedOwners(s: State, a: Action, t: State, p: string, sid: int)
    requires Step(s, a, t) && (a.Close? || a.Rel? || a.EndSession?)
    ensures Owns(t, p, sid) ==> Owns(s, p, sid)
    ensures a.sid != sid && Owns(s, p, sid) ==> Owns(t, p, sid)
  {
    StepEases(s, a, t);
    hide Apply;
    if p in s.ds { assert FileEased(s.ds[p], t.ds[p], a.sid); }
  }

  lemma OpenKeepsOwners(s: State, a: Action, t: State, p: string, sid: int)
    requires Step(s, a, t) && a.Open?
    ensures Owns(t, p, sid) <==> Owns(s, p, sid)
  {
    hide OpenFile;
    if a.sid in s.db {
      Locks.OpenKeepsLocks(s.ds, a, |s.db[a.sid].paths|);
    }
  }

  lemma DeleteClearsOwners(s: State, a: Action, t: State, p: string, sid: int)
    requires Step(s, a, t) && a.Delete?
    ensures Owns(t, p, sid) <==> Owns(s, p, sid) && !Deletes(s, a, p)
  {
    hide DeleteFile;
    if a.sid in s.db {
      assert WfSession(s.ds, s.db[a.sid]);
      if p in s.ds { DeleteOwners(s.ds, PathOf(s, a.sid, a.fh), p); }
    }
  }

  lemma AcqAddsOwner(s: State, a: Action, t: State, p: string, sid: int)
    requires Step(s, a, t) && (a.Acq? || a.SetContent? || a.StartSession?)
    ensures Owns(s, p, sid) ==> Owns(t, p, sid)
    ensures Owns(t, p, sid) ==> Owns(s, p, sid) || AsksFor(s, a, p, sid)
  {
    assert !a.StartSession? && a.sid in s.db ==> WfSession(s.ds, s.db[a.sid]);
  }

  /** Who owns p after a step owned it or asked for it; only its own steps and Deletes take a session away. */
  lemma StepOwners(s: State, a: Action, t: State, p: string, sid: int)
    requires Step(s, a, t)
    ensures Owns(t, p, sid) ==> Owns(s, p, sid) || AsksFor(s, a, p, sid)
    ensures Owns(s, p, sid) && !Owns(t, p, sid) ==>
              Deletes(s, a, p) || ((a.Close? || a.Rel? || a.EndSession?) && a.sid == sid)
    ensures Deletes(s, a, p) ==> !Owns(t, p, sid)
  {
    OnlyDeletes(s, a, p);
    hide Step, Owns, Deletes, AsksFor;
    match a
    case Open(_, _, _, _) => OpenKeepsOwners(s, a, t, p, sid);
    case Delete(_, _) => DeleteClearsOwners(s, a, t, p, sid);
    case Close(_, _) => EasedOwners(s, a, t, p, sid);
    case Rel(_, _) => EasedOwners(s, a, t, p, sid);
    case EndSession(_) => EasedOwners(s, a, t, p, sid);
    case _ => AcqAddsOwner(s, a, t, p, sid);
  }

  lemma OnlyDeletes(s: State, a: Action, p: string)
    ensures Deletes(s, a, p) ==> a.Delete?
  {
  }

  /** The session opened a handle on p. */
  predicate HasOn(st: State, p: string, sid: int) {
    sid in st.db && p in st.db[sid].paths
  }

  lemma StepKeepsHandle(s: State, a: Action, t: State, p: string, sid: int)
    requires Step(s, a, t) && HasOn(s, p, sid) && sid in t.db
    ensures HasOn(t, p, sid)
  {
    hide Apply;
    StepSessions(s, a, t);
    assert SessionStep(s, a, sid, s.db[sid], t.db[sid]);
    if a.Open? {
      var i :| 0 <= i < |s.db[sid].paths| && s.db[sid].paths[i] == p;
      assert t.db[sid].paths[i] == p;
    }
  }

  /**
   Entry j is the session's EndSession and leaves it behind as an owner of p: p is gone, or
   goes with the session's first handle on it.
   */
  predicate LeftAt(states: seq<State>, log: seq<Action>, j: nat, p: string, sid: int) {
    && j < |log| && j < |states| && log[j] == EndSession(sid) && Wf(states[j])
    && Owns(states[j], p, sid) && sid in states[j].db
    && exists i | 0 <= i < |states[j].db[sid].paths| ::
         IsFirst(states[j], p, sid, i) && (!states[j].ds[p].fileExists || VanishesWith(states[j], sid, i))
  }

  predicate IsFirst(st: State, p: string, sid: int, i: nat) {
    sid in st.db && i < |st.db[sid].paths| && st.db[sid].paths[i] == p && p !in st.db[sid].paths[..i]
  }

  lemma {:induction false} FirstHandle(paths: seq<string>, p: string) returns (i: nat)
    requires p in paths
    ensures i < |paths| && paths[i] == p && p !in paths[..i]
  {
    if p in paths[..|paths| - 1] {
      i := FirstHandle(paths[..|paths| - 1], p);
      assert paths[..|paths| - 1][..i] == paths[..i];
    } else {
      i := |paths| - 1;
    }
  }

  lemma EndLeaves(s: State, t: State, p: string, sid: int)
    requires Step(s, EndSession(sid), t) && HasOn(s, p, sid) && Owns(s, p, sid) && Owns(t, p, sid)
    ensures LeftAt([s, t], [EndSession(sid)], 0, p, sid)
  {
    var i := FirstHandle(s.db[sid].paths, p);
    OwnerOutlivesSessionIff(s, sid, i, p);
    hide Apply;
    assert IsFirst(s, p, sid, i);
  }

  /** In every reachable state every owner of every path is live and has a handle on it, or was left behind. */
  lemma {:induction false} OwnerLiveOrLeft(states: seq<State>, log: seq<Action>, n: nat, p: string, sid: int)
    requires InitRun(states, log) && n <= |log| && Owns(states[n], p, sid)
    ensures sid < states[n].nextId
    ensures HasOn(states[n], p, sid)
            || (sid !in states[n].db && exists j | 0 <= j < n :: LeftAt(states, log, j, p, sid))
  {
    hide Apply, LeftAt;
    if n > 0 {
      var s, a, t := states[n - 1], log[n - 1], states[n];
      assert Step(s, a, t);
      StepOwners(s, a, t, p, sid);
      StepSessions(s, a, t);
      if Owns(s, p, sid) {
        OwnerLiveOrLeft(states, log, n - 1, p, sid);
        if HasOn(s, p, sid) {
          if sid in t.db {
            StepKeepsHandle(s, a, t, p, sid);
          } else {
            EndLeaves(s, t, p, sid);
            SameLeft(states, log, n - 1, p, sid);
          }
        }
      } else {
        assert WfSession(s.ds, s.db[sid]);
        StepKeepsHandle(s, a, t, p, sid);
      }
    }
  }

  lemma SameLeft(states: seq<State>, log: seq<Action>, j: nat, p: string, sid: int)
    requires j < |log| && |states| == |log| + 1 && log[j] == EndSession(sid)
    requires LeftAt([states[j], states[j + 1]], [EndSession(sid)], 0, p, sid)
    ensures LeftAt(states, log, j, p, sid)
  {
  }

  /** An owner whose session is gone stays an owner exactly until a Delete of the path. */
  lemma {:induction false} StuckUntilDeleted(states: seq<State>, log: seq<Action>, m: nat, n: nat, p: string, sid: int)
    requires Run(states, log) && m <= n <= |log|
    requires Owns(states[m], p, sid) && sid !in states[m].db && sid < states[m].nextId
    ensures sid !in states[n].db
    ensures Owns(states[n], p, sid) <==> forall j | m <= j < n :: !Deletes(states[j], log[j], p)
  {
    hide Apply, Deletes;
    if m < n {
      StuckUntilDeleted(states, log, m, n - 1, p, sid);
      var s, a, t := states[n - 1], log[n - 1], states[n];
      assert Step(s, a, t);
      NextIdGrows(states, log, m, n - 1);
      StepSessions(s, a, t);
      StepOwners(s, a, t, p, sid);
      DeadStays(s, a, t, p, sid);
    }
  }

  /** A session that is not there cannot release or ask for anything. */
  lemma DeadStays(s: State, a: Action, t: State, p: string, sid: int)
    requires Step(s, a, t) && sid !in s.db
    ensures Owns(t, p, sid) <==> Owns(s, p, sid) && !Deletes(s, a, p)
  {
    StepOwners(s, a, t, p, sid);
    if (a.Close? || a.Rel? || a.EndSession?) && a.sid == sid {
      hide CloseFile, EndUpTo;
      assert t == s;
    }
  }
}
