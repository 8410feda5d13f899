/**
 Sessions and handles along a run: which number they get, what path they stay on, and
 when a handle still names the file it was opened on.
 */
module Handles {
  import opened Store
  import opened Easing
  import Locks

  /** a is a Delete that reaches path p. */
  predicate Deletes(s: State, a: Action, p: string) {
    a.Delete? && HasHandle(s, a.sid, a.fh) && PathOf(s, a.sid, a.fh) == p
  }

  predicate OpensFor(s: State, a: Action, sid: int) {
    a.Open? && a.sid == sid && sid in s.db
  }

  /** What a step does to a session that is there before and after it. */
  predicate SessionStep(st: State, a: Action, q: int, s: Session, t: Session) {
    && |s.inums| == |s.paths| && |t.inums| == |t.paths|
    && t.paths == (if OpensFor(st, a, q) then s.paths + [a.path] else s.paths)
    && (OpensFor(st, a, q) ==> t.inums[|s.inums|] == FileAt(st.ds, a.path).instanceNum)
    && forall i | 0 <= i < |s.inums| :: t.inums[i] == if a == Close(q, i) then -1 else s.inums[i]
  }

  lemma CloseInums(s: State, sid: int, fh: int)
    requires Wf(s) && HasHandle(s, sid, fh)
    ensures CloseFile(s, sid, fh).st.db
         == s.db[sid := s.db[sid].(inums := s.db[sid].inums[fh := -1])]
    ensures CloseFile(s, sid, fh).st.nextId == s.nextId
  {
    hide Unsubscribe;
    assert WfSession(s.ds, s.db[sid]);
    if s.db[sid].inums[fh] == -1 {
      assert s.db[sid].inums[fh := -1] == s.db[sid].inums;
    }
  }

  /** What a step does to the session table. */
  predicate TableStep(s: State, a: Action, t: State) {
    && t.nextId == (if a.StartSession? then s.nextId + 1 else s.nextId)
    && (a.StartSession? ==> s.nextId in t.db)
    && (forall q | q in t.db && q !in s.db :: a.StartSession? && q == s.nextId && t.db[q] == Session([], []))
    && (forall q | q in s.db :: q in t.db <==> a != EndSession(q))
    && (forall q | q in s.db && q in t.db :: SessionStep(s, a, q, s.db[q], t.db[q]))
  }

  lemma SessionsMatch(s: State)
    requires Wf(s)
    ensures forall q | q in s.db :: |s.db[q].inums| == |s.db[q].paths|
  {
    forall q | q in s.db
      ensures |s.db[q].inums| == |s.db[q].paths|
    {
      assert WfSession(s.ds, s.db[q]);
    }
  }

  lemma OpenTable(s: State, a: Action, t: State)
    requires Step(s, a, t) && a.Open?
    ensures TableStep(s, a, t)
  {
    hide OpenFile;
    SessionsMatch(s);
    if a.sid in s.db {
      var s0 := s.db[a.sid];
      var s1 := Session(s0.paths + [a.path], s0.inums + [FileAt(s.ds, a.path).instanceNum]);
      assert t.db == s.db[a.sid := s1];
      assert SessionStep(s, a, a.sid, s0, s1);
    }
  }

  lemma CloseTable(s: State, a: Action, t: State)
    requires Step(s, a, t) && a.Close?
    ensures TableStep(s, a, t)
  {
    hide CloseFile;
    SessionsMatch(s);
    if a.sid in s.db {
      CloseInums(s, a.sid, a.fh);
      assert t.db == CloseFile(s, a.sid, a.fh).st.db;
    }
  }

  lemma EndTable(s: State, a: Action, t: State)
    requires Step(s, a, t) && a.EndSession?
    ensures TableStep(s, a, t)
  {
    hide Apply;
    SessionsMatch(s);
    StepEases(s, a, t);
  }

  lemma StartTable(s: State, a: Action, t: State)
    requires Step(s, a, t) && a.StartSession?
    ensures TableStep(s, a, t)
  {
    SessionsMatch(s);
    assert s.nextId !in s.db;
  }

  lemma OtherTable(s: State, a: Action, t: State)
    requires Step(s, a, t) && (a.SetContent? || a.Acq? || a.Rel? || a.Delete?)
    ensures t.db == s.db && t.nextId == s.nextId && TableStep(s, a, t)
  {
    hide DeleteFile;
    SessionsMatch(s);
    assert t.db == s.db && t.nextId == s.nextId;
  }

  lemma StepSessions(s: State, a: Action, t: State)
    requires Step(s, a, t)
    ensures TableStep(s, a, t)
  {
    hide Step, TableStep;
    match a
    case Open(_, _, _, _) => OpenTable(s, a, t);
    case Close(_, _) => CloseTable(s, a, t);
    case EndSession(_) => EndTable(s, a, t);
    case StartSession => StartTable(s, a, t);
    case _ => OtherTable(s, a, t);
  }

  lemma DeleteInstance(ds: map<string, File>, key: string, p: string)
    requires key in ds && Paths.Parent(key) in ds && p in ds
    ensures DeleteFile(ds, key)[p].instanceNum == ds[p].instanceNum + if p == key then 1 else 0
  {
    Locks.DeleteLock(ds, key, p);
  }

  /** A file's instance number counts the Deletes that reached it. */
  lemma StepInstance(s: State, a: Action, t: State, p: string)
    requires Step(s, a, t)
    ensures p in s.ds ==> p in t.ds
    ensures FileAt(t.ds, p).instanceNum == FileAt(s.ds, p).instanceNum + if Deletes(s, a, p) then 1 else 0
  {
    hide CloseFile, ReleaseLock, EndUpTo, OpenFile, DeleteFile;
    match a
    case Open(_, _, _, _) =>
      if a.sid in s.db {
        Locks.OpenKeepsLocks(s.ds, a, |s.db[a.sid].paths|);
      }
    case Close(_, _) => EasedInstance(s, a, t, p);
    case Rel(_, _) => EasedInstance(s, a, t, p);
    case EndSession(_) => EasedInstance(s, a, t, p);
    case StartSession =>
    case SetContent(_, _, _) =>
    case Acq(_, _, _) =>
    case Delete(sid, fh) =>
      if sid in s.db {
        assert WfSession(s.ds, s.db[sid]);
        if p in s.ds { DeleteInstance(s.ds, PathOf(s, sid, fh), p); }
      }
  }

  lemma EasedInstance(s: State, a: Action, t: State, p: string)
    requires Step(s, a, t) && (a.Close? || a.Rel? || a.EndSession?)
    ensures t.ds.Keys == s.ds.Keys && FileAt(t.ds, p).instanceNum == FileAt(s.ds, p).instanceNum
  {
    hide Apply;
    StepEases(s, a, t);
    if p in s.ds { assert FileEased(s.ds[p], t.ds[p], a.sid); }
  }

  // ----- numbers -----

  function Starts(log: seq<Action>): nat {
    if log == [] then 0 else Starts(log[..|log| - 1]) + if log[|log| - 1].StartSession? then 1 else 0
  }

  lemma {:induction false} NextIdCountsStarts(states: seq<State>, log: seq<Action>, n: nat)
    requires InitRun(states, log) && n <= |log|
    ensures states[n].nextId == Starts(log[..n])
  {
    if n > 0 {
      NextIdCountsStarts(states, log, n - 1);
      StepSessions(states[n - 1], log[n - 1], states[n]);
      assert log[..n][..n - 1] == log[..n - 1];
    }
  }

  /** A StartSession is answered with the number of StartSession entries before it. */
  lemma SessionNumber(states: seq<State>, log: seq<Action>, i: nat)
    requires InitRun(states, log) && i < |log| && log[i].StartSession?
    ensures Apply(states[i], log[i]).reply == StartSessionReturn(0, "OK", Starts(log[..i]))
  {
    NextIdCountsStarts(states, log, i);
  }

  /** The successful Opens of the session among the first n entries. */
  function Opens(states: seq<State>, log: seq<Action>, sid: int, n: nat): nat
    requires |states| == |log| + 1 && n <= |log|
  {
    if n == 0 then 0
    else Opens(states, log, sid, n - 1) + if OpensFor(states[n - 1], log[n - 1], sid) then 1 else 0
  }

  lemma {:induction false} HandlesCountOpens(states: seq<State>, log: seq<Action>, sid: int, n: nat)
    requires InitRun(states, log) && n <= |log|
    ensures sid in states[n].db ==> |states[n].db[sid].paths| == Opens(states, log, sid, n)
    ensures sid >= states[n].nextId ==> Opens(states, log, sid, n) == 0 && sid !in states[n].db
  {
    hide Apply;
    if n > 0 {
      HandlesCountOpens(states, log, sid, n - 1);
      assert Step(states[n - 1], log[n - 1], states[n]);
      StepSessions(states[n - 1], log[n - 1], states[n]);
    }
  }

  /** A successful Open is answered with the number of the session's successful Opens before it. */
  lemma HandleNumber(states: seq<State>, log: seq<Action>, i: nat)
    requires InitRun(states, log) && i < |log| && log[i].Open? && log[i].sid in states[i].db
    ensures Apply(states[i], log[i])
         == Done(states[i + 1], OpenReturn(0, "OK", Opens(states, log, log[i].sid, i)), {}, {})
  {
    hide OpenFile;
    assert Step(states[i], log[i], states[i + 1]);
    HandlesCountOpens(states, log, log[i].sid, i);
  }

  /** A session that is gone does not come back, and a live one was live all along. */
  lemma {:induction false} LiveThroughout(states: seq<State>, log: seq<Action>, i: nat, n: nat, sid: int)
    requires Run(states, log) && i <= n <= |log| && sid in states[n].db && sid < states[i].nextId
    ensures forall k | i <= k <= n :: sid in states[k].db
  {
    hide Apply;
    if i < n {
      NextIdGrows(states, log, i, n - 1);
      assert Step(states[n - 1], log[n - 1], states[n]);
      StepSessions(states[n - 1], log[n - 1], states[n]);
      LiveThroughout(states, log, i, n - 1, sid);
    }
  }

  lemma {:induction false} NextIdGrows(states: seq<State>, log: seq<Action>, i: nat, n: nat)
    requires Run(states, log) && i <= n <= |log|
    ensures states[i].nextId <= states[n].nextId
  {
    hide Apply;
    if i < n {
      NextIdGrows(states, log, i, n - 1);
      assert Step(states[n - 1], log[n - 1], states[n]);
      StepSessions(states[n - 1], log[n - 1], states[n]);
    }
  }

  /** A handle's path never changes while its session lives. */
  lemma {:induction false} HandlePathStable(states: seq<State>, log: seq<Action>, i: nat, n: nat, sid: int, fh: int)
    requires Run(states, log) && i <= n <= |log|
    requires HasHandle(states[i], sid, fh) && sid in states[n].db
    ensures HasHandle(states[n], sid, fh) && PathOf(states[n], sid, fh) == PathOf(states[i], sid, fh)
  {
    hide Apply;
    if i < n {
      LiveThroughout(states, log, i, n, sid);
      HandlePathStable(states, log, i, n - 1, sid, fh);
      assert Step(states[n - 1], log[n - 1], states[n]);
      StepSessions(states[n - 1], log[n - 1], states[n]);
    }
  }

  // ----- validity -----

  /** The handle's stored instance number is its file's. */
  predicate Fresh(st: State, sid: int, fh: int)
    requires Wf(st) && HasHandle(st, sid, fh)
  {
    assert WfSession(st.ds, st.db[sid]);
    InumOf(st, sid, fh) == st.ds[PathOf(st, sid, fh)].instanceNum
  }

  predicate CountsUp(st: State) {
    forall p | p in st.ds :: st.ds[p].instanceNum >= 0
  }

  lemma StepCountsUp(s: State, a: Action, t: State)
    requires Step(s, a, t) && CountsUp(s)
    ensures CountsUp(t)
  {
    hide Apply;
    forall p | p in t.ds
      ensures t.ds[p].instanceNum >= 0
    {
      StepInstance(s, a, t, p);
    }
  }

  lemma {:induction false} InstancesCountUp(states: seq<State>, log: seq<Action>, n: nat)
    requires InitRun(states, log) && n <= |log|
    ensures CountsUp(states[n])
  {
    hide Apply;
    if n > 0 {
      InstancesCountUp(states, log, n - 1);
      assert Step(states[n - 1], log[n - 1], states[n]);
      StepCountsUp(states[n - 1], log[n - 1], states[n]);
    }
  }

  /** Entry j outdates the handle: it closes it, or deletes its path. */
  predicate Outdates(states: seq<State>, log: seq<Action>, j: nat, sid: int, fh: int, path: string)
    requires j < |log| && |states| == |log| + 1
  {
    log[j] == Close(sid, fh) || Deletes(states[j], log[j], path)
  }

  predicate OpenedAt(states: seq<State>, log: seq<Action>, i: nat, sid: int, fh: int)
    requires |states| == |log| + 1
  {
    i < |log| && OpensFor(states[i], log[i], sid) && fh == |states[i].db[sid].paths|
  }

  lemma {:induction false} InstanceGap(states: seq<State>, log: seq<Action>, i: nat, n: nat, sid: int, fh: int)
    requires InitRun(states, log) && OpenedAt(states, log, i, sid, fh)
    requires i < n <= |log| && sid in states[n].db
    ensures HasHandle(states[n], sid, fh) && PathOf(states[n], sid, fh) == log[i].path
    ensures log[i].path in states[n].ds
    ensures 0 <= FileAt(states[i].ds, log[i].path).instanceNum <= states[n].ds[log[i].path].instanceNum
    ensures states[n].db[sid].inums[fh] ==
              if exists j | i < j < n :: log[j] == Close(sid, fh) then -1
              else FileAt(states[i].ds, log[i].path).instanceNum
    ensures states[n].ds[log[i].path].instanceNum == FileAt(states[i].ds, log[i].path).instanceNum
       <==> forall j | i < j < n :: !Deletes(states[j], log[j], log[i].path)
  {
    hide Apply;
    var s, a, t := states[n - 1], log[n - 1], states[n];
    var p := log[i].path;
    assert Step(s, a, t);
    InstancesCountUp(states, log, i);
    LiveThroughout(states, log, i, n, sid);
    StepSessions(s, a, t);
    StepInstance(s, a, t, p);
    assert WfSession(t.ds, t.db[sid]);
    if n > i + 1 {
      InstanceGap(states, log, i, n - 1, sid, fh);
    }
  }

  /**
   A handle names its file exactly as long as it was neither closed nor outdated by a
   Delete of its path.
   */
  lemma FreshIffUntouched(states: seq<State>, log: seq<Action>, i: nat, n: nat, sid: int, fh: int)
    requires InitRun(states, log) && OpenedAt(states, log, i, sid, fh)
    requires i < n <= |log| && sid in states[n].db
    ensures HasHandle(states[n], sid, fh) && PathOf(states[n], sid, fh) == log[i].path
    ensures Fresh(states[n], sid, fh)
       <==> forall j | i < j < n :: !Outdates(states, log, j, sid, fh, log[i].path)
  {
    InstanceGap(states, log, i, n, sid, fh);
    if j :| i < j < n && Outdates(states, log, j, sid, fh, log[i].path) {
      assert log[j] == Close(sid, fh) || Deletes(states[j], log[j], log[i].path);
    } else {
      forall j | i < j < n
        ensures log[j] != Close(sid, fh) && !Deletes(states[j], log[j], log[i].path)
      {
        assert !Outdates(states, log, j, sid, fh, log[i].path);
      }
    }
  }

  /** Once outdated, a handle is refused by SetContent for good, even if the file was created anew. */
  lemma OutdatedIsRefused(states: seq<State>, log: seq<Action>, i: nat, j: nat, n: nat, sid: int, fh: int, text: string)
    requires InitRun(states, log) && OpenedAt(states, log, i, sid, fh)
    requires i < j < n <= |log| && Outdates(states, log, j, sid, fh, log[i].path)
    ensures Apply(states[n], SetContent(sid, fh, text))
         == Done(states[n], Response(-1, if sid in states[n].db then "Instance num mismatch" else NOT_FOUND), {}, {})
  {
    if sid in states[n].db {
      FreshIffUntouched(states, log, i, n, sid, fh);
      assert WfSession(states[n].ds, states[n].db[sid]);
    }
  }
}
