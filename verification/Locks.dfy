/** Reader-writer exclusion, sequencers and wake-ups, over every run of the state machine. */
module Locks {
  import opened Prelude
  import opened Store
  import opened Easing

  /** A blocked Acquire may proceed. */
  predicate MayAcquire(f: File, ex: bool) {
    f.lockOwners == {} || (!ex && !f.isLockedEx)
  }

  /** No owner, one exclusive owner, or only shared owners. */
  predicate Exclusive(f: File) {
    f.isLockedEx ==> forall x, y | x in f.lockOwners && y in f.lockOwners :: x == y
  }

  predicate AllExclusive(st: State) {
    forall p | p in st.ds :: Exclusive(st.ds[p])
  }

  /** (a1, a2) < (b1, b2), lexicographically. */
  predicate Before(a: (int, int), b: (int, int)) {
    a.0 < b.0 || (a.0 == b.0 && a.1 < b.1)
  }

  predicate NotAfter(a: (int, int), b: (int, int)) {
    a == b || Before(a, b)
  }

  function Sequencer(f: File): (int, int) {
    (f.instanceNum, f.lockGenNum)
  }

  /** What one step may do to the lock of one file. */
  predicate LockStep(f: File, g: File) {
    && (Exclusive(f) ==> Exclusive(g))
    && NotAfter(Sequencer(f), Sequencer(g))
    && (f.lockOwners == {} && g.lockOwners != {} ==> Before(Sequencer(f), Sequencer(g)))
  }

  /** Directory edits and the like leave the lock alone. */
  predicate SameLock(f: File, g: File) {
    g.lockOwners == f.lockOwners && g.isLockedEx == f.isLockedEx && Sequencer(g) == Sequencer(f)
  }

  lemma DeleteLock(ds: map<string, File>, key: string, p: string)
    requires key in ds && Paths.Parent(key) in ds && p in ds
    ensures SameLock(if p == key then Deleted(ds[p]) else ds[p], DeleteFile(ds, key)[p])
  {
    hide Unlist;
    UnlistFrame(ds[key := Deleted(ds[key])], key, p);
  }

  lemma OpenKeepsLock(ds: map<string, File>, a: Action, fh: int, p: string)
    requires a.Open? && OpenFile(ds, a, fh).Some? && p in OpenFile(ds, a, fh).value
    ensures SameLock(FileAt(ds, p), OpenFile(ds, a, fh).value[p])
  {
    hide Paths.Parent, Paths.Filename;
  }

  lemma OpenKeepsLocks(ds: map<string, File>, a: Action, fh: int)
    requires a.Open?
    ensures var r := OpenFile(ds, a, fh);
            r.Some? ==> forall p | p in r.value :: SameLock(FileAt(ds, p), r.value[p])
  {
    hide OpenFile, SameLock;
    if OpenFile(ds, a, fh).Some? {
      forall p | p in OpenFile(ds, a, fh).value
        ensures SameLock(FileAt(ds, p), OpenFile(ds, a, fh).value[p])
      {
        OpenKeepsLock(ds, a, fh, p);
      }
    }
  }

  lemma StepLocks(s: State, a: Action, t: State, p: string)
    requires Step(s, a, t) && p in s.ds
    ensures p in t.ds && LockStep(s.ds[p], t.ds[p])
  {
    hide CloseFile, ReleaseLock, EndUpTo, OpenFile, DeleteFile;
    match a
    case Open(_, _, _, _) =>
      if a.sid in s.db { OpenKeepsLocks(s.ds, a, |s.db[a.sid].paths|); }
    case Close(_, _) => EasedLock(s, a, t, p);
    case Rel(_, _) => EasedLock(s, a, t, p);
    case EndSession(_) => EasedLock(s, a, t, p);
    case StartSession =>
    case SetContent(_, _, _) =>
    case Acq(_, _, _) =>
    case Delete(sid, fh) =>
      if sid in s.db {
        assert WfSession(s.ds, s.db[sid]);
        DeleteLock(s.ds, PathOf(s, sid, fh), p);
      }
  }

  lemma EasedLock(s: State, a: Action, t: State, p: string)
    requires Step(s, a, t) && p in s.ds && (a.Close? || a.Rel? || a.EndSession?)
    ensures p in t.ds && LockStep(s.ds[p], t.ds[p])
  {
    hide Apply;
    StepEases(s, a, t);
    assert FileEased(s.ds[p], t.ds[p], a.sid);
  }

  lemma StepExclusive(s: State, a: Action, t: State)
    requires Step(s, a, t) && AllExclusive(s)
    ensures AllExclusive(t)
  {
    forall p | p in t.ds
      ensures Exclusive(t.ds[p])
    {
      if p in s.ds {
        StepLocks(s, a, t, p);
      } else {
        OpenKeepsLocks(s.ds, a, |s.db[a.sid].paths|);
      }
    }
  }

  /** In every reachable state, every lock is free, exclusive with one owner, or shared. */
  lemma {:induction false} LocksExclude(states: seq<State>, log: seq<Action>, n: nat)
    requires InitRun(states, log) && n <= |log|
    ensures forall p | p in states[n].ds ::
              states[n].ds[p].isLockedEx ==> |states[n].ds[p].lockOwners| <= 1
    ensures AllExclusive(states[n])
  {
    if n > 0 {
      LocksExclude(states, log, n - 1);
      StepExclusive(states[n - 1], log[n - 1], states[n]);
    }
    forall p | p in states[n].ds && states[n].ds[p].isLockedEx
      ensures |states[n].ds[p].lockOwners| <= 1
    {
      AtMostOne(states[n].ds[p].lockOwners);
    }
  }

  lemma AtMostOne(s: set<int>)
    requires forall x, y | x in s && y in s :: x == y
    ensures |s| <= 1
  {
    Inhabited(s);
    if x :| x in s {
      assert forall y | y in s :: y == x;
      assert s == {x};
    }
  }

  /** Along a run the sequencer of a file never goes down. */
  lemma {:induction false} SequencersNeverDecrease(states: seq<State>, log: seq<Action>, i: nat, j: nat, p: string)
    requires Run(states, log) && i <= j <= |log| && p in states[i].ds
    ensures p in states[j].ds
    ensures NotAfter(Sequencer(states[i].ds[p]), Sequencer(states[j].ds[p]))
  {
    if i < j {
      SequencersNeverDecrease(states, log, i, j - 1, p);
      StepLocks(states[j - 1], log[j - 1], states[j], p);
    }
  }

  /** Step i takes the lock of p from free to held. */
  predicate TenureStarts(states: seq<State>, i: nat, p: string)
    requires i + 1 < |states|
  {
    && p in states[i].ds && p in states[i + 1].ds
    && states[i].ds[p].lockOwners == {} && states[i + 1].ds[p].lockOwners != {}
  }

  /** Two tenures of one lock never carry the same sequencer: the later one's is greater. */
  lemma TenuresOrdered(states: seq<State>, log: seq<Action>, i: nat, j: nat, p: string)
    requires Run(states, log) && i < j < |log|
    requires TenureStarts(states, i, p) && TenureStarts(states, j, p)
    ensures Before(Sequencer(states[i + 1].ds[p]), Sequencer(states[j + 1].ds[p]))
  {
    SequencersNeverDecrease(states, log, i + 1, j, p);
    StepLocks(states[j], log[j], states[j + 1], p);
  }

  // ----- wake-ups -----

  /** The waiters of p were told if the step let one of them in. */
  predicate WakesAt(f: File, g: File, told: bool) {
    forall ex: bool :: !MayAcquire(f, ex) && MayAcquire(g, ex) ==> told
  }

  lemma ReleaseWakes(s: State, sid: int, fh: int, p: string)
    requires Wf(s) && (sid in s.db ==> HasHandle(s, sid, fh)) && p in s.ds
    ensures var r := ReleaseLock(s, sid, fh); WakesAt(s.ds[p], r.st.ds[p], p in r.woken)
  {
    if sid in s.db { assert WfSession(s.ds, s.db[sid]); }
  }

  lemma CloseKeepsLocks(s: State, sid: int, fh: int, p: string)
    requires Wf(s) && HasHandle(s, sid, fh) && p in s.ds
    ensures SameLock(s.ds[p], CloseFile(s, sid, fh).st.ds[p])
  {
    hide CloseFile;
    CloseEases(s, sid, fh);
    assert FileEased(s.ds[p], CloseFile(s, sid, fh).st.ds[p], sid);
  }

  lemma EndOneWakes(done: Ended, sid: int, fh: nat, p: string)
    requires Wf(done.st) && sid in done.st.db && fh < |done.st.db[sid].paths| && p in done.st.ds
    ensures var r := EndOne(done, sid, fh);
            WakesAt(done.st.ds[p], r.st.ds[p], p in r.woken) && done.woken <= r.woken
  {
    hide CloseFile, ReleaseLock;
    CloseKeepsLocks(done.st, sid, fh, p);
    ReleaseWakes(CloseFile(done.st, sid, fh).st, sid, fh, p);
  }

  lemma {:induction false} EndWakes(s: State, sid: int, n: nat, p: string)
    requires Wf(s) && sid in s.db && n <= |s.db[sid].paths| && p in s.ds
    ensures var r := EndUpTo(s, sid, n); WakesAt(s.ds[p], r.st.ds[p], p in r.woken)
  {
    hide EndOne;
    if n > 0 {
      EndWakes(s, sid, n - 1, p);
      EndOneWakes(EndUpTo(s, sid, n - 1), sid, n - 1, p);
    }
  }

  /** A step that lets a blocked Acquire, exclusive or shared, proceed notifies that file's waiters. */
  lemma EveryWakeUpIsNotified(s: State, a: Action, p: string)
    requires Wf(s) && Apply(s, a).Done? && p in s.ds
    ensures var o := Apply(s, a);
            p in o.st.ds && WakesAt(s.ds[p], o.st.ds[p], p in o.woken)
  {
    hide CloseFile, ReleaseLock, EndUpTo, OpenFile, DeleteFile;
    StepLocks(s, a, Apply(s, a).st, p);
    match a
    case Open(_, _, _, _) =>
      if a.sid in s.db { OpenKeepsLocks(s.ds, a, |s.db[a.sid].paths|); }
    case Close(sid, fh) =>
      if sid in s.db {
        CloseKeepsLocks(s, sid, fh, p);
        ReleaseWakes(CloseFile(s, sid, fh).st, sid, fh, p);
      }
    case EndSession(sid) =>
      if sid in s.db { EndWakes(s, sid, |s.db[sid].paths|, p); }
    case Rel(sid, fh) => ReleaseWakes(s, sid, fh, p);
    case StartSession =>
    case SetContent(_, _, _) =>
    case Acq(_, _, _) =>
    case Delete(sid, fh) =>
      if sid in s.db {
        assert WfSession(s.ds, s.db[sid]);
        DeleteLock(s.ds, PathOf(s, sid, fh), p);
      }
  }

  // ----- one request -----

  /** A lock request is granted exactly if it may be; then the session owns the lock, next to the other readers. */
  lemma AcqGrantedIff(s: State, a: Action)
    requires Wf(s) && a.Acq? && HasHandle(s, a.sid, a.fh)
    ensures PathOf(s, a.sid, a.fh) in s.ds
    ensures var p := PathOf(s, a.sid, a.fh);
            var o, f := Apply(s, a), s.ds[p];
            && o.Done? && p in o.st.ds && o.reply.Response?
            && (o.reply.res == 0 <==> MayAcquire(f, a.ex))
            && (o.reply.res == 0 ==>
                  && o.st == s.(ds := s.ds[p := o.st.ds[p]])
                  && o.st.ds[p].lockOwners == f.lockOwners + {a.sid} && o.st.ds[p].isLockedEx == a.ex)
            && (o.reply.res != 0 ==> o.reply.res == 1 && o.st == s)
  {
  }

  // ----- what was granted -----

  /** Entry i grants the session a lock on p in this mode. */
  predicate GrantedAt(states: seq<State>, log: seq<Action>, i: nat, p: string, sid: int, ex: bool)
    requires |states| == |log| + 1
  {
    && i < |log| && Wf(states[i]) && log[i].Acq? && log[i].sid == sid && log[i].ex == ex
    && HasHandle(states[i], sid, log[i].fh) && PathOf(states[i], sid, log[i].fh) == p
    && Apply(states[i], log[i]).Done? && Apply(states[i], log[i]).reply.res == 0
  }

  /** The session owns p's lock at every state from m to n. */
  predicate OwnerThrough(states: seq<State>, m: nat, n: nat, p: string, sid: int) {
    forall j | m <= j <= n && j < |states| :: p in states[j].ds && sid in states[j].ds[p].lockOwners
  }

  /** While a lock is owned its mode does not change. */
  lemma StepKeepsMode(s: State, a: Action, t: State, p: string)
    requires Step(s, a, t) && p in s.ds && s.ds[p].lockOwners != {}
    ensures p in t.ds && (t.ds[p].lockOwners != {} ==> t.ds[p].isLockedEx == s.ds[p].isLockedEx)
  {
    hide CloseFile, ReleaseLock, EndUpTo, OpenFile, DeleteFile;
    match a
    case Open(_, _, _, _) =>
      if a.sid in s.db { OpenKeepsLocks(s.ds, a, |s.db[a.sid].paths|); }
    case Close(_, _) => EasedMode(s, a, t, p);
    case Rel(_, _) => EasedMode(s, a, t, p);
    case EndSession(_) => EasedMode(s, a, t, p);
    case StartSession =>
    case SetContent(_, _, _) =>
    case Acq(_, _, _) =>
    case Delete(sid, fh) =>
      if sid in s.db {
        assert WfSession(s.ds, s.db[sid]);
        DeleteLock(s.ds, PathOf(s, sid, fh), p);
      }
  }

  lemma EasedMode(s: State, a: Action, t: State, p: string)
    requires Step(s, a, t) && p in s.ds && (a.Close? || a.Rel? || a.EndSession?)
    ensures p in t.ds && t.ds[p].isLockedEx == s.ds[p].isLockedEx
  {
    hide Apply;
    StepEases(s, a, t);
    assert FileEased(s.ds[p], t.ds[p], a.sid);
  }

  /** An owner keeps the mode that it was granted. */
  lemma {:induction false} ModeAsGranted(states: seq<State>, log: seq<Action>, i: nat, n: nat,
                                         p: string, sid: int, ex: bool)
    requires Run(states, log) && i < n <= |log| && GrantedAt(states, log, i, p, sid, ex)
    requires OwnerThrough(states, i + 1, n, p, sid)
    ensures p in states[n].ds && states[n].ds[p].isLockedEx == ex
  {
    hide Apply, GrantedAt;
    if n == i + 1 {
      GrantSetsMode(states, log, i, p, sid, ex);
    } else {
      ModeAsGranted(states, log, i, n - 1, p, sid, ex);
      assert Step(states[n - 1], log[n - 1], states[n]);
      assert sid in states[n - 1].ds[p].lockOwners && sid in states[n].ds[p].lockOwners;
      StepKeepsMode(states[n - 1], log[n - 1], states[n], p);
    }
  }

  lemma GrantSetsMode(states: seq<State>, log: seq<Action>, i: nat, p: string, sid: int, ex: bool)
    requires Run(states, log) && GrantedAt(states, log, i, p, sid, ex)
    ensures p in states[i + 1].ds && states[i + 1].ds[p].isLockedEx == ex
  {
    assert Step(states[i], log[i], states[i + 1]);
    AcqGrantedIff(states[i], log[i]);
    hide Apply;
  }

  /** While a session holds a lock that it was granted exclusively, it is the only owner. */
  lemma WriterIsAlone(states: seq<State>, log: seq<Action>, i: nat, n: nat, p: string, sid: int)
    requires InitRun(states, log) && i < n <= |log| && GrantedAt(states, log, i, p, sid, true)
    requires OwnerThrough(states, i + 1, n, p, sid)
    ensures p in states[n].ds && states[n].ds[p].lockOwners == {sid}
  {
    hide Apply, GrantedAt;
    ModeAsGranted(states, log, i, n, p, sid, true);
    LocksExclude(states, log, n);
    assert Exclusive(states[n].ds[p]);
    forall q | q in states[n].ds[p].lockOwners
      ensures q == sid
    {
    }
  }

  /** While any session holds a lock, no other request is granted, unless both are shared; shared ones then are. */
  lemma HeldLockGrants(states: seq<State>, log: seq<Action>, i: nat, n: nat, p: string, sid: int, ex: bool)
    requires InitRun(states, log) && i < n < |log| && GrantedAt(states, log, i, p, sid, ex)
    requires OwnerThrough(states, i + 1, n, p, sid)
    requires log[n].Acq? && HasHandle(states[n], log[n].sid, log[n].fh) && PathOf(states[n], log[n].sid, log[n].fh) == p
    ensures GrantedAt(states, log, n, p, log[n].sid, log[n].ex) <==> !ex && !log[n].ex
  {
    ModeAsGranted(states, log, i, n, p, sid, ex);
    assert Step(states[n], log[n], states[n + 1]);
    AcqGrantedIff(states[n], log[n]);
    hide Apply;
    assert sid in states[n].ds[p].lockOwners;
  }
}
