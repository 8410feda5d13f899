/**
 The lock RPCs on the leader: handler threads, one mutex per file, a pending log, and
 the state machine applying it.  A handler keeps its file's mutex from its first check
 until its entry was applied; between any two of its steps other entries may be appended
 and applied.
 */
module LockRpc {
  import opened Prelude
  import opened Paths
  import opened Store
  import opened Easing
  import opened Handles
  import opened Locks
  import opened Owners

  datatype Kind = AcquireRpc | TryAcquireRpc | ReleaseRpc

  /** How an RPC ended. */
  datatype Status =
    | SessionGone            // the session was not found
    | Threw                  // a checked access threw
    | Answer(res: int)       // answered with this result code
    | Aborted(msg: string)   // the state machine answered with a negative code

  datatype Pc =
    | Entered
    | Locking(key: string)                  // about to take the file's mutex
    | Checking(key: string)                 // holds it
    | Waiting(key: string)                  // on the condition variable, mutex given up
    | Admitted(key: string)                 // holds it, the wait is over
    | Matched(key: string)                  // holds it, the instance numbers agreed
    | Passed(key: string)                   // holds it, the file was there too
    | Submitted(key: string, idx: nat)      // holds it, entry idx is in the log
    | Answered(key: string, reply: Reply)   // holds it, the entry was applied
    | Finished(status: Status)

  datatype Thread = Thread(kind: Kind, sid: int, fh: int, ex: bool, pc: Pc)

  datatype Entry = Entry(action: Action, tid: Option<nat>)

  datatype Sys = Sys(sm: State, threads: map<nat, Thread>, mutex: map<string, nat>, log: seq<Entry>, applied: nat)

  const START := Sys(INIT, map[], map[], [], 0)

  datatype Label =
    | Spawn(tid: nat, kind: Kind, sid: int, fh: int, ex: bool)
    | Lookup(tid: nat)
    | Lock(tid: nat)
    | Check(tid: nat)        // the waiting predicate
    | Wake(tid: nat)
    | CheckInum(tid: nat)    // the handle's instance number
    | CheckExists(tid: nat)  // the file's existence
    | Submit(tid: nat)       // the request enters the log
    | Append(action: Action)   // by any other RPC, or by a session's expiry
    | ApplyNext
    | Return(tid: nat)

  function Move(s: Sys, tid: nat, pc: Pc): Sys
    requires tid in s.threads
  {
    s.(threads := s.threads[tid := s.threads[tid].(pc := pc)])
  }

  function Unlock(s: Sys, key: string): Sys {
    s.(mutex := s.mutex - {key})
  }

  /** The handle's instance number as the handler's own session pointer still shows it. */
  function HandleInum(sm: State, sid: int, fh: int): int
    requires Wf(sm)
  {
    if HasHandle(sm, sid, fh) then InumOf(sm, sid, fh) else -1
  }

  function ActionOf(t: Thread): Action {
    if t.kind == ReleaseRpc then Rel(t.sid, t.fh) else Acq(t.sid, t.fh, t.ex)
  }

  /** The mutexes the apply step takes. */
  function Touched(sm: State, a: Action): set<string>
    requires Wf(sm)
  {
    match a
    case Open(sid, path, _, _) =>
      if sid in sm.db && path != "/" && !FileAt(sm.ds, path).fileExists then {Parent(path)} else {}
    case Close(sid, fh) =>
      if HasHandle(sm, sid, fh) && VanishesWith(sm, sid, fh) then {Parent(PathOf(sm, sid, fh))} else {}
    case EndSession(sid) =>
      set fh | 0 <= fh < (if sid in sm.db then |sm.db[sid].paths| else 0) && VanishesWith(sm, sid, fh)
        :: Parent(PathOf(sm, sid, fh))
    case Delete(sid, fh) =>
      if HasHandle(sm, sid, fh) then {PathOf(sm, sid, fh), Parent(PathOf(sm, sid, fh))} else {}
    case _ => {}
  }

  function FireLookup(s: Sys, tid: nat): Sys
    requires tid in s.threads
  {
    var t := s.threads[tid];
    if t.sid !in s.sm.db then Move(s, tid, Finished(SessionGone))
    else if !HasHandle(s.sm, t.sid, t.fh) then Move(s, tid, Finished(Threw))
    else Move(s, tid, Locking(PathOf(s.sm, t.sid, t.fh)))
  }

  function FireCheck(s: Sys, tid: nat): Sys
    requires tid in s.threads && s.threads[tid].pc.Checking? && s.threads[tid].pc.key in s.sm.ds
  {
    var t := s.threads[tid];
    var key := t.pc.key;
    if t.kind == AcquireRpc && !MayAcquire(s.sm.ds[key], t.ex) then Unlock(Move(s, tid, Waiting(key)), key)
    else Move(s, tid, Admitted(key))
  }

  /** The instance numbers of the handle and of the file agree. */
  predicate InumsAgree(sm: State, t: Thread, key: string)
    requires Wf(sm) && key in sm.ds
  {
    HandleInum(sm, t.sid, t.fh) == sm.ds[key].instanceNum
  }

  function FireCheckInum(s: Sys, tid: nat): Sys
    requires Wf(s.sm) && tid in s.threads && s.threads[tid].pc.Admitted? && s.threads[tid].pc.key in s.sm.ds
  {
    var t := s.threads[tid];
    var key := t.pc.key;
    if t.kind != ReleaseRpc && !InumsAgree(s.sm, t, key) then Unlock(Move(s, tid, Finished(Answer(-1))), key)
    else Move(s, tid, Matched(key))
  }

  function FireCheckExists(s: Sys, tid: nat): Sys
    requires tid in s.threads && s.threads[tid].pc.Matched? && s.threads[tid].pc.key in s.sm.ds
  {
    var t := s.threads[tid];
    var key := t.pc.key;
    if t.kind != ReleaseRpc && !s.sm.ds[key].fileExists then Unlock(Move(s, tid, Finished(Answer(-2))), key)
    else Move(s, tid, Passed(key))
  }

  function FireSubmit(s: Sys, tid: nat): Sys
    requires tid in s.threads && s.threads[tid].pc.Passed?
  {
    var t := s.threads[tid];
    Move(s, tid, Submitted(t.pc.key, |s.log|)).(log := s.log + [Entry(ActionOf(t), Some(tid))])
  }

  function FireApply(s: Sys): Option<Sys>
    requires Wf(s.sm) && s.applied < |s.log|
  {
    var e := s.log[s.applied];
    if !(Touched(s.sm, e.action) !! s.mutex.Keys) then None
    else match Apply(s.sm, e.action)
         case Abort => None
         case Done(sm, reply, _, _) =>
           var s1 := s.(sm := sm, applied := s.applied + 1);
           if e.tid.Some? && e.tid.value in s.threads && s.threads[e.tid.value].pc.Submitted?
           then Some(Move(s1, e.tid.value, Answered(s.threads[e.tid.value].pc.key, reply)))
           else Some(s1)
  }

  /** The status an answered handler returns. */
  function StatusOf(reply: Reply): Status {
    if reply.res < 0 then Aborted(reply.msg) else Answer(reply.res)
  }

  /** The step with this label; None where it is not enabled. */
  function Fire(s: Sys, l: Label): Option<Sys>
    requires Wf(s.sm)
  {
    match l
    case Spawn(tid, kind, sid, fh, ex) =>
      if tid in s.threads then None
      else Some(s.(threads := s.threads[tid := Thread(kind, sid, fh, ex, Entered)]))
    case Lookup(tid) =>
      if tid in s.threads && s.threads[tid].pc.Entered? then Some(FireLookup(s, tid)) else None
    case Lock(tid) =>
      if tid in s.threads && s.threads[tid].pc.Locking? && s.threads[tid].pc.key !in s.mutex
      then var key := s.threads[tid].pc.key;
           Some(Move(s, tid, Checking(key)).(mutex := s.mutex[key := tid]))
      else None
    case Check(tid) =>
      if tid in s.threads && s.threads[tid].pc.Checking? && s.threads[tid].pc.key in s.sm.ds
      then Some(FireCheck(s, tid)) else None
    case CheckInum(tid) =>
      if tid in s.threads && s.threads[tid].pc.Admitted? && s.threads[tid].pc.key in s.sm.ds
      then Some(FireCheckInum(s, tid)) else None
    case CheckExists(tid) =>
      if tid in s.threads && s.threads[tid].pc.Matched? && s.threads[tid].pc.key in s.sm.ds
      then Some(FireCheckExists(s, tid)) else None
    case Submit(tid) =>
      if tid in s.threads && s.threads[tid].pc.Passed? then Some(FireSubmit(s, tid)) else None
    case Wake(tid) =>
      if tid in s.threads && s.threads[tid].pc.Waiting?
      then Some(Move(s, tid, Locking(s.threads[tid].pc.key))) else None
    case Append(a) =>
      if a.Acq? || a.Rel? then None else Some(s.(log := s.log + [Entry(a, None)]))
    case ApplyNext =>
      if s.applied < |s.log| then FireApply(s) else None
    case Return(tid) =>
      if tid in s.threads && s.threads[tid].pc.Answered?
      then var pc := s.threads[tid].pc;
           Some(Unlock(Move(s, tid, Finished(StatusOf(pc.reply))), pc.key))
      else None
  }

  // ----- the invariant -----

  predicate HasMutex(pc: Pc) {
    pc.Checking? || pc.Admitted? || pc.Matched? || pc.Passed? || pc.Submitted? || pc.Answered?
  }

  predicate HasKey(pc: Pc) {
    pc.Locking? || pc.Waiting? || HasMutex(pc)
  }

  /** From the end of the wait to the application. */
  predicate PastWait(pc: Pc) {
    pc.Admitted? || PastInum(pc)
  }

  /** From the instance check to the application. */
  predicate PastInum(pc: Pc) {
    pc.Matched? || pc.Passed? || pc.Submitted?
  }

  /** The thread's key is its handle's path, as long as its session lives; the session is no future one. */
  predicate KeyOk(sm: State, t: Thread) {
    HasKey(t.pc) ==>
      && t.pc.key in sm.ds && t.sid < sm.nextId
      && (t.sid in sm.db ==> HasHandle(sm, t.sid, t.fh) && PathOf(sm, t.sid, t.fh) == t.pc.key)
  }

  /** A request would still be granted, its handle is closed if it is not current, and its file is still there. */
  predicate PendingOk(sm: State, t: Thread, eph: set<string>)
    requires Wf(sm)
  {
    && (PastWait(t.pc) && t.kind == AcquireRpc ==> t.pc.key in sm.ds && MayAcquire(sm.ds[t.pc.key], t.ex))
    && (PastInum(t.pc) && t.kind != ReleaseRpc ==>
          t.pc.key in sm.ds && (HandleInum(sm, t.sid, t.fh) == -1 || InumsAgree(sm, t, t.pc.key)))
    && ((t.pc.Passed? || t.pc.Submitted?) && t.kind != ReleaseRpc && t.pc.key !in eph ==>
          t.pc.key in sm.ds && sm.ds[t.pc.key].fileExists)
  }

  /** What a blocking Acquire finds when it asserts success. */
  predicate AnswerOk(t: Thread) {
    t.pc.Answered? && t.kind == AcquireRpc ==>
      t.pc.reply.Response? && (t.pc.reply.res == 0 || t.pc.reply == Response(-1, NOT_FOUND))
  }

  predicate ThreadOk(s: Sys, tid: nat, eph: set<string>)
    requires Wf(s.sm) && tid in s.threads
  {
    var t := s.threads[tid];
    && KeyOk(s.sm, t) && PendingOk(s.sm, t, eph) && AnswerOk(t)
    && (HasMutex(t.pc) ==> t.pc.key in s.mutex && s.mutex[t.pc.key] == tid)
    && (t.pc.Submitted? ==>
          s.applied <= t.pc.idx < |s.log| && s.log[t.pc.idx] == Entry(ActionOf(t), Some(tid)))
  }

  /** A pending lock request belongs to the thread that waits for it. */
  predicate EntryOk(s: Sys, i: nat)
    requires i < |s.log|
  {
    var e := s.log[i];
    && (e.action.Acq? || e.action.Rel? ==> e.tid.Some?)
    && (e.tid.Some? ==>
          && e.tid.value in s.threads && e.action == ActionOf(s.threads[e.tid.value])
          && s.threads[e.tid.value].pc.Submitted? && s.threads[e.tid.value].pc.idx == i)
  }

  predicate OpenOk(e: Entry, eph: set<string>) {
    e.action.Open? && e.action.isEphemeral ==> e.action.path in eph
  }

  predicate SysOk(s: Sys, eph: set<string>) {
    && Wf(s.sm) && s.applied <= |s.log| && OwnersTracked(s.sm, eph) && CountsUp(s.sm)
    && (forall tid | tid in s.threads :: ThreadOk(s, tid, eph))
    && (forall i | s.applied <= i < |s.log| :: EntryOk(s, i))
    && (forall i | s.applied <= i < |s.log| :: OpenOk(s.log[i], eph))
  }

  /** Ephemeral opens stay inside eph. */
  predicate LabelOk(l: Label, eph: set<string>) {
    l.Append? ==> OpenOk(Entry(l.action, None), eph)
  }

  /** A thread step that changes neither store nor log keeps what the others rely on. */
  lemma MoveKeeps(s: Sys, u: Sys, tid: nat, eph: set<string>)
    requires SysOk(s, eph) && u.sm == s.sm && u.applied == s.applied && s.log <= u.log
    requires tid in u.threads && u.threads.Keys == s.threads.Keys + {tid}
    requires forall t | t in s.threads && t != tid :: u.threads[t] == s.threads[t]
    requires forall t | t in s.threads && t != tid && HasMutex(s.threads[t].pc) ::
               var k := s.threads[t].pc.key; k in u.mutex && u.mutex[k] == t
    requires tid in s.threads ==> !s.threads[tid].pc.Submitted?
    requires ThreadOk(u, tid, eph)
    requires forall i | |s.log| <= i < |u.log| :: EntryOk(u, i) && OpenOk(u.log[i], eph)
    ensures SysOk(u, eph)
  {
    forall t | t in u.threads
      ensures ThreadOk(u, t, eph)
    {
      if t != tid { assert ThreadOk(s, t, eph); }
    }
    forall i | u.applied <= i < |u.log|
      ensures EntryOk(u, i) && OpenOk(u.log[i], eph)
    {
      if i < |s.log| {
        assert u.log[i] == s.log[i] && EntryOk(s, i) && OpenOk(s.log[i], eph);
      }
    }
  }

  lemma OthersHold(s: Sys, tid: nat, eph: set<string>)
    requires SysOk(s, eph) && tid in s.threads
    ensures forall t | t in s.threads && t != tid && HasMutex(s.threads[t].pc) ::
              var k := s.threads[t].pc.key; k in s.mutex && s.mutex[k] == t
    ensures ThreadOk(s, tid, eph)
  {
    forall t | t in s.threads && HasMutex(s.threads[t].pc)
      ensures var k := s.threads[t].pc.key; k in s.mutex && s.mutex[k] == t
    {
      assert ThreadOk(s, t, eph);
    }
  }

  lemma SpawnKeeps(s: Sys, l: Label, u: Sys, eph: set<string>)
    requires SysOk(s, eph) && Fire(s, l) == Some(u) && l.Spawn?
    ensures SysOk(u, eph)
  {
    forall t | t in s.threads
      ensures ThreadOk(s, t, eph)
    {
    }
    MoveKeeps(s, u, l.tid, eph);
  }

  lemma LookupKeeps(s: Sys, l: Label, u: Sys, eph: set<string>)
    requires SysOk(s, eph) && Fire(s, l) == Some(u) && l.Lookup?
    ensures SysOk(u, eph)
  {
    OthersHold(s, l.tid, eph);
    assert s.threads[l.tid].sid in s.sm.db ==> WfSession(s.sm.ds, s.sm.db[s.threads[l.tid].sid]);
    MoveKeeps(s, u, l.tid, eph);
  }

  lemma LockKeeps(s: Sys, l: Label, u: Sys, eph: set<string>)
    requires SysOk(s, eph) && Fire(s, l) == Some(u) && l.Lock?
    ensures SysOk(u, eph)
  {
    hide MayAcquire, HandleInum;
    OthersHold(s, l.tid, eph);
    MoveKeeps(s, u, l.tid, eph);
  }

  lemma WakeKeeps(s: Sys, l: Label, u: Sys, eph: set<string>)
    requires SysOk(s, eph) && Fire(s, l) == Some(u) && l.Wake?
    ensures SysOk(u, eph)
  {
    hide MayAcquire, HandleInum;
    OthersHold(s, l.tid, eph);
    MoveKeeps(s, u, l.tid, eph);
  }

  lemma ReturnKeeps(s: Sys, l: Label, u: Sys, eph: set<string>)
    requires SysOk(s, eph) && Fire(s, l) == Some(u) && l.Return?
    ensures SysOk(u, eph)
  {
    hide MayAcquire, HandleInum;
    OthersHold(s, l.tid, eph);
    MoveKeeps(s, u, l.tid, eph);
  }

  lemma CheckKeeps(s: Sys, l: Label, u: Sys, eph: set<string>)
    requires SysOk(s, eph) && Fire(s, l) == Some(u) && l.Check?
    ensures SysOk(u, eph)
  {
    hide MayAcquire, HandleInum;
    OthersHold(s, l.tid, eph);
    MoveKeeps(s, u, l.tid, eph);
  }

  lemma CheckInumKeeps(s: Sys, l: Label, u: Sys, eph: set<string>)
    requires SysOk(s, eph) && Fire(s, l) == Some(u) && l.CheckInum?
    ensures SysOk(u, eph)
  {
    hide MayAcquire, HandleInum;
    OthersHold(s, l.tid, eph);
    MoveKeeps(s, u, l.tid, eph);
  }

  lemma CheckExistsKeeps(s: Sys, l: Label, u: Sys, eph: set<string>)
    requires SysOk(s, eph) && Fire(s, l) == Some(u) && l.CheckExists?
    ensures SysOk(u, eph)
  {
    hide MayAcquire, HandleInum;
    OthersHold(s, l.tid, eph);
    MoveKeeps(s, u, l.tid, eph);
  }

  /** The request is appended, and the mutex kept. */
  lemma SubmitKeeps(s: Sys, l: Label, u: Sys, eph: set<string>)
    requires SysOk(s, eph) && Fire(s, l) == Some(u) && l.Submit?
    ensures SysOk(u, eph)
  {
    hide MayAcquire, HandleInum;
    OthersHold(s, l.tid, eph);
    MoveKeeps(s, u, l.tid, eph);
  }

  lemma AppendKeeps(s: Sys, l: Label, u: Sys, eph: set<string>)
    requires SysOk(s, eph) && Fire(s, l) == Some(u) && l.Append? && LabelOk(l, eph)
    ensures SysOk(u, eph)
  {
    forall t | t in u.threads
      ensures ThreadOk(u, t, eph)
    {
      assert ThreadOk(s, t, eph);
    }
    forall i | u.applied <= i < |u.log|
      ensures EntryOk(u, i) && OpenOk(u.log[i], eph)
    {
      if i < |s.log| { assert EntryOk(s, i) && OpenOk(s.log[i], eph); }
    }
  }

  // ----- applying an entry -----

  /** Only a lock request on p itself can close p's door to a waiting request. */
  lemma StepKeepsMayAcquire(s: State, a: Action, t: State, p: string, ex: bool)
    requires Step(s, a, t) && p in s.ds && MayAcquire(s.ds[p], ex)
    requires !(a.Acq? && HasHandle(s, a.sid, a.fh) && PathOf(s, a.sid, a.fh) == p)
    ensures p in t.ds && MayAcquire(t.ds[p], ex)
  {
    hide CloseFile, ReleaseLock, EndUpTo, OpenFile, DeleteFile;
    match a
    case Open(_, _, _, _) => if a.sid in s.db { OpenKeepsLocks(s.ds, a, |s.db[a.sid].paths|); }
    case Close(_, _) => EasedMayAcquire(s, a, t, p, ex);
    case Rel(_, _) => EasedMayAcquire(s, a, t, p, ex);
    case EndSession(_) => EasedMayAcquire(s, a, t, p, ex);
    case StartSession =>
    case SetContent(_, _, _) =>
    case Acq(_, _, _) =>
    case Delete(sid, fh) =>
      if sid in s.db {
        assert WfSession(s.ds, s.db[sid]);
        DeleteLock(s.ds, PathOf(s, sid, fh), p);
      }
  }

  lemma EasedMayAcquire(s: State, a: Action, t: State, p: string, ex: bool)
    requires Step(s, a, t) && (a.Close? || a.Rel? || a.EndSession?)
    requires p in s.ds && MayAcquire(s.ds[p], ex)
    ensures p in t.ds && MayAcquire(t.ds[p], ex)
  {
    hide Apply;
    StepEases(s, a, t);
    assert FileEased(s.ds[p], t.ds[p], a.sid);
  }

  /** A file that is not ephemeral goes only by a Delete of its path. */
  lemma StepKeepsFile(s: State, a: Action, t: State, p: string)
    requires Step(s, a, t) && p in s.ds && s.ds[p].fileExists && !s.ds[p].isEphemeral && !Deletes(s, a, p)
    ensures p in t.ds && t.ds[p].fileExists
  {
    hide CloseFile, ReleaseLock, EndUpTo, OpenFile, DeleteFile;
    match a
    case Open(_, _, _, _) => if a.sid in s.db { OpenOwners(s.ds, a, |s.db[a.sid].paths|, p); }
    case Close(_, _) => EasedKeepsFile(s, a, t, p);
    case Rel(_, _) => EasedKeepsFile(s, a, t, p);
    case EndSession(_) => EasedKeepsFile(s, a, t, p);
    case StartSession =>
    case SetContent(_, _, _) =>
    case Acq(_, _, _) =>
    case Delete(sid, fh) =>
      if sid in s.db {
        assert WfSession(s.ds, s.db[sid]);
        DeleteOwners(s.ds, PathOf(s, sid, fh), p);
      }
  }

  lemma EasedKeepsFile(s: State, a: Action, t: State, p: string)
    requires Step(s, a, t) && (a.Close? || a.Rel? || a.EndSession?)
    requires p in s.ds && s.ds[p].fileExists && !s.ds[p].isEphemeral
    ensures p in t.ds && t.ds[p].fileExists
  {
    hide Apply;
    StepEases(s, a, t);
    assert FileEased(s.ds[p], t.ds[p], a.sid);
  }

  lemma StepKeepsKey(s: State, a: Action, t: State, th: Thread)
    requires Step(s, a, t) && KeyOk(s, th)
    ensures KeyOk(t, th)
  {
    hide Apply;
    StepSessions(s, a, t);
    if HasKey(th.pc) {
      StepInstance(s, a, t, th.pc.key);
      assert th.sid in t.db ==> th.sid in s.db;
      assert th.sid in t.db ==> SessionStep(s, a, th.sid, s.db[th.sid], t.db[th.sid]);
    }
  }

  /** Whoever else holds a file's mutex, the applied entry neither locks nor deletes that file. */
  lemma KeysApart(s: Sys, tid: nat, eph: set<string>)
    requires SysOk(s, eph) && s.applied < |s.log| && tid in s.threads && HasMutex(s.threads[tid].pc)
    requires Touched(s.sm, s.log[s.applied].action) !! s.mutex.Keys
    requires s.log[s.applied].tid != Some(tid)
    ensures var a, key := s.log[s.applied].action, s.threads[tid].pc.key;
            && key in s.sm.ds && !Deletes(s.sm, a, key)
            && !(a.Acq? && HasHandle(s.sm, a.sid, a.fh) && PathOf(s.sm, a.sid, a.fh) == key)
  {
    var e := s.log[s.applied];
    var key := s.threads[tid].pc.key;
    assert ThreadOk(s, tid, eph) && EntryOk(s, s.applied);
    assert key in s.mutex && s.mutex[key] == tid;
    assert key !in Touched(s.sm, e.action);
    if e.tid.Some? {
      assert ThreadOk(s, e.tid.value, eph);
    }
  }

  lemma PendingKeeps(s: Sys, sm: State, tid: nat, eph: set<string>)
    requires SysOk(s, eph) && s.applied < |s.log| && tid in s.threads
    requires Touched(s.sm, s.log[s.applied].action) !! s.mutex.Keys
    requires s.log[s.applied].tid != Some(tid) && Step(s.sm, s.log[s.applied].action, sm)
    ensures KeyOk(sm, s.threads[tid]) && PendingOk(sm, s.threads[tid], eph) && AnswerOk(s.threads[tid])
  {
    hide Apply, Touched, MayAcquire, HandleInum;
    var a, t := s.log[s.applied].action, s.threads[tid];
    assert ThreadOk(s, tid, eph);
    StepKeepsKey(s.sm, a, sm, t);
    if PastWait(t.pc) {
      KeysApart(s, tid, eph);
      if t.kind == AcquireRpc { StepKeepsMayAcquire(s.sm, a, sm, t.pc.key, t.ex); }
      if PastInum(t.pc) { StepKeepsInum(s.sm, a, sm, t); }
      if (t.pc.Passed? || t.pc.Submitted?) && t.kind != ReleaseRpc && t.pc.key !in eph {
        assert Tracked(s.sm, t.pc.key);
        StepKeepsFile(s.sm, a, sm, t.pc.key);
      }
    }
  }

  /** A handle that was current can be closed by the step, but not be outdated. */
  lemma StepKeepsInum(s: State, a: Action, t: State, th: Thread)
    requires Step(s, a, t) && HasKey(th.pc) && KeyOk(s, th) && !Deletes(s, a, th.pc.key)
    ensures th.pc.key in t.ds && t.ds[th.pc.key].instanceNum == s.ds[th.pc.key].instanceNum
    ensures th.sid in t.db ==> th.sid in s.db
    ensures HandleInum(t, th.sid, th.fh) ==
              if th.sid !in t.db || a == Close(th.sid, th.fh) then -1 else HandleInum(s, th.sid, th.fh)
  {
    hide Apply;
    StepSessions(s, a, t);
    StepInstance(s, a, t, th.pc.key);
    if th.sid in t.db {
      assert SessionStep(s, a, th.sid, s.db[th.sid], t.db[th.sid]);
    }
  }

  /** The applied request itself is granted, or its session is gone. */
  lemma GrantedOrGone(s: Sys, eph: set<string>)
    requires SysOk(s, eph) && s.applied < |s.log| && s.log[s.applied].tid.Some?
    requires Apply(s.sm, s.log[s.applied].action).Done?
    ensures s.log[s.applied].tid.value in s.threads
    ensures var t := s.threads[s.log[s.applied].tid.value];
            var reply := Apply(s.sm, s.log[s.applied].action).reply;
            t.kind == AcquireRpc ==> reply == Response(0, "") || reply == Response(-1, NOT_FOUND)
  {
    assert EntryOk(s, s.applied) && ThreadOk(s, s.log[s.applied].tid.value, eph);
  }

  lemma GuardHolds(s: Sys, eph: set<string>)
    requires SysOk(s, eph) && s.applied < |s.log|
    ensures LockGuard(s.sm, s.log[s.applied].action, eph)
  {
    var e := s.log[s.applied];
    assert EntryOk(s, s.applied) && OpenOk(e, eph);
    if e.tid.Some? { assert ThreadOk(s, e.tid.value, eph); }
  }

  lemma ApplyThreads(s: Sys, u: Sys, eph: set<string>)
    requires SysOk(s, eph) && Fire(s, ApplyNext) == Some(u)
    ensures forall t | t in u.threads :: ThreadOk(u, t, eph)
  {
    hide Apply, Touched;
    var e := s.log[s.applied];
    assert Step(s.sm, e.action, u.sm);
    assert EntryOk(s, s.applied);
    forall t | t in u.threads
      ensures ThreadOk(u, t, eph)
    {
      assert ThreadOk(s, t, eph);
      if e.tid == Some(t) {
        GrantedOrGone(s, eph);
        StepKeepsKey(s.sm, e.action, u.sm, s.threads[t]);
      } else {
        PendingKeeps(s, u.sm, t, eph);
        if s.threads[t].pc.Submitted? { assert s.threads[t].pc.idx != s.applied; }
      }
    }
  }

  lemma ApplyKeeps(s: Sys, l: Label, u: Sys, eph: set<string>)
    requires SysOk(s, eph) && Fire(s, l) == Some(u) && l.ApplyNext?
    ensures SysOk(u, eph)
  {
    hide Apply, Touched, ThreadOk;
    var a := s.log[s.applied].action;
    assert Step(s.sm, a, u.sm);
    GuardHolds(s, eph);
    StepTracks(s.sm, a, u.sm, eph);
    StepCountsUp(s.sm, a, u.sm);
    ApplyThreads(s, u, eph);
    forall i | u.applied <= i < |u.log|
      ensures EntryOk(u, i) && OpenOk(u.log[i], eph)
    {
      assert EntryOk(s, i) && EntryOk(s, s.applied) && OpenOk(s.log[i], eph);
    }
  }

  lemma StepKeeps(s: Sys, l: Label, u: Sys, eph: set<string>)
    requires SysOk(s, eph) && Fire(s, l) == Some(u) && LabelOk(l, eph)
    ensures SysOk(u, eph)
  {
    hide Fire, SysOk;
    match l
    case ApplyNext => ApplyKeeps(s, l, u, eph);
    case Append(_) => AppendKeeps(s, l, u, eph);
    case Check(_) => CheckKeeps(s, l, u, eph);
    case CheckInum(_) => CheckInumKeeps(s, l, u, eph);
    case CheckExists(_) => CheckExistsKeeps(s, l, u, eph);
    case Submit(_) => SubmitKeeps(s, l, u, eph);
    case Spawn(_, _, _, _, _) => SpawnKeeps(s, l, u, eph);
    case Lookup(_) => LookupKeeps(s, l, u, eph);
    case Lock(_) => LockKeeps(s, l, u, eph);
    case Wake(_) => WakeKeeps(s, l, u, eph);
    case Return(_) => ReturnKeeps(s, l, u, eph);
  }

  // ----- every interleaving -----

  predicate SysRun(ss: seq<Sys>, ls: seq<Label>, eph: set<string>) {
    && |ss| == |ls| + 1 && ss[0] == START
    && (forall i | 0 <= i < |ss| :: Wf(ss[i].sm))
    && (forall i | 0 <= i < |ls| :: LabelOk(ls[i], eph) && Fire(ss[i], ls[i]) == Some(ss[i + 1]))
  }

  lemma {:induction false} Reachable(ss: seq<Sys>, ls: seq<Label>, n: nat, eph: set<string>)
    requires SysRun(ss, ls, eph) && n <= |ls|
    ensures SysOk(ss[n], eph)
  {
    hide Fire, SysOk;
    if n == 0 {
      StartOk(eph);
    } else {
      Reachable(ss, ls, n - 1, eph);
      assert LabelOk(ls[n - 1], eph) && Fire(ss[n - 1], ls[n - 1]) == Some(ss[n]);
      StepKeeps(ss[n - 1], ls[n - 1], ss[n], eph);
    }
  }

  lemma StartOk(eph: set<string>)
    ensures SysOk(START, eph)
  {
    assert Parent("/") == "/";
  }

  /**
   The assertion in the blocking Acquire never fails: in every interleaving, when its
   entry was applied, the lock was granted, or the session is gone and the handler has
   returned before it gets to the assertion.
   */
  lemma AcquireNeverFails(ss: seq<Sys>, ls: seq<Label>, n: nat, eph: set<string>, tid: nat)
    requires SysRun(ss, ls, eph) && n <= |ls| && tid in ss[n].threads
    requires ss[n].threads[tid].kind == AcquireRpc && ss[n].threads[tid].pc.Answered?
    ensures var reply := ss[n].threads[tid].pc.reply;
            StatusOf(reply) == Answer(0) || StatusOf(reply) == Aborted(NOT_FOUND)
  {
    Reachable(ss, ls, n, eph);
    assert ThreadOk(ss[n], tid, eph);
  }

  /** From the end of its wait to its application, a blocking Acquire stays grantable. */
  lemma AcquireStaysGrantable(ss: seq<Sys>, ls: seq<Label>, n: nat, eph: set<string>, tid: nat)
    requires SysRun(ss, ls, eph) && n <= |ls| && tid in ss[n].threads
    requires ss[n].threads[tid].kind == AcquireRpc && PastWait(ss[n].threads[tid].pc)
    ensures ss[n].threads[tid].pc.key in ss[n].sm.ds
    ensures MayAcquire(ss[n].sm.ds[ss[n].threads[tid].pc.key], ss[n].threads[tid].ex)
  {
    Reachable(ss, ls, n, eph);
    assert ThreadOk(ss[n], tid, eph);
  }

  /**
   In every interleaving every owner of a file outside eph is a live session with a
   handle on it, and the file exists.
   */
  lemma NoOwnerIsLost(ss: seq<Sys>, ls: seq<Label>, n: nat, eph: set<string>, p: string, sid: int)
    requires SysRun(ss, ls, eph) && n <= |ls|
    requires p in ss[n].sm.ds && p !in eph && sid in ss[n].sm.ds[p].lockOwners
    ensures ss[n].sm.ds[p].fileExists && sid in ss[n].sm.db && p in ss[n].sm.db[sid].paths
  {
    Reachable(ss, ls, n, eph);
    assert Tracked(ss[n].sm, p);
  }

  /** The instance check of the lock RPCs fails for good once the handle was closed or outdated by a Delete. */
  lemma OutdatedFailsTheCheck(states: seq<State>, log: seq<Action>, i: nat, j: nat, n: nat, sid: int, fh: int)
    requires InitRun(states, log) && OpenedAt(states, log, i, sid, fh)
    requires i < j < n <= |log| && Outdates(states, log, j, sid, fh, log[i].path)
    ensures log[i].path in states[n].ds && HandleInum(states[n], sid, fh) != states[n].ds[log[i].path].instanceNum
  {
    InstancesCountUp(states, log, n);
    InstanceStays(states, log, i + 1, n, log[i].path);
    if sid in states[n].db {
      FreshIffUntouched(states, log, i, n, sid, fh);
      assert WfSession(states[n].ds, states[n].db[sid]);
    }
  }

  lemma {:induction false} InstanceStays(states: seq<State>, log: seq<Action>, i: nat, n: nat, p: string)
    requires Run(states, log) && i <= n <= |log|
    requires i > 0 && log[i - 1].Open? && log[i - 1].sid in states[i - 1].db && log[i - 1].path == p
    ensures p in states[n].ds
  {
    hide Apply;
    if i == n {
      assert Step(states[i - 1], log[i - 1], states[i]);
      OpenAdds(states[i - 1], log[i - 1], states[i]);
    } else {
      InstanceStays(states, log, i, n - 1, p);
      assert Step(states[n - 1], log[n - 1], states[n]);
      StepInstance(states[n - 1], log[n - 1], states[n], p);
    }
  }

  lemma OpenAdds(s: State, a: Action, t: State)
    requires Step(s, a, t) && a.Open? && a.sid in s.db
    ensures a.path in t.ds
  {
    hide OpenFile;
  }
}
