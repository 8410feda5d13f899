/**
 How the lock handlers end: every status a handler returns has exactly one cause, at one step
 of the run, and a handler that has not ended can go on unless it waits for a mutex or for
 its entry to be applied.
 */
module LockAnswers {
  import opened Prelude
  import opened Paths
  import opened Store
  import opened Handles
  import opened LockRpc
  import opened LockRuns
  import Answers
  import Contents
  import Coverage
  import Owners
  import Report
  import Subscriptions

  /** The handler's handle is there and names its file. */
  predicate Current(sm: State, t: Thread)
    requires Wf(sm)
  {
    HasHandle(sm, t.sid, t.fh) && Fresh(sm, t.sid, t.fh)
  }

  /** Step m applies the request of the thread, as the thread was asked for it. */
  predicate AppliesFor(ss: seq<Sys>, ls: seq<Label>, m: nat, tid: nat)
    requires m < |ss| && tid in ss[m].threads
  {
    var t := ss[m].threads[tid];
    && Applies(ss, ls, m) && AppliedAt(ss, ls, m).tid == Some(tid)
    && AppliedAt(ss, ls, m).action == if t.kind == ReleaseRpc then Rel(t.sid, t.fh) else Acq(t.sid, t.fh, t.ex)
  }

  /** The lock is free for this mode. */
  predicate Free(f: File, ex: bool) {
    f.lockOwners == {} || (!ex && !f.isLockedEx)
  }

  /** What the applied request finds, for a session that is live. */
  predicate FindsLive(sm: State, t: Thread, st: Status)
    requires Wf(sm)
  {
    && HasHandle(sm, t.sid, t.fh)
    && var p := PathOf(sm, t.sid, t.fh);
       var f := FileAt(sm.ds, p);
       if t.kind != ReleaseRpc then st == Answer(if Free(f, t.ex) then 0 else 1)
       else if !f.fileExists then st == Aborted("file not found")
       else if t.sid in f.lockOwners then st == Answer(0)
       else st == Aborted("the session does not hold this lock")
  }

  predicate FindsNone(t: Thread, st: Status) {
    st == Aborted(if t.kind == ReleaseRpc then "the session does not hold this lock" else NOT_FOUND)
  }

  /** Step m is the cause of the handler's status. */
  predicate Decides(ss: seq<Sys>, ls: seq<Label>, m: nat, tid: nat, st: Status) {
    && m < |ls| && m < |ss| && Wf(ss[m].sm) && tid in ss[m].threads
    && var t, sm := ss[m].threads[tid], ss[m].sm;
       || (ls[m] == Lookup(tid) && t.sid !in sm.db && st == SessionGone)
       || (ls[m] == Lookup(tid) && t.sid in sm.db && !HasHandle(sm, t.sid, t.fh) && st == Threw)
       || (ls[m] == CheckInum(tid) && t.kind != ReleaseRpc && !Current(sm, t) && st == Answer(-1))
       || (ls[m] == CheckExists(tid) && t.kind != ReleaseRpc && HasKey(t.pc)
           && !FileAt(sm.ds, t.pc.key).fileExists && st == Answer(-2))
       || (AppliesFor(ss, ls, m, tid) && if t.sid in sm.db then FindsLive(sm, t, st) else FindsNone(t, st))
  }

  /** The handler has this status, or is about to return it. */
  predicate Settled(pc: Pc, st: Status) {
    pc == Finished(st) || (pc.Answered? && StatusOf(pc.reply) == st)
  }

  // ----- a cause settles the status -----

  lemma LookupSettles(s: Sys, u: Sys, tid: nat)
    requires Wf(s.sm) && Fire(s, Lookup(tid)) == Some(u)
    ensures tid in s.threads && tid in u.threads
    ensures var t, pc := s.threads[tid], u.threads[tid].pc;
            && (pc == Finished(SessionGone) <==> t.sid !in s.sm.db)
            && (pc == Finished(Threw) <==> t.sid in s.sm.db && !HasHandle(s.sm, t.sid, t.fh))
            && (HasHandle(s.sm, t.sid, t.fh) ==> pc == Locking(PathOf(s.sm, t.sid, t.fh)))
  {
  }

  lemma InumSettles(s: Sys, u: Sys, tid: nat, eph: set<string>)
    requires SysOk(s, eph) && Fire(s, CheckInum(tid)) == Some(u)
    ensures tid in s.threads && tid in u.threads
    ensures var t, pc := s.threads[tid], u.threads[tid].pc;
            if t.kind != ReleaseRpc && !Current(s.sm, t) then pc == Finished(Answer(-1)) else pc.Matched?
  {
    assert ThreadOk(s, tid, eph);
    var t := s.threads[tid];
    if t.sid in s.sm.db { assert WfSession(s.sm.ds, s.sm.db[t.sid]); }
  }

  lemma ExistsSettles(s: Sys, u: Sys, tid: nat)
    requires Wf(s.sm) && Fire(s, CheckExists(tid)) == Some(u)
    ensures tid in s.threads && tid in u.threads && HasKey(s.threads[tid].pc)
    ensures var t, pc := s.threads[tid], u.threads[tid].pc;
            if t.kind != ReleaseRpc && !FileAt(s.sm.ds, t.pc.key).fileExists then pc == Finished(Answer(-2))
            else pc.Passed?
  {
  }

  lemma ApplySettles(ss: seq<Sys>, ls: seq<Label>, m: nat, eph: set<string>, tid: nat)
    requires SysRun(ss, ls, eph) && Applies(ss, ls, m) && AppliedAt(ss, ls, m).tid == Some(tid)
    ensures tid in ss[m].threads && tid in ss[m + 1].threads && AppliesFor(ss, ls, m, tid)
    ensures var t, sm, pc := ss[m].threads[tid], ss[m].sm, ss[m + 1].threads[tid].pc;
            && pc.Answered?
            && if t.sid in sm.db then FindsLive(sm, t, StatusOf(pc.reply)) else FindsNone(t, StatusOf(pc.reply))
  {
    Reachable(ss, ls, m, eph);
    var s := ss[m];
    var a := AppliedAt(ss, ls, m).action;
    assert Fire(s, ls[m]) == Some(ss[m + 1]);
    OwnEntry(s, eph);
    StoreStep(ss, ls, m, eph);
    ReplyTaken(s, ss[m + 1], tid);
    hide Apply, Touched, SysOk, Fire;
    if a.Rel? {
      Answers.RelOneState(s.sm, a);
    } else {
      Answers.AcqAnswer(s.sm, a);
    }
  }

  lemma OwnEntry(s: Sys, eph: set<string>)
    requires SysOk(s, eph) && s.applied < |s.log| && s.log[s.applied].tid.Some?
    ensures s.log[s.applied].tid.value in s.threads
    ensures var t := s.threads[s.log[s.applied].tid.value];
            && t.pc.Submitted?
            && s.log[s.applied].action == if t.kind == ReleaseRpc then Rel(t.sid, t.fh) else Acq(t.sid, t.fh, t.ex)
  {
    assert EntryOk(s, s.applied);
  }

  lemma ReplyTaken(s: Sys, u: Sys, tid: nat)
    requires Wf(s.sm) && Fire(s, ApplyNext) == Some(u) && s.applied < |s.log| && s.log[s.applied].tid == Some(tid)
    requires tid in s.threads && s.threads[tid].pc.Submitted?
    ensures tid in u.threads && Apply(s.sm, s.log[s.applied].action).Done?
    ensures u.threads[tid].pc == Answered(s.threads[tid].pc.key, Apply(s.sm, s.log[s.applied].action).reply)
  {
    hide Apply, Touched;
  }

  lemma DecidesSettles(ss: seq<Sys>, ls: seq<Label>, m: nat, eph: set<string>, tid: nat, st: Status)
    requires SysRun(ss, ls, eph) && Decides(ss, ls, m, tid, st)
    ensures tid in ss[m + 1].threads && Settled(ss[m + 1].threads[tid].pc, st)
  {
    Reachable(ss, ls, m, eph);
    assert Fire(ss[m], ls[m]) == Some(ss[m + 1]);
    hide Fire, SysOk, Current, FindsLive, FindsNone;
    match ls[m]
    case Lookup(_) => LookupSettles(ss[m], ss[m + 1], tid);
    case CheckInum(_) => InumSettles(ss[m], ss[m + 1], tid, eph);
    case CheckExists(_) => ExistsSettles(ss[m], ss[m + 1], tid);
    case ApplyNext =>
      ApplySettles(ss, ls, m, eph, tid);
      OneFinding(ss[m].sm, ss[m].threads[tid], st, StatusOf(ss[m + 1].threads[tid].pc.reply));
  }

  lemma OneFinding(sm: State, t: Thread, x: Status, y: Status)
    requires Wf(sm)
    ensures FindsLive(sm, t, x) && FindsLive(sm, t, y) ==> x == y
    ensures FindsNone(t, x) && FindsNone(t, y) ==> x == y
  {
  }

  lemma {:induction false} StaysSettled(ss: seq<Sys>, ls: seq<Label>, m: nat, n: nat, eph: set<string>,
                                        tid: nat, st: Status)
    requires SysRun(ss, ls, eph) && m <= n <= |ls| && tid in ss[m].threads && Settled(ss[m].threads[tid].pc, st)
    ensures tid in ss[n].threads && Settled(ss[n].threads[tid].pc, st)
  {
    hide Fire, StatusOf;
    if m < n {
      StaysSettled(ss, ls, m, n - 1, eph, tid, st);
      assert Fire(ss[n - 1], ls[n - 1]) == Some(ss[n]);
      SettledStep(ss[n - 1], ls[n - 1], ss[n], tid, st);
    }
  }

  lemma SettledStep(s: Sys, l: Label, u: Sys, tid: nat, st: Status)
    requires Wf(s.sm) && Fire(s, l) == Some(u) && tid in s.threads && Settled(s.threads[tid].pc, st)
    ensures tid in u.threads && Settled(u.threads[tid].pc, st)
  {
    hide Apply, Touched, HandleInum, StatusOf;
  }

  // ----- a status has a cause -----

  /** A step that settles a handler's status decides it. */
  lemma SettlingDecides(ss: seq<Sys>, ls: seq<Label>, m: nat, eph: set<string>, tid: nat, st: Status)
    requires SysRun(ss, ls, eph) && m < |ls| && tid in ss[m + 1].threads && Settled(ss[m + 1].threads[tid].pc, st)
    requires tid in ss[m].threads ==> !Settled(ss[m].threads[tid].pc, st)
    ensures Decides(ss, ls, m, tid, st)
  {
    Reachable(ss, ls, m, eph);
    assert Fire(ss[m], ls[m]) == Some(ss[m + 1]);
    SettlesHow(ss[m], ls[m], ss[m + 1], tid, st);
    hide Fire, SysOk, Current, FindsLive, FindsNone, StatusOf;
    match ls[m]
    case Lookup(_) => LookupSettles(ss[m], ss[m + 1], tid);
    case CheckInum(_) => InumSettles(ss[m], ss[m + 1], tid, eph);
    case CheckExists(_) => ExistsSettles(ss[m], ss[m + 1], tid);
    case ApplyNext => ApplySettles(ss, ls, m, eph, tid);
  }

  lemma SettlesHow(s: Sys, l: Label, u: Sys, tid: nat, st: Status)
    requires Wf(s.sm) && Fire(s, l) == Some(u) && tid in u.threads && Settled(u.threads[tid].pc, st)
    requires tid in s.threads ==> !Settled(s.threads[tid].pc, st)
    ensures tid in s.threads
    ensures l == Lookup(tid) || l == CheckInum(tid) || l == CheckExists(tid)
            || (l == ApplyNext && s.applied < |s.log| && s.log[s.applied].tid == Some(tid))
  {
    hide Apply, Touched, HandleInum, StatusOf;
  }

  lemma {:induction false} CauseOf(ss: seq<Sys>, ls: seq<Label>, n: nat, eph: set<string>, tid: nat, st: Status)
    returns (m: nat)
    requires SysRun(ss, ls, eph) && n <= |ls| && tid in ss[n].threads && Settled(ss[n].threads[tid].pc, st)
    ensures m < n && Decides(ss, ls, m, tid, st)
  {
    hide Fire, Settled, Decides;
    assert n > 0;
    if tid in ss[n - 1].threads && Settled(ss[n - 1].threads[tid].pc, st) {
      m := CauseOf(ss, ls, n - 1, eph, tid, st);
    } else {
      m := n - 1;
      SettlingDecides(ss, ls, n - 1, eph, tid, st);
    }
  }

  /**
   In every interleaving a handler that has ended returned a status exactly if that status
   has its cause at some step before.
   */
  lemma EndsAsDecided(ss: seq<Sys>, ls: seq<Label>, n: nat, eph: set<string>, tid: nat, st: Status)
    requires SysRun(ss, ls, eph) && n <= |ls| && tid in ss[n].threads && ss[n].threads[tid].pc.Finished?
    ensures ss[n].threads[tid].pc == Finished(st) <==> exists m | 0 <= m < n :: Decides(ss, ls, m, tid, st)
  {
    hide Fire, Decides;
    if ss[n].threads[tid].pc == Finished(st) {
      var m := CauseOf(ss, ls, n, eph, tid, st);
    }
    if m :| 0 <= m < n && Decides(ss, ls, m, tid, st) {
      DecidesSettles(ss, ls, m, eph, tid, st);
      StaysSettled(ss, ls, m + 1, n, eph, tid, st);
    }
  }

  /** An acquire request of either kind that has ended was answered 0 exactly if it was granted. */
  lemma AnsweredZeroIff(ss: seq<Sys>, ls: seq<Label>, n: nat, eph: set<string>, tid: nat)
    requires SysRun(ss, ls, eph) && n <= |ls| && tid in ss[n].threads && ss[n].threads[tid].pc.Finished?
    requires ss[n].threads[tid].kind != ReleaseRpc
    ensures ss[n].threads[tid].pc == Finished(Answer(0))
       <==> exists m | 0 <= m < n :: Applies(ss, ls, m) && GrantsAt(ss, ls, m, tid)
  {
    hide Fire, GrantsAt, Decides;
    EndsAsDecided(ss, ls, n, eph, tid, Answer(0));
    forall m | 0 <= m < n
      ensures Decides(ss, ls, m, tid, Answer(0)) <==> Applies(ss, ls, m) && GrantsAt(ss, ls, m, tid)
    {
      SameThread(ss, ls, m, n, eph, tid);
      GrantDecides(ss, ls, m, eph, tid);
    }
  }

  /** It was answered 1 exactly if it was applied for a live session while the lock was taken. */
  lemma AnsweredOneIff(ss: seq<Sys>, ls: seq<Label>, n: nat, eph: set<string>, tid: nat)
    requires SysRun(ss, ls, eph) && n <= |ls| && tid in ss[n].threads && ss[n].threads[tid].pc.Finished?
    requires ss[n].threads[tid].kind != ReleaseRpc
    ensures ss[n].threads[tid].pc == Finished(Answer(1)) <==> exists m | 0 <= m < n :: RefusedAt(ss, ls, m, tid)
  {
    hide Fire, RefusedAt, Decides;
    EndsAsDecided(ss, ls, n, eph, tid, Answer(1));
    forall m | 0 <= m < n
      ensures Decides(ss, ls, m, tid, Answer(1)) <==> RefusedAt(ss, ls, m, tid)
    {
      SameThread(ss, ls, m, n, eph, tid);
      RefusalDecides(ss, ls, m, tid);
    }
  }

  predicate RefusedAt(ss: seq<Sys>, ls: seq<Label>, m: nat, tid: nat) {
    && m < |ls| && m < |ss| && Wf(ss[m].sm) && tid in ss[m].threads && AppliesFor(ss, ls, m, tid)
    && var t, sm := ss[m].threads[tid], ss[m].sm;
       HasHandle(sm, t.sid, t.fh) && !Free(FileAt(sm.ds, PathOf(sm, t.sid, t.fh)), t.ex)
  }

  lemma RefusalDecides(ss: seq<Sys>, ls: seq<Label>, m: nat, tid: nat)
    requires tid in (if m < |ss| then ss[m].threads else map[]) ==> ss[m].threads[tid].kind != ReleaseRpc
    ensures Decides(ss, ls, m, tid, Answer(1)) <==> RefusedAt(ss, ls, m, tid)
  {
    hide Free;
  }

  lemma GrantDecides(ss: seq<Sys>, ls: seq<Label>, m: nat, eph: set<string>, tid: nat)
    requires SysRun(ss, ls, eph) && m < |ls|
    requires tid in ss[m].threads ==> ss[m].threads[tid].kind != ReleaseRpc
    ensures Decides(ss, ls, m, tid, Answer(0)) <==> Applies(ss, ls, m) && GrantsAt(ss, ls, m, tid)
  {
    hide Fire, Current;
    if Applies(ss, ls, m) && AppliedAt(ss, ls, m).tid == Some(tid) {
      ApplySettles(ss, ls, m, eph, tid);
      StoreStep(ss, ls, m, eph);
      var a := AppliedAt(ss, ls, m).action;
      Answers.AcqAnswer(ss[m].sm, a);
      hide Apply;
    }
  }

  /** What a thread was asked for never changes. */
  lemma {:induction false} SameThread(ss: seq<Sys>, ls: seq<Label>, m: nat, n: nat, eph: set<string>, tid: nat)
    requires SysRun(ss, ls, eph) && m <= n <= |ls|
    ensures tid in ss[m].threads ==>
              tid in ss[n].threads && ss[n].threads[tid] == ss[m].threads[tid].(pc := ss[n].threads[tid].pc)
  {
    hide Fire;
    if m < n {
      SameThread(ss, ls, m, n - 1, eph, tid);
      assert Fire(ss[n - 1], ls[n - 1]) == Some(ss[n]);
      if tid in ss[n - 1].threads { StageGrows(ss[n - 1], ls[n - 1], ss[n], tid); }
    }
  }

  // ----- going on -----

  /** The step with which the thread goes on. */
  function NextStep(t: Thread, tid: nat): Label {
    match t.pc
    case Entered => Lookup(tid)
    case Locking(_) => Lock(tid)
    case Checking(_) => Check(tid)
    case Waiting(_) => Wake(tid)
    case Admitted(_) => CheckInum(tid)
    case Matched(_) => CheckExists(tid)
    case Passed(_) => Submit(tid)
    case Submitted(_, _) => ApplyNext
    case Answered(_, _) => Return(tid)
    case Finished(_) => ApplyNext
  }

  /** A handler goes on unless it has ended, its mutex is taken, or its entry is still to be applied. */
  lemma CanGoOn(ss: seq<Sys>, ls: seq<Label>, n: nat, eph: set<string>, tid: nat)
    requires SysRun(ss, ls, eph) && n <= |ls| && tid in ss[n].threads
    requires var pc := ss[n].threads[tid].pc;
             !pc.Finished? && !pc.Submitted? && !(pc.Locking? && pc.key in ss[n].mutex)
    ensures Fire(ss[n], NextStep(ss[n].threads[tid], tid)).Some?
  {
    Reachable(ss, ls, n, eph);
    assert ThreadOk(ss[n], tid, eph);
    hide HandleInum, StatusOf;
  }

  /** The first check lets a blocking Acquire pass exactly if the lock is free for it, and the other handlers always. */
  lemma AdmittedIff(ss: seq<Sys>, ls: seq<Label>, n: nat, eph: set<string>, tid: nat)
    requires SysRun(ss, ls, eph) && n < |ls| && ls[n] == Check(tid)
    ensures tid in ss[n].threads && HasKey(ss[n].threads[tid].pc) && tid in ss[n + 1].threads
    ensures var t, u := ss[n].threads[tid], ss[n + 1].threads[tid];
            var passes := t.kind != AcquireRpc || Free(FileAt(ss[n].sm.ds, t.pc.key), t.ex);
            && (u.pc == Admitted(t.pc.key) <==> passes)
            && (u.pc == Waiting(t.pc.key) && t.pc.key !in ss[n + 1].mutex <==> !passes)
  {
    assert Fire(ss[n], ls[n]) == Some(ss[n + 1]);
    Reachable(ss, ls, n, eph);
    assert ThreadOk(ss[n], tid, eph);
    hide HandleInum;
  }

  /** A handler that ends has given its mutex up. */
  lemma EndedHoldsNothing(ss: seq<Sys>, ls: seq<Label>, n: nat, eph: set<string>, key: string)
    requires SysRun(ss, ls, eph) && n <= |ls| && key in ss[n].mutex
    ensures ss[n].mutex[key] in ss[n].threads
    ensures var pc := ss[n].threads[ss[n].mutex[key]].pc; HasMutex(pc) && pc.key == key
  {
    HolderHolds(ss, ls, n, eph);
  }

  predicate HoldersOk(s: Sys) {
    forall key | key in s.mutex ::
      s.mutex[key] in s.threads && HasMutex(s.threads[s.mutex[key]].pc) && s.threads[s.mutex[key]].pc.key == key
  }

  lemma HoldersStep(s: Sys, l: Label, u: Sys)
    requires Wf(s.sm) && Fire(s, l) == Some(u) && HoldersOk(s)
    ensures HoldersOk(u)
  {
    hide Apply, Touched, HandleInum;
  }

  lemma {:induction false} HolderHolds(ss: seq<Sys>, ls: seq<Label>, n: nat, eph: set<string>)
    requires SysRun(ss, ls, eph) && n <= |ls|
    ensures HoldersOk(ss[n])
  {
    hide Fire;
    if n > 0 {
      HolderHolds(ss, ls, n - 1, eph);
      assert Fire(ss[n - 1], ls[n - 1]) == Some(ss[n]);
      HoldersStep(ss[n - 1], ls[n - 1], ss[n]);
    }
  }

  // ----- edits of listings -----

  /** A listing entry is erased by closing a handle only if the file vanishes with it. */
  lemma ErasedVanishes(s: State, sid: int, fh: int)
    requires Wf(s) && HasHandle(s, sid, fh)
    ensures var c := CloseFile(s, sid, fh);
            c.item.Some? ==> Owners.VanishesWith(s, sid, fh) && c.item.value.dir == Parent(PathOf(s, sid, fh))
  {
    assert WfSession(s.ds, s.db[sid]);
    var key := PathOf(s, sid, fh);
    Owners.OnlySubscriber(s.ds[key], sid);
    Contents.ErasedItem(s.ds, sid, key);
    ErasedOnlyLast(s.ds, sid, key);
    hide Unsubscribe;
  }

  lemma ErasedOnlyLast(ds: map<string, File>, sid: int, key: string)
    requires key in ds && Parent(key) in ds
    ensures Unsubscribe(ds, sid, key).item.Some? ==>
              ds[key].isEphemeral && sid in ds[key].subscribers && ds[key].subscribers - {sid} == map[]
  {
    hide Unlist;
  }

  lemma CloseEdits(done: Ended, sid: int, fh: nat, d: string)
    requires Wf(done.st) && HasHandle(done.st, sid, fh) && d in done.st.ds
    requires EndOne(done, sid, fh).st.ds[d].content != done.st.ds[d].content
    ensures Owners.VanishesWith(done.st, sid, fh) && d == Parent(PathOf(done.st, sid, fh))
  {
    Report.EndOneContent(done, sid, fh, d);
    ErasedVanishes(done.st, sid, fh);
    hide EndOne, CloseFile, Owners.VanishesWith;
  }

  /** One of the session's first n handles takes an ephemeral child of d with it. */
  predicate EditedBy(s: State, sid: int, n: nat, d: string)
    requires Wf(s) && sid in s.db && n <= |s.db[sid].paths|
  {
    exists k | 0 <= k < n :: Owners.VanishesWith(s, sid, k) && d == Parent(PathOf(s, sid, k))
  }

  lemma {:induction false} EndEdits(s: State, sid: int, n: nat, d: string)
    requires Wf(s) && sid in s.db && n <= |s.db[sid].paths| && d in s.ds
    ensures EndUpTo(s, sid, n).st.ds[d].content != s.ds[d].content ==> EditedBy(s, sid, n, d)
  {
    hide EndOne, Owners.VanishesWith;
    if n > 0 {
      EndEdits(s, sid, n - 1, d);
      var r := EndUpTo(s, sid, n - 1);
      if EndOne(r, sid, n - 1).st.ds[d].content != r.st.ds[d].content {
        CloseEdits(r, sid, n - 1, d);
        VanishedBefore(s, sid, n - 1);
      }
    }
  }

  /** A file that vanishes with the loop's turn would have vanished with that handle from the start. */
  lemma VanishedBefore(s: State, sid: int, fh: nat)
    requires Wf(s) && sid in s.db && fh < |s.db[sid].paths|
    requires Owners.VanishesWith(EndUpTo(s, sid, fh).st, sid, fh)
    ensures Owners.VanishesWith(s, sid, fh)
  {
    assert WfSession(s.ds, s.db[sid]);
    var p := PathOf(s, sid, fh);
    Subscriptions.TurnsEffect(s, sid, fh, p);
    hide EndUpTo, Subscriptions.Touches;
    assert sid !in s.ds[p].subscribers - {sid};
  }

  lemma EditTouches(s: State, a: Action, t: State, d: string)
    requires Wf(s) && Step(s, a, t) && !a.SetContent? && Coverage.Changes(s, t, d)
    ensures d in Touched(s, a)
  {
    match a
    case Open(_, _, _, _) => OpenTouches(s, a, t, d);
    case Close(_, _) => CloseTouches(s, a, t, d);
    case EndSession(_) => EndTouches(s, a, t, d);
    case Delete(_, _) => DeleteTouches(s, a, t, d);
    case _ => NothingTouched(s, a, t, d);
  }

  lemma OpenTouches(s: State, a: Action, t: State, d: string)
    requires Wf(s) && Step(s, a, t) && a.Open? && Coverage.Changes(s, t, d)
    ensures d in Touched(s, a)
  {
    if a.sid in s.db { OpenedTouches(s.ds, a, |s.db[a.sid].paths|, d); }
    hide OpenFile;
  }

  lemma OpenedTouches(ds: map<string, File>, a: Action, fh: int, d: string)
    requires a.Open? && OpenFile(ds, a, fh).Some?
    requires FileAt(OpenFile(ds, a, fh).value, d).content != FileAt(ds, d).content
    ensures d == Parent(a.path) && a.path != "/" && !FileAt(ds, a.path).fileExists
  {
    hide Parent, Filename;
  }

  lemma CloseTouches(s: State, a: Action, t: State, d: string)
    requires Wf(s) && Step(s, a, t) && a.Close? && Coverage.Changes(s, t, d)
    ensures d in Touched(s, a)
  {
    hide CloseFile, ReleaseLock, Owners.VanishesWith;
    Contents.KeysSame(s, a, t);
    if a.sid in s.db && d in s.ds { CloseEdits(Ended(s, [], {}), a.sid, a.fh, d); }
  }

  lemma EndTouches(s: State, a: Action, t: State, d: string)
    requires Wf(s) && Step(s, a, t) && a.EndSession? && Coverage.Changes(s, t, d)
    ensures d in Touched(s, a)
  {
    hide EndUpTo, Owners.VanishesWith;
    Contents.KeysSame(s, a, t);
    if a.sid in s.db && d in s.ds { EndEdits(s, a.sid, |s.db[a.sid].paths|, d); }
  }

  lemma DeleteTouches(s: State, a: Action, t: State, d: string)
    requires Wf(s) && Step(s, a, t) && a.Delete? && Coverage.Changes(s, t, d)
    ensures d in Touched(s, a)
  {
    hide DeleteFile;
    Contents.KeysSame(s, a, t);
    if a.sid in s.db && d in s.ds {
      assert WfSession(s.ds, s.db[a.sid]);
      Coverage.DeleteChanges(s.ds, PathOf(s, a.sid, a.fh), d);
    }
  }

  lemma NothingTouched(s: State, a: Action, t: State, d: string)
    requires Wf(s) && Step(s, a, t) && (a.Acq? || a.Rel? || a.StartSession?)
    ensures !Coverage.Changes(s, t, d)
  {
    Coverage.LocksCovered(s, a, t, d);
  }

  /** An entry other than a SetContent changes a content only while nobody holds that path's mutex. */
  lemma EditsWaitForTheMutex(ss: seq<Sys>, ls: seq<Label>, m: nat, eph: set<string>, d: string)
    requires SysRun(ss, ls, eph) && Applies(ss, ls, m) && !AppliedAt(ss, ls, m).action.SetContent?
    requires Coverage.Changes(ss[m].sm, ss[m + 1].sm, d)
    ensures d !in ss[m].mutex
  {
    StoreStep(ss, ls, m, eph);
    hide Apply, Touched, Fire;
    EditTouches(ss[m].sm, AppliedAt(ss, ls, m).action, ss[m + 1].sm, d);
  }

  /** A handler needs a new number; other RPCs append anything but lock requests; an entry waits for its mutexes. */
  lemma OthersCanGoOn(ss: seq<Sys>, ls: seq<Label>, n: nat, eph: set<string>, tid: nat, kind: Kind, sid: int, fh: int,
                      ex: bool, a: Action)
    requires SysRun(ss, ls, eph) && n <= |ls|
    ensures Fire(ss[n], Spawn(tid, kind, sid, fh, ex)).Some? <==> tid !in ss[n].threads
    ensures Fire(ss[n], Append(a)).Some? <==> !a.Acq? && !a.Rel?
    ensures Fire(ss[n], ApplyNext).Some? <==>
              && ss[n].applied < |ss[n].log|
              && Touched(ss[n].sm, ss[n].log[ss[n].applied].action) !! ss[n].mutex.Keys
              && Apply(ss[n].sm, ss[n].log[ss[n].applied].action).Done?
  {
    Reachable(ss, ls, n, eph);
    hide Apply, Touched;
  }
}
