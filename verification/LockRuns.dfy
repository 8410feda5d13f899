/**
 What a lock handler's instance check is worth by the time its request is applied: a Delete
 of the file cannot come in between, a Close of the handle can.
 */
module LockRuns {
  import opened Prelude
  import opened Paths
  import opened Store
  import opened Handles
  import opened LockRpc

  /** How far a handler got after its instance check. */
  function Stage(pc: Pc): nat {
    match pc
    case Matched(_) => 1
    case Passed(_) => 2
    case Submitted(_, _) => 3
    case Answered(_, _) => 4
    case Finished(_) => 5
    case _ => 0
  }

  /** Past its instance check a handler only goes on; who and what it serves never changes. */
  lemma StageGrows(s: Sys, l: Label, u: Sys, tid: nat)
    requires Wf(s.sm) && Fire(s, l) == Some(u) && tid in s.threads
    ensures tid in u.threads && u.threads[tid] == s.threads[tid].(pc := u.threads[tid].pc)
    ensures Stage(s.threads[tid].pc) > 0 ==> Stage(u.threads[tid].pc) >= Stage(s.threads[tid].pc)
    ensures PastInum(s.threads[tid].pc) && PastInum(u.threads[tid].pc) ==>
              u.threads[tid].pc.key == s.threads[tid].pc.key
  {
    hide Apply, Touched, HandleInum;
  }

  lemma {:induction false} StagesGrow(ss: seq<Sys>, ls: seq<Label>, m: nat, n: nat, eph: set<string>, tid: nat)
    requires SysRun(ss, ls, eph) && m <= n <= |ls| && tid in ss[m].threads && Stage(ss[m].threads[tid].pc) > 0
    ensures tid in ss[n].threads && Stage(ss[n].threads[tid].pc) >= Stage(ss[m].threads[tid].pc)
    ensures ss[n].threads[tid] == ss[m].threads[tid].(pc := ss[n].threads[tid].pc)
    ensures PastInum(ss[n].threads[tid].pc) ==>
              PastInum(ss[m].threads[tid].pc) && ss[n].threads[tid].pc.key == ss[m].threads[tid].pc.key
  {
    hide Fire;
    if m < n {
      StagesGrow(ss, ls, m, n - 1, eph, tid);
      assert Fire(ss[n - 1], ls[n - 1]) == Some(ss[n]);
      StageGrows(ss[n - 1], ls[n - 1], ss[n], tid);
    }
  }

  /** Step m applies an entry. */
  predicate Applies(ss: seq<Sys>, ls: seq<Label>, m: nat) {
    m < |ls| && m < |ss| && ls[m] == ApplyNext && ss[m].applied < |ss[m].log|
  }

  function AppliedAt(ss: seq<Sys>, ls: seq<Label>, m: nat): Entry
    requires Applies(ss, ls, m)
  {
    ss[m].log[ss[m].applied]
  }

  predicate ClosesAt(ss: seq<Sys>, ls: seq<Label>, m: nat, sid: int, fh: int) {
    Applies(ss, ls, m) && AppliedAt(ss, ls, m).action == Close(sid, fh)
  }

  /** A step changes the store only by applying an entry. */
  lemma StoreStep(ss: seq<Sys>, ls: seq<Label>, m: nat, eph: set<string>)
    requires SysRun(ss, ls, eph) && m < |ls|
    ensures Applies(ss, ls, m) <==> ls[m] == ApplyNext
    ensures Applies(ss, ls, m) ==> Step(ss[m].sm, AppliedAt(ss, ls, m).action, ss[m + 1].sm)
                                   && Touched(ss[m].sm, AppliedAt(ss, ls, m).action) !! ss[m].mutex.Keys
    ensures !Applies(ss, ls, m) ==> ss[m + 1].sm == ss[m].sm
  {
    hide Apply, Touched, HandleInum;
    assert Fire(ss[m], ls[m]) == Some(ss[m + 1]);
  }

  /** Its request's handle, one step of the system later. */
  lemma InumStep(ss: seq<Sys>, ls: seq<Label>, m: nat, eph: set<string>, tid: nat)
    requires SysRun(ss, ls, eph) && m < |ls| && tid in ss[m].threads && tid in ss[m + 1].threads
    requires PastInum(ss[m].threads[tid].pc) && PastInum(ss[m + 1].threads[tid].pc)
    ensures var t := ss[m].threads[tid];
            var key := t.pc.key;
            && key in ss[m].sm.ds && key in ss[m + 1].sm.ds
            && ss[m + 1].sm.ds[key].instanceNum == ss[m].sm.ds[key].instanceNum
            && (t.sid in ss[m + 1].sm.db ==> t.sid in ss[m].sm.db)
            && (t.sid in ss[m + 1].sm.db ==>
                  HandleInum(ss[m + 1].sm, t.sid, t.fh) ==
                    if ClosesAt(ss, ls, m, t.sid, t.fh) then -1 else HandleInum(ss[m].sm, t.sid, t.fh))
  {
    hide Fire, Apply, Touched, HandleInum;
    var t := ss[m].threads[tid];
    Reachable(ss, ls, m, eph);
    assert ThreadOk(ss[m], tid, eph);
    StoreStep(ss, ls, m, eph);
    if Applies(ss, ls, m) {
      NotItself(ss, ls, m, eph, tid);
      KeysApart(ss[m], tid, eph);
      StepKeepsInum(ss[m].sm, AppliedAt(ss, ls, m).action, ss[m + 1].sm, t);
    }
  }

  /** The applied entry is not the thread's own request if the thread still waits afterwards. */
  lemma NotItself(ss: seq<Sys>, ls: seq<Label>, m: nat, eph: set<string>, tid: nat)
    requires SysRun(ss, ls, eph) && Applies(ss, ls, m) && tid in ss[m].threads && tid in ss[m + 1].threads
    requires PastInum(ss[m + 1].threads[tid].pc)
    ensures AppliedAt(ss, ls, m).tid != Some(tid)
  {
    Reachable(ss, ls, m, eph);
    hide Apply, Touched, ThreadOk;
    assert Fire(ss[m], ls[m]) == Some(ss[m + 1]);
    assert EntryOk(ss[m], ss[m].applied);
  }

  /** The thread's instance check succeeds at step c. */
  predicate ChecksAt(ss: seq<Sys>, ls: seq<Label>, c: nat, tid: nat)
    requires |ss| == |ls| + 1
  {
    && c < |ls| && ls[c] == CheckInum(tid)
    && tid in ss[c + 1].threads && ss[c + 1].threads[tid].pc.Matched? && ss[c + 1].threads[tid].kind != ReleaseRpc
  }

  lemma CheckedCurrent(ss: seq<Sys>, ls: seq<Label>, c: nat, eph: set<string>, tid: nat)
    requires SysRun(ss, ls, eph) && ChecksAt(ss, ls, c, tid)
    ensures var t, sm := ss[c + 1].threads[tid], ss[c + 1].sm; t.pc.key in sm.ds && InumsAgree(sm, t, t.pc.key)
  {
    hide HandleInum;
    assert Fire(ss[c], ls[c]) == Some(ss[c + 1]);
  }

  /** From the check on, the handle of a live session is closed or unchanged, and its file's instance stays. */
  lemma {:induction false} SinceCheck(ss: seq<Sys>, ls: seq<Label>, c: nat, n: nat, eph: set<string>, tid: nat)
    requires SysRun(ss, ls, eph) && ChecksAt(ss, ls, c, tid) && c < n <= |ls|
    requires tid in ss[n].threads && PastInum(ss[n].threads[tid].pc)
    ensures var t, key := ss[n].threads[tid], ss[n].threads[tid].pc.key;
            && key in ss[n].sm.ds && key in ss[c + 1].sm.ds
            && ss[n].sm.ds[key].instanceNum == ss[c + 1].sm.ds[key].instanceNum
            && (t.sid in ss[n].sm.db ==>
                  HandleInum(ss[n].sm, t.sid, t.fh) ==
                    if exists m | c < m < n :: ClosesAt(ss, ls, m, t.sid, t.fh) then -1
                    else ss[n].sm.ds[key].instanceNum)
  {
    hide Fire, HandleInum, ClosesAt;
    CheckedCurrent(ss, ls, c, eph, tid);
    if n > c + 1 {
      StagesGrow(ss, ls, c + 1, n - 1, eph, tid);
      StagesGrow(ss, ls, n - 1, n, eph, tid);
      SinceCheck(ss, ls, c, n - 1, eph, tid);
      InumStep(ss, ls, n - 1, eph, tid);
      var t := ss[n].threads[tid];
      if ClosesAt(ss, ls, n - 1, t.sid, t.fh) {
      } else if exists m | c < m < n :: ClosesAt(ss, ls, m, t.sid, t.fh) {
        var m :| c < m < n && ClosesAt(ss, ls, m, t.sid, t.fh);
        assert c < m < n - 1;
      }
    }
  }

  /** Step n applies the thread's lock request, and it is granted to a live session. */
  predicate GrantsAt(ss: seq<Sys>, ls: seq<Label>, n: nat, tid: nat)
    requires Applies(ss, ls, n) && Wf(ss[n].sm)
  {
    && AppliedAt(ss, ls, n).tid == Some(tid) && AppliedAt(ss, ls, n).action.Acq?
    && var o := Apply(ss[n].sm, AppliedAt(ss, ls, n).action); o.Done? && o.reply == Response(0, "")
  }

  lemma OwnRequest(ss: seq<Sys>, ls: seq<Label>, n: nat, eph: set<string>, tid: nat)
    requires SysRun(ss, ls, eph) && Applies(ss, ls, n) && GrantsAt(ss, ls, n, tid)
    ensures tid in ss[n].threads && ss[n].threads[tid].pc.Submitted? && ss[n].threads[tid].kind != ReleaseRpc
    ensures var t := ss[n].threads[tid];
            && t.pc.key in ss[n].sm.ds && HasHandle(ss[n].sm, t.sid, t.fh) && PathOf(ss[n].sm, t.sid, t.fh) == t.pc.key
            && ss[n].sm.ds[t.pc.key].instanceNum >= 0
            && (HandleInum(ss[n].sm, t.sid, t.fh) == -1 || InumsAgree(ss[n].sm, t, t.pc.key))
  {
    Reachable(ss, ls, n, eph);
    assert EntryOk(ss[n], ss[n].applied) && ThreadOk(ss[n], tid, eph);
  }

  /** A handler that is past its instance check made it at some step. */
  lemma {:induction false} CheckedBefore(ss: seq<Sys>, ls: seq<Label>, n: nat, eph: set<string>, tid: nat)
    returns (c: nat)
    requires SysRun(ss, ls, eph) && n <= |ls| && tid in ss[n].threads
    requires PastInum(ss[n].threads[tid].pc) && ss[n].threads[tid].kind != ReleaseRpc
    ensures c < n && ChecksAt(ss, ls, c, tid)
  {
    hide Fire;
    assert n > 0;
    assert Fire(ss[n - 1], ls[n - 1]) == Some(ss[n]);
    EntersByCheck(ss[n - 1], ls[n - 1], ss[n], tid);
    if ls[n - 1] == CheckInum(tid) && ss[n].threads[tid].pc.Matched? {
      c := n - 1;
    } else {
      c := CheckedBefore(ss, ls, n - 1, eph, tid);
    }
  }

  lemma EntersByCheck(s: Sys, l: Label, u: Sys, tid: nat)
    requires Wf(s.sm) && Fire(s, l) == Some(u) && tid in u.threads && PastInum(u.threads[tid].pc)
    ensures (l == CheckInum(tid) && u.threads[tid].pc.Matched?)
            || (tid in s.threads && PastInum(s.threads[tid].pc) && s.threads[tid].kind == u.threads[tid].kind)
  {
    hide Apply, Touched, HandleInum;
  }

  /** There is only one such step. */
  lemma ChecksOnce(ss: seq<Sys>, ls: seq<Label>, c: nat, d: nat, eph: set<string>, tid: nat)
    requires SysRun(ss, ls, eph) && ChecksAt(ss, ls, c, tid) && ChecksAt(ss, ls, d, tid)
    ensures c == d
  {
    hide HandleInum;
    assert Fire(ss[c], ls[c]) == Some(ss[c + 1]) && Fire(ss[d], ls[d]) == Some(ss[d + 1]);
    if c < d {
      StagesGrow(ss, ls, c + 1, d, eph, tid);
    } else if d < c {
      StagesGrow(ss, ls, d + 1, c, eph, tid);
    }
  }

  /** From the check to the application no Delete of the handle's path is applied. */
  lemma NoDeleteSinceCheck(ss: seq<Sys>, ls: seq<Label>, c: nat, m: nat, n: nat, eph: set<string>, tid: nat)
    requires SysRun(ss, ls, eph) && ChecksAt(ss, ls, c, tid) && c < m <= n <= |ls|
    requires tid in ss[n].threads && PastInum(ss[n].threads[tid].pc) && Applies(ss, ls, m)
    ensures !Deletes(ss[m].sm, AppliedAt(ss, ls, m).action, ss[n].threads[tid].pc.key)
  {
    hide Fire, Apply, Touched, HandleInum, Deletes;
    StagesGrow(ss, ls, c + 1, m, eph, tid);
    StagesGrow(ss, ls, m, n, eph, tid);
    Reachable(ss, ls, m, eph);
    StoreStep(ss, ls, m, eph);
    if AppliedAt(ss, ls, m).tid == Some(tid) {
      OwnIsNoDelete(ss[m], eph, ss[n].threads[tid].pc.key);
    } else {
      KeysApart(ss[m], tid, eph);
    }
  }

  lemma OwnIsNoDelete(s: Sys, eph: set<string>, key: string)
    requires SysOk(s, eph) && s.applied < |s.log| && s.log[s.applied].tid.Some?
    ensures !Deletes(s.sm, s.log[s.applied].action, key)
  {
    assert EntryOk(s, s.applied);
  }

  /**
   In every interleaving, no lock is granted through a handle that a Delete outdated: the
   request made its instance check at one step c, and from there to its application at step
   n no Delete of the path is applied.  The handle is current or was closed since c.
   */
  lemma NoGrantToOutdated(ss: seq<Sys>, ls: seq<Label>, n: nat, eph: set<string>, tid: nat) returns (c: nat)
    requires SysRun(ss, ls, eph) && Applies(ss, ls, n) && GrantsAt(ss, ls, n, tid)
    ensures c < n && ChecksAt(ss, ls, c, tid) && forall d | ChecksAt(ss, ls, d, tid) :: d == c
    ensures tid in ss[n].threads && HasHandle(ss[n].sm, ss[n].threads[tid].sid, ss[n].threads[tid].fh)
    ensures var path := PathOf(ss[n].sm, ss[n].threads[tid].sid, ss[n].threads[tid].fh);
            forall m | c < m <= n && Applies(ss, ls, m) :: !Deletes(ss[m].sm, AppliedAt(ss, ls, m).action, path)
    ensures var t, sm := ss[n].threads[tid], ss[n].sm;
            && CheckedFresh(ss, c, t.sid, t.fh)
            && (Fresh(sm, t.sid, t.fh) || exists m | c < m < n :: ClosesAt(ss, ls, m, t.sid, t.fh))
  {
    hide Fire, Apply, ClosesAt, Deletes;
    OwnRequest(ss, ls, n, eph, tid);
    c := CheckedBefore(ss, ls, n, eph, tid);
    forall d | ChecksAt(ss, ls, d, tid)
      ensures d == c
    {
      ChecksOnce(ss, ls, c, d, eph, tid);
    }
    forall m | c < m <= n && Applies(ss, ls, m)
      ensures !Deletes(ss[m].sm, AppliedAt(ss, ls, m).action, ss[n].threads[tid].pc.key)
    {
      NoDeleteSinceCheck(ss, ls, c, m, n, eph, tid);
    }
    SinceCheck(ss, ls, c, n, eph, tid);
    CheckedIsFresh(ss, ls, c, n, eph, tid);
  }

  /** At step c the handle names its file. */
  predicate CheckedFresh(ss: seq<Sys>, c: nat, sid: int, fh: int) {
    c < |ss| && Wf(ss[c].sm) && HasHandle(ss[c].sm, sid, fh) && Fresh(ss[c].sm, sid, fh)
  }

  lemma CheckedIsFresh(ss: seq<Sys>, ls: seq<Label>, c: nat, n: nat, eph: set<string>, tid: nat)
    requires SysRun(ss, ls, eph) && ChecksAt(ss, ls, c, tid) && c < n <= |ls|
    requires tid in ss[n].threads && PastInum(ss[n].threads[tid].pc)
    ensures CheckedFresh(ss, c, ss[n].threads[tid].sid, ss[n].threads[tid].fh)
  {
    hide Apply, Touched, ThreadOk;
    StagesGrow(ss, ls, c + 1, n, eph, tid);
    assert Fire(ss[c], ls[c]) == Some(ss[c + 1]);
    Reachable(ss, ls, c, eph);
    PassingIsFresh(ss[c], eph, tid);
  }

  lemma PassingIsFresh(s: Sys, eph: set<string>, tid: nat)
    requires SysOk(s, eph) && tid in s.threads && s.threads[tid].pc.Admitted? && s.threads[tid].pc.key in s.sm.ds
    requires InumsAgree(s.sm, s.threads[tid], s.threads[tid].pc.key)
    ensures HasHandle(s.sm, s.threads[tid].sid, s.threads[tid].fh) && Fresh(s.sm, s.threads[tid].sid, s.threads[tid].fh)
  {
    assert ThreadOk(s, tid, eph);
  }

  /**
   A granted request goes through a handle that is no longer current exactly if a Close of
   that very handle was applied between the request's instance check and its application.
   */
  lemma GrantedThroughClosedIff(ss: seq<Sys>, ls: seq<Label>, n: nat, eph: set<string>, tid: nat) returns (c: nat)
    requires SysRun(ss, ls, eph) && Applies(ss, ls, n) && GrantsAt(ss, ls, n, tid)
    ensures c < n && ChecksAt(ss, ls, c, tid)
    ensures tid in ss[n].threads && HasHandle(ss[n].sm, ss[n].threads[tid].sid, ss[n].threads[tid].fh)
    ensures var t, sm := ss[n].threads[tid], ss[n].sm;
            !Fresh(sm, t.sid, t.fh) <==> exists m | c < m < n :: ClosesAt(ss, ls, m, t.sid, t.fh)
  {
    hide Fire, Apply, ClosesAt;
    OwnRequest(ss, ls, n, eph, tid);
    c := CheckedBefore(ss, ls, n, eph, tid);
    SinceCheck(ss, ls, c, n, eph, tid);
  }

  // ----- a lock granted through a closed handle -----

  /** One session's TryAcquire passes both checks before its Close is applied, and is applied after it. */
  const RACE: seq<Label> := [
    Append(StartSession), ApplyNext,
    Append(Open(0, "/f", false, false)), ApplyNext,
    Spawn(0, TryAcquireRpc, 0, 0, true), Lookup(0), Lock(0), Check(0), CheckInum(0), CheckExists(0),
    Append(Close(0, 0)), Submit(0), ApplyNext, ApplyNext]

  const PLAIN := NEW_FILE.(fileExists := true)

  const SM1 := State(INIT.ds, map[0 := Session([], [])], 1)

  predicate Opened(sm: State, subscribers: map<int, int>, inum: int) {
    sm.db == map[0 := Session(["/f"], [inum])] && sm.nextId == 1 && "/" in sm.ds && "/f" in sm.ds
    && sm.ds["/f"] == PLAIN.(subscribers := subscribers)
  }

  lemma RaceStart()
    ensures Wf(INIT) && Apply(INIT, StartSession).Done? && Apply(INIT, StartSession).st == SM1
  {
    assert Parent("/") == "/";
  }

  lemma RaceOpen()
    ensures Wf(SM1) && Apply(SM1, RACE[2].action).Done?
    ensures Opened(Apply(SM1, RACE[2].action).st, map[0 := 0], 0)
    ensures Touched(SM1, RACE[2].action) == {Parent("/f")}
  {
    JoinParts("/", "f");
    assert Join("/", "f") == "/f" && Parent("/") == "/";
    assert [] + ["/f"] == ["/f"] && [] + [0] == [0];
    assert SM1.db[0 := Session(["/f"], [0])] == map[0 := Session(["/f"], [0])];
  }

  lemma RaceClose(sm: State)
    requires Wf(sm) && Opened(sm, map[0 := 0], 0)
    ensures Apply(sm, Close(0, 0)).Done? && Opened(Apply(sm, Close(0, 0)).st, map[], -1)
    ensures Touched(sm, Close(0, 0)) == {}
  {
    assert map[0 := 0] - {0} == map[];
    assert [0][0 := -1] == [-1];
    assert sm.db[0 := Session(["/f"], [-1])] == map[0 := Session(["/f"], [-1])];
  }

  lemma RaceGrant(sm: State)
    requires Wf(sm) && Opened(sm, map[], -1)
    ensures Apply(sm, Acq(0, 0, true)).Done? && Apply(sm, Acq(0, 0, true)).reply == Response(0, "")
    ensures var t := Apply(sm, Acq(0, 0, true)).st; t.db == sm.db && "/f" in t.ds && t.ds["/f"].lockOwners == {0}
  {
  }

  function Handler(pc: Pc): map<nat, Thread> {
    map[0 := Thread(TryAcquireRpc, 0, 0, true, pc)]
  }

  const LOG1 := [Entry(StartSession, None)]
  const LOG2 := LOG1 + [Entry(Open(0, "/f", false, false), None)]
  const LOG3 := LOG2 + [Entry(Close(0, 0), None)]
  const LOG4 := LOG3 + [Entry(Acq(0, 0, true), Some(0))]
  const HELD: map<string, nat> := map["/f" := 0]

  function RaceState(sm: State, closed: State, locked: State, i: nat): Sys {
    if i == 0 then START
    else if i == 1 then START.(log := LOG1)
    else if i == 2 then Sys(SM1, map[], map[], LOG1, 1)
    else if i == 3 then Sys(SM1, map[], map[], LOG2, 1)
    else if i == 4 then Sys(sm, map[], map[], LOG2, 2)
    else if i == 5 then Sys(sm, Handler(Entered), map[], LOG2, 2)
    else if i == 6 then Sys(sm, Handler(Locking("/f")), map[], LOG2, 2)
    else if i == 7 then Sys(sm, Handler(Checking("/f")), HELD, LOG2, 2)
    else if i == 8 then Sys(sm, Handler(Admitted("/f")), HELD, LOG2, 2)
    else if i == 9 then Sys(sm, Handler(Matched("/f")), HELD, LOG2, 2)
    else if i == 10 then Sys(sm, Handler(Passed("/f")), HELD, LOG2, 2)
    else if i == 11 then Sys(sm, Handler(Passed("/f")), HELD, LOG3, 2)
    else if i == 12 then Sys(sm, Handler(Submitted("/f", 3)), HELD, LOG4, 2)
    else if i == 13 then Sys(closed, Handler(Submitted("/f", 3)), HELD, LOG4, 3)
    else Sys(locked, Handler(Answered("/f", Response(0, ""))), HELD, LOG4, 4)
  }

  predicate RaceStates(sm: State, closed: State, locked: State) {
    && Wf(INIT) && Apply(INIT, StartSession).Done? && Apply(INIT, StartSession).st == SM1 && Wf(SM1)
    && Apply(SM1, RACE[2].action).Done? && sm == Apply(SM1, RACE[2].action).st && Wf(sm) && Opened(sm, map[0 := 0], 0)
    && Apply(sm, Close(0, 0)).Done? && closed == Apply(sm, Close(0, 0)).st && Wf(closed)
    && Touched(sm, Close(0, 0)) == {}
    && Apply(closed, Acq(0, 0, true)).Done? && locked == Apply(closed, Acq(0, 0, true)).st && Wf(locked)
    && Apply(closed, Acq(0, 0, true)).reply == Response(0, "")
  }

  lemma Onward(p: Pc, q: Pc)
    ensures Handler(p)[0 := Handler(p)[0].(pc := q)] == Handler(q)
  {
  }

  lemma RaceOpens(sm: State, closed: State, locked: State, i: nat)
    requires RaceStates(sm, closed, locked) && i < 4
    ensures Fire(RaceState(sm, closed, locked, i), RACE[i]) == Some(RaceState(sm, closed, locked, i + 1))
  {
    hide Apply, Touched;
    assert [] + [Entry(StartSession, None)] == LOG1;
    assert LOG1[0] == Entry(StartSession, None) && LOG2[1] == Entry(RACE[2].action, None);
  }

  lemma RaceChecks(sm: State, closed: State, locked: State, i: nat)
    requires RaceStates(sm, closed, locked) && 4 <= i < 10
    ensures Fire(RaceState(sm, closed, locked, i), RACE[i]) == Some(RaceState(sm, closed, locked, i + 1))
  {
    hide Apply, Touched;
    Onward(Entered, Locking("/f"));
    Onward(Locking("/f"), Checking("/f"));
    Onward(Checking("/f"), Admitted("/f"));
    Onward(Admitted("/f"), Matched("/f"));
    Onward(Matched("/f"), Passed("/f"));
  }

  lemma RaceEnds(sm: State, closed: State, locked: State, i: nat)
    requires RaceStates(sm, closed, locked) && 10 <= i < 14
    ensures Fire(RaceState(sm, closed, locked, i), RACE[i]) == Some(RaceState(sm, closed, locked, i + 1))
  {
    hide Apply, Touched;
    Onward(Passed("/f"), Submitted("/f", 3));
    Onward(Submitted("/f", 3), Answered("/f", Response(0, "")));
    assert LOG4[2] == Entry(Close(0, 0), None) && LOG4[3] == Entry(Acq(0, 0, true), Some(0));
    assert Touched(closed, Acq(0, 0, true)) == {} by { NoneTouched(closed); }
  }

  lemma NoneTouched(sm: State)
    requires Wf(sm)
    ensures Touched(sm, Acq(0, 0, true)) == {}
  {
  }

  /** So a live session can be granted a lock through a handle that it has closed. */
  lemma ClosedHandleIsGranted() returns (ss: seq<Sys>)
    ensures SysRun(ss, RACE, {})
    ensures var s := ss[14];
            && s.threads == Handler(Answered("/f", Response(0, ""))) && 0 in s.sm.db
            && HandleInum(s.sm, 0, 0) == -1 && "/f" in s.sm.ds && s.sm.ds["/f"].lockOwners == {0}
  {
    hide Apply, Fire, Touched;
    RaceStart();
    RaceOpen();
    var sm := Apply(SM1, RACE[2].action).st;
    RaceClose(sm);
    var closed := Apply(sm, Close(0, 0)).st;
    RaceGrant(closed);
    var locked := Apply(closed, Acq(0, 0, true)).st;
    ss := seq(15, i requires 0 <= i < 15 => RaceState(sm, closed, locked, i));
    RaceRuns(sm, closed, locked);
  }

  lemma RaceRuns(sm: State, closed: State, locked: State)
    requires RaceStates(sm, closed, locked)
    ensures SysRun(seq(15, i requires 0 <= i < 15 => RaceState(sm, closed, locked, i)), RACE, {})
  {
    hide Apply, Fire, Touched;
    var ss := seq(15, i requires 0 <= i < 15 => RaceState(sm, closed, locked, i));
    forall i | 0 <= i < 14
      ensures LabelOk(RACE[i], {}) && Fire(ss[i], RACE[i]) == Some(ss[i + 1])
    {
      if i < 4 {
        RaceOpens(sm, closed, locked, i);
      } else if i < 10 {
        RaceChecks(sm, closed, locked, i);
      } else {
        RaceEnds(sm, closed, locked, i);
      }
    }
  }
}
