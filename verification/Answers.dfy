/**
 What each action is answered, and when it ends the process: every reply says exactly what
 happened to the files, the locks and the sessions.
 */
module Answers {
  import opened Prelude
  import opened Paths
  import opened Store
  import opened Handles
  import Contents
  import LeftBehind
  import Listing
  import Locks
  import Owners
  import Report
  import Subscriptions
  import Tree

  // ----- aborts -----

  /** Once a is applied, its path's parent is known and a directory; a path can be its own parent. */
  predicate ParentIsDirectory(ds: map<string, File>, a: Action)
    requires a.Open?
  {
    var parent := Parent(a.path);
    if parent == a.path && !FileAt(ds, a.path).fileExists then a.isDirectory
    else parent in ds && ds[parent].isDirectory
  }

  /** An Open ends the process exactly if its session is live and the parent is no known directory. */
  lemma OpenAbortsIff(s: State, a: Action)
    requires Wf(s) && a.Open?
    ensures Apply(s, a).Abort? <==> a.sid in s.db && !ParentIsDirectory(s.ds, a)
  {
    OpenFileFailsIff(s.ds, a, if a.sid in s.db then |s.db[a.sid].paths| else 0);
    hide OpenFile, ParentIsDirectory;
  }

  lemma OpenFileFailsIff(ds: map<string, File>, a: Action, fh: int)
    requires a.Open?
    ensures OpenFile(ds, a, fh).None? <==> !ParentIsDirectory(ds, a)
  {
    hide Parent, Filename;
  }

  /** The actions on a handle end the process exactly if a live session names a handle it does not have. */
  lemma HandleActionsAbortIff(s: State, a: Action)
    requires Wf(s) && (a.Close? || a.SetContent? || a.Acq? || a.Rel?)
    ensures Apply(s, a).Abort? <==> a.sid in s.db && !HasHandle(s, a.sid, a.fh)
  {
    hide CloseFile, ReleaseLock;
  }

  /** So does a Delete, and besides exactly if it is of a directory that has an existing child. */
  lemma DeleteAbortsIff(states: seq<State>, log: seq<Action>, n: nat, N: Tree.Naming, sid: int, fh: int)
    requires InitRun(states, log) && n <= |log| && Tree.GoodNaming(N)
    requires forall i | 0 <= i < |log| :: Tree.TreeGuard(states[i], log[i], N)
    ensures var s := states[n];
            Apply(s, Delete(sid, fh)).Abort?
            <==> sid in s.db && (!HasHandle(s, sid, fh) || DirectoryInUse(s, PathOf(s, sid, fh)))
  {
    hide Apply, Tree.TreeOk, Tree.TreeGuard;
    Tree.TreeKept(states, log, n, N);
    var s := states[n];
    DeleteRefuses(s, sid, fh);
    if HasHandle(s, sid, fh) {
      assert WfSession(s.ds, s.db[sid]);
      Tree.EmptyIffChildless(s.ds, N, PathOf(s, sid, fh));
    }
  }

  lemma DeleteRefuses(s: State, sid: int, fh: int)
    requires Wf(s)
    ensures sid in s.db && !HasHandle(s, sid, fh) ==> Apply(s, Delete(sid, fh)).Abort?
    ensures sid !in s.db ==> Apply(s, Delete(sid, fh)).Done?
    ensures HasHandle(s, sid, fh) ==>
              var f := FileAt(s.ds, PathOf(s, sid, fh));
              (Apply(s, Delete(sid, fh)).Abort? <==> f.isDirectory && f.content != "")
  {
    hide DeleteFile;
    if HasHandle(s, sid, fh) { assert WfSession(s.ds, s.db[sid]); }
  }

  predicate DirectoryInUse(s: State, p: string) {
    p in s.ds && s.ds[p].isDirectory && exists q | q in s.ds :: Tree.Child(s.ds, p, q)
  }

  // ----- Open, Close, EndSession -----

  /** Open is answered 0 with the next handle number exactly if its session is live, and -1 otherwise. */
  lemma OpenAnswer(s: State, a: Action)
    requires Wf(s) && a.Open? && Apply(s, a).Done?
    ensures Apply(s, a).reply ==
              if a.sid in s.db then OpenReturn(0, "OK", |s.db[a.sid].paths|) else OpenReturn(-1, NOT_FOUND, -1)
    ensures a.sid !in s.db ==> Apply(s, a).st == s
  {
    hide OpenFile;
  }

  /**
   Close is answered 0 exactly if its session is live, and names a directory exactly if that
   directory's content changed.
   */
  lemma CloseAnswer(s: State, a: Action, d: string)
    requires Wf(s) && a.Close? && Apply(s, a).Done? && d in s.ds
    ensures var o := Apply(s, a);
            && o.reply.CloseReturn? && d in o.st.ds
            && o.reply.res == (if a.sid in s.db then 0 else -1)
            && o.reply.msg == (if a.sid in s.db then "OK" else NOT_FOUND)
            && (o.st.ds[d].content != s.ds[d].content <==> o.reply.parent == Some(d))
            && (o.reply.parent.Some? ==> o.reply.parent.value in s.ds)
            && (a.sid !in s.db ==> o.st == s)
  {
    hide CloseFile, ReleaseLock;
    if a.sid in s.db {
      Report.EndOneContent(Ended(s, [], {}), a.sid, a.fh, d);
      ErasedShrinks(s, a.sid, a.fh, d);
      ErasedKnown(s, a.sid, a.fh);
    }
  }

  lemma ErasedShrinks(s: State, sid: int, fh: int, d: string)
    requires Wf(s) && HasHandle(s, sid, fh) && d in s.ds
    ensures var c := CloseFile(s, sid, fh);
            c.item.Some? && c.item.value.dir == d ==>
              |EndOne(Ended(s, [], {}), sid, fh).st.ds[d].content| < |s.ds[d].content|
  {
    hide CloseFile, ReleaseLock;
    Report.EndOneContent(Ended(s, [], {}), sid, fh, d);
    var c := CloseFile(s, sid, fh);
    if c.item.Some? { Listing.EraseLength(s.ds[d].content, c.item.value.name); }
    hide EndOne, Listing.EraseName;
  }

  lemma ErasedKnown(s: State, sid: int, fh: int)
    requires Wf(s) && HasHandle(s, sid, fh)
    ensures var c := CloseFile(s, sid, fh); c.item.Some? ==> c.item.value.dir in s.ds
  {
    hide Unsubscribe;
    assert WfSession(s.ds, s.db[sid]);
    Contents.ErasedItem(s.ds, sid, PathOf(s, sid, fh));
  }

  /** EndSession never ends the process, and is answered -1 exactly if its session is not there. */
  lemma EndSessionAnswer(s: State, sid: int)
    requires Wf(s)
    ensures var o := Apply(s, EndSession(sid));
            && o.Done? && sid !in o.st.db
            && (sid in s.db <==> o.reply.EndSessionReturn?)
            && (sid in s.db ==> o.reply.res == 0 && o.reply.msg == "OK")
            && (sid !in s.db ==> o == Done(s, Response(-1, NOT_FOUND), {}, {}))
  {
    hide EndUpTo;
  }

  // ----- SetContent -----

  /** SetContent is answered 0 exactly if it writes; every other answer names its reason and changes nothing. */
  lemma SetContentAnswer(s: State, a: Action)
    requires Wf(s) && a.SetContent? && Apply(s, a).Done?
    ensures var o := Apply(s, a);
            && (o.reply == Response(-1, NOT_FOUND) <==> a.sid !in s.db)
            && (a.sid in s.db ==>
                  && HasHandle(s, a.sid, a.fh)
                  && var p := PathOf(s, a.sid, a.fh);
                     && (o.reply == Response(0, "OK") <==> Contents.Writes(s, a, p))
                     && (o.reply == Response(-1, "Instance num mismatch") <==> !Fresh(s, a.sid, a.fh))
                     && (o.reply == Response(-1, "File does not exist") <==>
                           Fresh(s, a.sid, a.fh) && !FileAt(s.ds, p).fileExists))
            && (o.reply != Response(0, "OK") ==> o.st == s && o.reply.res == -1)
  {
    if a.sid in s.db { assert WfSession(s.ds, s.db[a.sid]); }
  }

  /**
   Along a run: a write through a handle succeeds exactly if its session is live, the handle
   was neither closed nor outdated since it was opened, and the file did not vanish.
   */
  lemma WriteSucceedsIff(states: seq<State>, log: seq<Action>, i: nat, n: nat, sid: int, fh: int, text: string)
    requires InitRun(states, log) && OpenedAt(states, log, i, sid, fh) && i < n <= |log|
    requires Apply(states[n], SetContent(sid, fh, text)).Done?
    ensures Apply(states[n], SetContent(sid, fh, text)).reply == Response(0, "OK") <==>
              && sid in states[n].db
              && (forall j | i < j < n :: !Outdates(states, log, j, sid, fh, log[i].path))
              && !(exists j | i < j < n :: Subscriptions.VanishedAt(states, log, j, n, log[i].path))
  {
    var a := SetContent(sid, fh, text);
    SetContentAnswer(states[n], a);
    hide Apply, Outdates, Subscriptions.VanishedAt;
    if sid in states[n].db {
      FreshIffUntouched(states, log, i, n, sid, fh);
      WritesIs(states[n], a);
      if Fresh(states[n], sid, fh) {
        Subscriptions.GoneUnderHandleIff(states, log, i, n, sid, fh);
      }
    }
  }

  lemma WritesIs(s: State, a: Action)
    requires Wf(s) && a.SetContent? && HasHandle(s, a.sid, a.fh)
    ensures Contents.Writes(s, a, PathOf(s, a.sid, a.fh))
       <==> Fresh(s, a.sid, a.fh) && Subscriptions.Exists(s, PathOf(s, a.sid, a.fh))
  {
  }

  // ----- locks -----

  /** A lock request is answered 0 exactly if it is grantable, 1 if it is not, and -1 if there is no session. */
  lemma AcqAnswer(s: State, a: Action)
    requires Wf(s) && a.Acq? && Apply(s, a).Done?
    ensures var o := Apply(s, a);
            && (o.reply == Response(-1, NOT_FOUND) <==> a.sid !in s.db)
            && (a.sid in s.db ==>
                  && HasHandle(s, a.sid, a.fh) && PathOf(s, a.sid, a.fh) in s.ds
                  && var f := s.ds[PathOf(s, a.sid, a.fh)];
                     && (o.reply == Response(0, "") <==> Locks.MayAcquire(f, a.ex))
                     && (o.reply == Response(1, "fail to acquire") <==> !Locks.MayAcquire(f, a.ex)))
            && (o.reply.res != 0 ==> o.st == s)
  {
    if a.sid in s.db { Locks.AcqGrantedIff(s, a); }
  }

  /** An owner was granted the lock at some entry and has owned it ever since. */
  lemma {:induction false} OwnerSince(states: seq<State>, log: seq<Action>, n: nat, p: string, sid: int)
    returns (i: nat, ex: bool)
    requires InitRun(states, log) && n <= |log| && LeftBehind.Owns(states[n], p, sid)
    ensures i < n && Locks.GrantedAt(states, log, i, p, sid, ex) && Locks.OwnerThrough(states, i + 1, n, p, sid)
  {
    hide Apply, Locks.GrantedAt;
    assert n > 0;
    var s, a, t := states[n - 1], log[n - 1], states[n];
    assert Step(s, a, t);
    LeftBehind.StepOwners(s, a, t, p, sid);
    if LeftBehind.Owns(s, p, sid) {
      i, ex := OwnerSince(states, log, n - 1, p, sid);
    } else {
      i, ex := n - 1, a.ex;
      NewOwnerGranted(states, log, n - 1, p, sid);
    }
  }

  lemma NewOwnerGranted(states: seq<State>, log: seq<Action>, i: nat, p: string, sid: int)
    requires Run(states, log) && i < |log| && LeftBehind.AsksFor(states[i], log[i], p, sid)
    requires !LeftBehind.Owns(states[i], p, sid) && LeftBehind.Owns(states[i + 1], p, sid)
    ensures Locks.GrantedAt(states, log, i, p, sid, log[i].ex)
  {
    assert Step(states[i], log[i], states[i + 1]);
    AcqAnswer(states[i], log[i]);
    hide Apply;
  }

  /** Some entry before n granted the session the lock, and it has not lost it since. */
  predicate HoldsLock(states: seq<State>, log: seq<Action>, n: nat, p: string, sid: int)
    requires |states| == |log| + 1
  {
    exists i, ex | 0 <= i < n ::
      Locks.GrantedAt(states, log, i, p, sid, ex) && Locks.OwnerThrough(states, i + 1, n, p, sid)
  }

  lemma HoldsLockIff(states: seq<State>, log: seq<Action>, n: nat, p: string, sid: int)
    requires InitRun(states, log) && n <= |log|
    ensures LeftBehind.Owns(states[n], p, sid) <==> HoldsLock(states, log, n, p, sid)
  {
    hide Apply, Locks.GrantedAt;
    if LeftBehind.Owns(states[n], p, sid) {
      var i, ex := OwnerSince(states, log, n, p, sid);
    }
  }

  /**
   Along a run, a live session's release of p is answered 0 exactly if p exists and the
   session was granted its lock and has held it since; it is answered -2 exactly if p is gone.
   After a 0 it is no owner.  Without a session the answer is -1 and nothing changes.
   */
  lemma RelAnswer(states: seq<State>, log: seq<Action>, n: nat)
    requires InitRun(states, log) && n < |log| && log[n].Rel?
    ensures var s, a, t, reply := states[n], log[n], states[n + 1], Apply(states[n], log[n]).reply;
            && (a.sid !in s.db ==> reply == Response(-1, "the session does not hold this lock") && t == s)
            && (a.sid in s.db ==>
                  && HasHandle(s, a.sid, a.fh)
                  && var p := PathOf(s, a.sid, a.fh);
                     && (reply == Response(0, "") <==>
                           Subscriptions.Exists(s, p) && HoldsLock(states, log, n, p, a.sid))
                     && (reply == Response(-2, "file not found") <==> !Subscriptions.Exists(s, p))
                     && (reply == Response(-1, "the session does not hold this lock") <==>
                           Subscriptions.Exists(s, p) && !HoldsLock(states, log, n, p, a.sid))
                     && (reply.res == 0 ==> !LeftBehind.Owns(t, p, a.sid)))
  {
    assert Step(states[n], log[n], states[n + 1]);
    RelOneState(states[n], log[n]);
    hide Apply;
    if log[n].sid in states[n].db {
      HoldsLockIff(states, log, n, PathOf(states[n], log[n].sid, log[n].fh), log[n].sid);
    }
  }

  lemma RelOneState(s: State, a: Action)
    requires Wf(s) && a.Rel? && Apply(s, a).Done?
    ensures var o := Apply(s, a);
            && (a.sid !in s.db ==> o.reply == Response(-1, "the session does not hold this lock") && o.st == s)
            && (a.sid in s.db ==>
                  && HasHandle(s, a.sid, a.fh)
                  && var p := PathOf(s, a.sid, a.fh);
                     && (o.reply == Response(0, "") <==> Subscriptions.Exists(s, p) && LeftBehind.Owns(s, p, a.sid))
                     && (o.reply == Response(-2, "file not found") <==> !Subscriptions.Exists(s, p))
                     && (o.reply == Response(-1, "the session does not hold this lock") <==>
                           Subscriptions.Exists(s, p) && !LeftBehind.Owns(s, p, a.sid))
                     && (o.reply.res == 0 ==> !LeftBehind.Owns(o.st, p, a.sid)))
  {
    if a.sid in s.db { assert WfSession(s.ds, s.db[a.sid]); }
  }

  // ----- Delete -----

  /** A Delete that goes through is answered 0, wakes the waiters, and alerts exactly the owners that are live. */
  lemma DeleteAnswer(s: State, a: Action)
    requires Wf(s) && a.Delete? && Apply(s, a).Done?
    ensures var o := Apply(s, a);
            && (a.sid !in s.db ==> o == Done(s, Response(-1, NOT_FOUND), {}, {}))
            && (a.sid in s.db ==>
                  && HasHandle(s, a.sid, a.fh) && o.reply == Response(0, "")
                  && var p := PathOf(s, a.sid, a.fh);
                     && o.woken == {p} && !Subscriptions.Exists(o.st, p)
                     && forall q :: q in o.alerted <==> LeftBehind.Owns(s, p, q) && q in s.db)
  {
    if a.sid in s.db {
      assert WfSession(s.ds, s.db[a.sid]);
      Owners.DeleteOwners(s.ds, PathOf(s, a.sid, a.fh), PathOf(s, a.sid, a.fh));
    }
    hide DeleteFile;
  }

  /** Only a Delete alerts anybody, and whatever is woken has no owner left. */
  lemma AlertsAndWakes(s: State, a: Action, p: string)
    requires Wf(s) && Apply(s, a).Done? && p in Apply(s, a).woken
    ensures p in Apply(s, a).st.ds && Apply(s, a).st.ds[p].lockOwners == {}
  {
    hide CloseFile, ReleaseLock, EndUpTo, DeleteFile, OpenFile;
    match a
    case Close(sid, fh) => WokenIsFree(CloseFile(s, sid, fh).st, sid, fh, p);
    case Rel(sid, fh) => WokenIsFree(s, sid, fh, p);
    case EndSession(sid) => WokenByEnd(s, sid, |s.db[sid].paths|, p);
    case Delete(sid, fh) =>
      assert WfSession(s.ds, s.db[sid]);
      Owners.DeleteOwners(s.ds, p, p);
  }

  lemma WokenIsFree(s: State, sid: int, fh: int, p: string)
    requires Wf(s) && (sid in s.db ==> HasHandle(s, sid, fh)) && p in ReleaseLock(s, sid, fh).woken
    ensures var t := ReleaseLock(s, sid, fh).st; p in t.ds && t.ds[p].lockOwners == {}
  {
  }

  /** A turn's wake-ups are right, and those of the turns before stay so. */
  lemma WokenByTurn(done: Ended, sid: int, fh: nat, p: string)
    requires Wf(done.st) && HasHandle(done.st, sid, fh) && p in EndOne(done, sid, fh).woken
    requires p in done.woken ==> p in done.st.ds && done.st.ds[p].lockOwners == {}
    ensures var t := EndOne(done, sid, fh).st; p in t.ds && t.ds[p].lockOwners == {}
  {
    hide CloseFile, ReleaseLock;
    var c := CloseFile(done.st, sid, fh).st;
    if p in ReleaseLock(c, sid, fh).woken {
      WokenIsFree(c, sid, fh, p);
    } else {
      Owners.CloseExists(done.st, sid, fh, p);
      Owners.ReleaseDrops(c, sid, fh, p);
    }
  }

  lemma {:induction false} WokenByEnd(s: State, sid: int, n: nat, p: string)
    requires Wf(s) && sid in s.db && n <= |s.db[sid].paths| && p in EndUpTo(s, sid, n).woken
    ensures var t := EndUpTo(s, sid, n).st; p in t.ds && t.ds[p].lockOwners == {}
  {
    hide EndOne, Wf;
    assert n > 0;
    var r := EndUpTo(s, sid, n - 1);
    if p in r.woken { WokenByEnd(s, sid, n - 1, p); }
    WokenByTurn(r, sid, n - 1, p);
  }

  /** One release: its file's waiters are woken exactly if the file exists and its lock is free afterwards. */
  lemma ReleaseWakesIff(s: State, sid: int, fh: int, p: string)
    requires Wf(s) && HasHandle(s, sid, fh)
    ensures var r := ReleaseLock(s, sid, fh);
            p in r.woken <==> p == PathOf(s, sid, fh) && Subscriptions.Exists(r.st, p) && r.st.ds[p].lockOwners == {}
  {
    assert WfSession(s.ds, s.db[sid]);
  }

  /** Rel and Close wake exactly the waiters of a file that exists and is free afterwards. */
  lemma WakesExactly(s: State, a: Action, p: string)
    requires Wf(s) && (a.Rel? || a.Close?) && Apply(s, a).Done?
    ensures var o := Apply(s, a);
            p in o.woken <==>
              && HasHandle(s, a.sid, a.fh) && p == PathOf(s, a.sid, a.fh)
              && Subscriptions.Exists(o.st, p) && p in o.st.ds && o.st.ds[p].lockOwners == {}
  {
    hide CloseFile, ReleaseLock;
    if a.sid in s.db {
      ReleaseWakesIff(if a.Rel? then s else CloseFile(s, a.sid, a.fh).st, a.sid, a.fh, p);
    } else {
      NoSessionNoWake(s, a);
    }
  }

  lemma NoSessionNoWake(s: State, a: Action)
    requires Wf(s) && (a.Rel? || a.Close?) && a.sid !in s.db
    ensures Apply(s, a).Done? && Apply(s, a).woken == {}
  {
  }

  /** So does every turn of EndSession's loop, on top of the turns before. */
  lemma TurnWakesExactly(done: Ended, sid: int, fh: nat, p: string)
    requires Wf(done.st) && HasHandle(done.st, sid, fh)
    ensures var r := EndOne(done, sid, fh);
            p in r.woken <==>
              || p in done.woken
              || (p == PathOf(done.st, sid, fh) && Subscriptions.Exists(r.st, p) && r.st.ds[p].lockOwners == {})
  {
    hide CloseFile, ReleaseLock;
    ReleaseWakesIff(CloseFile(done.st, sid, fh).st, sid, fh, p);
  }
}
