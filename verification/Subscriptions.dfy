/**
 When an open handle is the one its session is subscribed with, and when its file is gone
 although the handle is still current.
 */
module Subscriptions {
  import opened Prelude
  import opened Paths
  import opened Store
  import opened Easing
  import opened Handles
  import Owners
  import Replicas

  /** The handle the session is subscribed to p with. */
  function SubscribedBy(st: State, p: string, sid: int): Option<int> {
    if p in st.ds && sid in st.ds[p].subscribers then Some(st.ds[p].subscribers[sid]) else None
  }

  predicate OpenHandle(st: State, sid: int, fh: int)
    requires Wf(st)
  {
    HasHandle(st, sid, fh) && InumOf(st, sid, fh) != -1
  }

  /** a closes a handle on p that is open. */
  predicate ClosesOn(s: State, a: Action, p: string, sid: int)
    requires Wf(s)
  {
    a.Close? && a.sid == sid && OpenHandle(s, sid, a.fh) && PathOf(s, sid, a.fh) == p
  }

  predicate OpensOn(s: State, a: Action, p: string, sid: int) {
    OpensFor(s, a, sid) && a.path == p
  }

  /** What a step does to the subscription of a session that is there afterwards. */
  predicate SubscriptionStep(s: State, a: Action, t: State, p: string, sid: int)
    requires Wf(s)
  {
    SubscribedBy(t, p, sid) ==
      if OpensOn(s, a, p, sid) then Some(|s.db[sid].paths|)
      else if ClosesOn(s, a, p, sid) then None
      else SubscribedBy(s, p, sid)
  }

  lemma OpenSubscription(s: State, a: Action, t: State, p: string, sid: int)
    requires Wf(s) && Step(s, a, t) && a.Open?
    ensures SubscriptionStep(s, a, t, p, sid)
  {
    hide OpenFile;
    if a.sid in s.db && p in t.ds {
      Replicas.OpenSubscribers(s.ds, a, |s.db[a.sid].paths|, p);
    }
  }

  lemma ReleaseSubscribers(s: State, sid: int, fh: int, p: string)
    requires Wf(s) && (sid in s.db ==> HasHandle(s, sid, fh)) && p in s.ds
    ensures ReleaseLock(s, sid, fh).st.ds[p].subscribers == s.ds[p].subscribers
  {
    if sid in s.db { assert WfSession(s.ds, s.db[sid]); }
  }

  lemma CloseSubscribers(s: State, sid: int, fh: int, p: string)
    requires Wf(s) && HasHandle(s, sid, fh) && p in s.ds
    ensures CloseFile(s, sid, fh).st.ds[p].subscribers ==
              if OpenHandle(s, sid, fh) && PathOf(s, sid, fh) == p then s.ds[p].subscribers - {sid}
              else s.ds[p].subscribers
  {
    hide Unsubscribe;
    assert WfSession(s.ds, s.db[sid]);
    Replicas.UnsubscribeDrops(s.ds, sid, PathOf(s, sid, fh), p);
  }

  lemma CloseSubscription(s: State, a: Action, t: State, p: string, sid: int)
    requires Wf(s) && Step(s, a, t) && a.Close?
    ensures SubscriptionStep(s, a, t, p, sid)
  {
    hide CloseFile, ReleaseLock;
    if a.sid in s.db && p in s.ds {
      CloseSubscribers(s, a.sid, a.fh, p);
      ReleaseSubscribers(CloseFile(s, a.sid, a.fh).st, a.sid, a.fh, p);
    }
  }

  lemma EndSubscription(s: State, a: Action, t: State, p: string, sid: int)
    requires Wf(s) && Step(s, a, t) && a.EndSession? && a.sid != sid
    ensures SubscriptionStep(s, a, t, p, sid)
  {
    hide Apply;
    StepEases(s, a, t);
    if p in s.ds { assert FileEased(s.ds[p], t.ds[p], a.sid); }
  }

  lemma DeleteSubscription(s: State, a: Action, t: State, p: string, sid: int)
    requires Wf(s) && Step(s, a, t) && a.Delete?
    ensures SubscriptionStep(s, a, t, p, sid)
  {
    hide DeleteFile;
    if a.sid in s.db && p in s.ds {
      assert WfSession(s.ds, s.db[a.sid]);
      Replicas.DeleteSubscribers(s.ds, PathOf(s, a.sid, a.fh), p);
    }
  }

  lemma OtherSubscription(s: State, a: Action, t: State, p: string, sid: int)
    requires Wf(s) && Step(s, a, t) && (a.StartSession? || a.SetContent? || a.Acq? || a.Rel?)
    ensures SubscriptionStep(s, a, t, p, sid)
  {
    hide ReleaseLock;
    assert !a.StartSession? && a.sid in s.db ==> WfSession(s.ds, s.db[a.sid]);
    if a.Rel? && p in s.ds { ReleaseSubscribers(s, a.sid, a.fh, p); }
  }

  lemma StepSubscription(s: State, a: Action, t: State, p: string, sid: int)
    requires Wf(s) && Step(s, a, t) && a != EndSession(sid)
    ensures SubscriptionStep(s, a, t, p, sid)
  {
    hide Step, SubscriptionStep;
    match a
    case Open(_, _, _, _) => OpenSubscription(s, a, t, p, sid);
    case Close(_, _) => CloseSubscription(s, a, t, p, sid);
    case EndSession(_) => EndSubscription(s, a, t, p, sid);
    case Delete(_, _) => DeleteSubscription(s, a, t, p, sid);
    case _ => OtherSubscription(s, a, t, p, sid);
  }

  /** At entry j the session opens p again, or closes another open handle on it. */
  predicate Displaces(states: seq<State>, log: seq<Action>, j: nat, p: string, sid: int, fh: int)
    requires j < |log| && |states| == |log| + 1 && Wf(states[j])
  {
    OpensOn(states[j], log[j], p, sid) || (ClosesOn(states[j], log[j], p, sid) && log[j].fh != fh)
  }

  /**
   An open handle is the one its session is subscribed with exactly if the session neither
   opened the path again since, nor closed another open handle on it.
   */
  lemma {:induction false} SubscribedIff(states: seq<State>, log: seq<Action>, i: nat, n: nat, sid: int, fh: int)
    requires InitRun(states, log) && OpenedAt(states, log, i, sid, fh) && i < n <= |log|
    requires OpenHandle(states[n], sid, fh)
    ensures SubscribedBy(states[n], log[i].path, sid) == Some(fh)
       <==> forall j | i < j < n :: !Displaces(states, log, j, log[i].path, sid, fh)
  {
    hide Apply, SubscribedBy, OpensOn, ClosesOn;
    var s, a, t, p := states[n - 1], log[n - 1], states[n], log[i].path;
    assert Step(s, a, t);
    StepSessions(s, a, t);
    StepSubscription(s, a, t, p, sid);
    HandlesBelow(states, log, i, n, sid, fh);
    if n == i + 1 {
      OpensItself(states, log, i, sid, fh);
    } else {
      LiveThroughout(states, log, i + 1, n, sid);
      StillOpen(s, a, t, sid, fh);
      SubscribedIff(states, log, i, n - 1, sid, fh);
      OwnClose(s, a, p, sid, fh);
      DisplacedNext(states, log, i, n - 1, n, p, sid, fh);
    }
  }

  lemma OpensItself(states: seq<State>, log: seq<Action>, i: nat, sid: int, fh: int)
    requires |states| == |log| + 1 && OpenedAt(states, log, i, sid, fh)
    ensures OpensOn(states[i], log[i], log[i].path, sid) && |states[i].db[sid].paths| == fh
  {
  }

  /** The session has the handle from its Open on, so later ones get greater numbers. */
  lemma HandlesBelow(states: seq<State>, log: seq<Action>, i: nat, n: nat, sid: int, fh: int)
    requires InitRun(states, log) && OpenedAt(states, log, i, sid, fh) && i < n <= |log| && sid in states[n].db
    ensures sid < states[i + 1].nextId
    ensures n > i + 1 ==> sid in states[n - 1].db && fh < |states[n - 1].db[sid].paths|
  {
    hide Apply;
    assert Step(states[i], log[i], states[i + 1]);
    StepSessions(states[i], log[i], states[i + 1]);
    assert sid in states[i].db && sid < states[i].nextId;
    LiveThroughout(states, log, i, n, sid);
    if n > i + 1 { InstanceGap(states, log, i, n - 1, sid, fh); }
  }

  lemma StillOpen(s: State, a: Action, t: State, sid: int, fh: int)
    requires Wf(s) && Wf(t) && Step(s, a, t) && OpenHandle(t, sid, fh) && HasHandle(s, sid, fh)
    ensures OpenHandle(s, sid, fh) && a != Close(sid, fh) && a != EndSession(sid)
  {
    hide Apply;
    StepSessions(s, a, t);
    assert SessionStep(s, a, sid, s.db[sid], t.db[sid]);
  }

  lemma OwnClose(s: State, a: Action, p: string, sid: int, fh: int)
    requires Wf(s) && a != Close(sid, fh)
    ensures ClosesOn(s, a, p, sid) ==> a.fh != fh
  {
  }

  lemma DisplacedNext(states: seq<State>, log: seq<Action>, i: nat, m: nat, n: nat, p: string, sid: int, fh: int)
    requires Run(states, log) && i < m && n == m + 1 <= |log|
    ensures (forall j | i < j < n :: !Displaces(states, log, j, p, sid, fh))
       <==> (forall j | i < j < m :: !Displaces(states, log, j, p, sid, fh)) && !Displaces(states, log, m, p, sid, fh)
  {
    hide Displaces, Step;
  }

  // ----- ephemeral files -----

  /** The step takes p's last subscription away, and p with it. */
  predicate Vanishes(s: State, a: Action, p: string)
    requires Wf(s)
  {
    && p in s.ds && s.ds[p].isEphemeral && (a.Close? || a.EndSession?) && s.ds[p].subscribers.Keys == {a.sid}
    && (a.Close? ==> ClosesOn(s, a, p, a.sid)) && (a.EndSession? ==> a.sid in s.db)
  }

  predicate OpensPath(s: State, a: Action, p: string) {
    a.Open? && OpensOn(s, a, p, a.sid)
  }

  function Exists(st: State, p: string): bool {
    FileAt(st.ds, p).fileExists
  }

  predicate ExistsStep(s: State, a: Action, t: State, p: string)
    requires Wf(s)
  {
    Exists(t, p) <==> OpensPath(s, a, p) || (Exists(s, p) && !Deletes(s, a, p) && !Vanishes(s, a, p))
  }

  lemma OpenExists(s: State, a: Action, t: State, p: string)
    requires Wf(s) && Step(s, a, t) && a.Open?
    ensures ExistsStep(s, a, t, p)
  {
    hide OpenFile;
    if a.sid in s.db && p in t.ds {
      OpenedExists(s.ds, a, |s.db[a.sid].paths|, p);
    }
  }

  lemma OpenedExists(ds: map<string, File>, a: Action, fh: int, p: string)
    requires a.Open? && OpenFile(ds, a, fh).Some? && p in OpenFile(ds, a, fh).value
    ensures OpenFile(ds, a, fh).value[p].fileExists <==> p == a.path || FileAt(ds, p).fileExists
  {
    hide Parent, Filename;
  }

  lemma CloseExists(s: State, a: Action, t: State, p: string)
    requires Wf(s) && Step(s, a, t) && a.Close?
    ensures ExistsStep(s, a, t, p)
  {
    hide CloseFile, ReleaseLock;
    if a.sid in s.db && p in s.ds {
      Owners.CloseExists(s, a.sid, a.fh, p);
      Owners.ReleaseLeaves(CloseFile(s, a.sid, a.fh).st, a.sid, a.fh, p);
    }
  }

  /** Some open handle among the session's first n is on p. */
  predicate Touches(s: State, sid: int, n: nat, p: string)
    requires Wf(s) && sid in s.db && n <= |s.db[sid].paths|
  {
    exists k | 0 <= k < n :: OpenHandle(s, sid, k) && PathOf(s, sid, k) == p
  }

  /** After n turns of EndSession's loop. */
  predicate TurnsLeave(s: State, sid: int, n: nat, p: string)
    requires Wf(s) && sid in s.db && n <= |s.db[sid].paths| && p in s.ds
  {
    var f, t := s.ds[p], EndUpTo(s, sid, n).st;
    var g := t.ds[p];
    && g.isEphemeral == f.isEphemeral
    && g.subscribers == (if Touches(s, sid, n, p) then f.subscribers - {sid} else f.subscribers)
    && (g.fileExists <==>
          f.fileExists && !(Touches(s, sid, n, p) && f.isEphemeral && f.subscribers.Keys == {sid}))
    && |t.db[sid].inums| == |s.db[sid].inums|
    && forall k | n <= k < |s.db[sid].inums| :: t.db[sid].inums[k] == s.db[sid].inums[k]
  }

  lemma TouchesNext(s: State, sid: int, n: nat, p: string)
    requires Wf(s) && sid in s.db && n < |s.db[sid].paths|
    ensures Touches(s, sid, n + 1, p) <==>
              Touches(s, sid, n, p) || (OpenHandle(s, sid, n) && PathOf(s, sid, n) == p)
  {
    hide OpenHandle;
  }

  lemma TurnEffect(done: Ended, sid: int, fh: nat, p: string)
    requires Wf(done.st) && HasHandle(done.st, sid, fh) && p in done.st.ds
    ensures var s, t := done.st, EndOne(done, sid, fh).st;
            var f, g := s.ds[p], t.ds[p];
            var hit := OpenHandle(s, sid, fh) && PathOf(s, sid, fh) == p;
            && g.isEphemeral == f.isEphemeral
            && g.subscribers == (if hit then f.subscribers - {sid} else f.subscribers)
            && (g.fileExists <==> f.fileExists && !(hit && f.isEphemeral && f.subscribers.Keys == {sid}))
            && t.db[sid].inums == s.db[sid].inums[fh := -1]
  {
    hide CloseFile, ReleaseLock;
    var s := done.st;
    assert WfSession(s.ds, s.db[sid]);
    var c := CloseFile(s, sid, fh).st;
    Owners.CloseExists(s, sid, fh, p);
    CloseEases(s, sid, fh);
    assert FileEased(s.ds[p], c.ds[p], sid);
    CloseSubscribers(s, sid, fh, p);
    CloseInums(s, sid, fh);
    Owners.ReleaseLeaves(c, sid, fh, p);
    ReleaseSubscribers(c, sid, fh, p);
    ReleaseEases(c, sid, fh);
    assert FileEased(c.ds[p], ReleaseLock(c, sid, fh).st.ds[p], sid);
  }

  lemma {:induction false} TurnsEffect(s: State, sid: int, n: nat, p: string)
    requires Wf(s) && sid in s.db && n <= |s.db[sid].paths| && p in s.ds
    ensures TurnsLeave(s, sid, n, p)
  {
    hide EndOne, Touches;
    if n == 0 {
      assert !Touches(s, sid, 0, p) by { NoTouch(s, sid, p); }
    } else {
      TurnsEffect(s, sid, n - 1, p);
      TouchesNext(s, sid, n - 1, p);
      TurnEffect(EndUpTo(s, sid, n - 1), sid, n - 1, p);
      assert WfSession(s.ds, s.db[sid]);
      TwiceGone(s.ds[p].subscribers, sid);
    }
  }

  lemma NoTouch(s: State, sid: int, p: string)
    requires Wf(s) && sid in s.db
    ensures !Touches(s, sid, 0, p)
  {
  }

  lemma TwiceGone(m: map<int, int>, sid: int)
    ensures (m - {sid}) - {sid} == m - {sid} && (m - {sid}).Keys != {sid}
  {
    assert sid !in m - {sid};
  }

  lemma EndExists(s: State, a: Action, t: State, p: string)
    requires Wf(s) && Step(s, a, t) && a.EndSession? && Replicas.SubscribersLive(s)
    ensures ExistsStep(s, a, t, p)
  {
    hide EndUpTo, Touches;
    if a.sid in s.db && p in s.ds {
      TurnsEffect(s, a.sid, |s.db[a.sid].paths|, p);
      LastSubscriber(s, a.sid, p);
    }
  }

  /** A subscription is an open handle, so the session's loop comes to it. */
  lemma LastSubscriber(s: State, sid: int, p: string)
    requires Wf(s) && sid in s.db && p in s.ds && Replicas.SubscribersLive(s)
    ensures s.ds[p].subscribers.Keys == {sid} ==> Touches(s, sid, |s.db[sid].paths|, p)
  {
    if s.ds[p].subscribers.Keys == {sid} {
      assert sid in s.ds[p].subscribers;
      assert Replicas.Subscribed(s, p, sid);
      assert OpenHandle(s, sid, s.ds[p].subscribers[sid]);
    }
  }

  lemma DeleteExists(s: State, a: Action, t: State, p: string)
    requires Wf(s) && Step(s, a, t) && a.Delete?
    ensures ExistsStep(s, a, t, p)
  {
    hide DeleteFile;
    if a.sid in s.db && p in s.ds {
      assert WfSession(s.ds, s.db[a.sid]);
      Owners.DeleteOwners(s.ds, PathOf(s, a.sid, a.fh), p);
    }
  }

  lemma OtherExists(s: State, a: Action, t: State, p: string)
    requires Wf(s) && Step(s, a, t) && (a.StartSession? || a.SetContent? || a.Acq? || a.Rel?)
    ensures ExistsStep(s, a, t, p)
  {
    assert !a.StartSession? && a.sid in s.db ==> WfSession(s.ds, s.db[a.sid]);
    if a.Rel? && a.sid in s.db && p in s.ds { Owners.ReleaseLeaves(s, a.sid, a.fh, p); }
  }

  /** What a step does to a file's existence. */
  lemma StepExists(s: State, a: Action, t: State, p: string)
    requires Wf(s) && Step(s, a, t) && Replicas.SubscribersLive(s)
    ensures ExistsStep(s, a, t, p)
  {
    hide Step, ExistsStep, Replicas.SubscribersLive;
    match a
    case Open(_, _, _, _) => OpenExists(s, a, t, p);
    case Close(_, _) => CloseExists(s, a, t, p);
    case EndSession(_) => EndExists(s, a, t, p);
    case Delete(_, _) => DeleteExists(s, a, t, p);
    case _ => OtherExists(s, a, t, p);
  }

  /** p vanished at entry j and was not opened again before entry n. */
  predicate VanishedAt(states: seq<State>, log: seq<Action>, j: nat, n: nat, p: string)
    requires |states| == |log| + 1
  {
    && j < n <= |log| && Wf(states[j]) && Vanishes(states[j], log[j], p)
    && forall k | j < k < n :: !OpensPath(states[k], log[k], p)
  }

  /**
   The file of a handle that is open and current is gone exactly if, since the handle's
   Open, a Close or EndSession of the only subscriber made the file, being ephemeral, vanish,
   and nobody has opened it again.
   */
  lemma {:induction false} GoneUnderHandleIff(states: seq<State>, log: seq<Action>, i: nat, n: nat, sid: int, fh: int)
    requires InitRun(states, log) && OpenedAt(states, log, i, sid, fh) && i < n <= |log|
    requires HasHandle(states[n], sid, fh) && Fresh(states[n], sid, fh)
    ensures !Exists(states[n], log[i].path)
       <==> exists j | i < j < n :: VanishedAt(states, log, j, n, log[i].path)
  {
    hide Apply, Vanishes, OpensPath, Exists, Fresh, Deletes;
    var s, a, t, p := states[n - 1], log[n - 1], states[n], log[i].path;
    assert Step(s, a, t);
    Replicas.SubscriptionsAreLive(states, log, n - 1);
    StepExists(s, a, t, p);
    FreshIffUntouched(states, log, i, n, sid, fh);
    HandlesBelow(states, log, i, n, sid, fh);
    if n == i + 1 {
      OpensItsPath(states, log, i, sid, fh);
    } else {
      FreshIffUntouched(states, log, i, n - 1, sid, fh);
      GoneUnderHandleIff(states, log, i, n - 1, sid, fh);
      assert !Outdates(states, log, n - 1, sid, fh, p);
      EitherOr(s, a, p);
      VanishedNext(states, log, i, n - 1, n, p);
    }
  }

  lemma OpensItsPath(states: seq<State>, log: seq<Action>, i: nat, sid: int, fh: int)
    requires |states| == |log| + 1 && OpenedAt(states, log, i, sid, fh)
    ensures OpensPath(states[i], log[i], log[i].path)
  {
  }

  lemma EitherOr(s: State, a: Action, p: string)
    requires Wf(s)
    ensures !(Vanishes(s, a, p) && OpensPath(s, a, p))
  {
  }

  lemma VanishedNext(states: seq<State>, log: seq<Action>, i: nat, m: nat, n: nat, p: string)
    requires |states| == |log| + 1 && i < m && n == m + 1 <= |log| && Wf(states[m])
    ensures (exists j | i < j < n :: VanishedAt(states, log, j, n, p)) <==>
              Vanishes(states[m], log[m], p)
              || (!OpensPath(states[m], log[m], p) && exists j | i < j < m :: VanishedAt(states, log, j, m, p))
  {
    hide Vanishes, OpensPath, Wf;
    if j :| i < j < n && VanishedAt(states, log, j, n, p) {
      if j < m {
        assert !OpensPath(states[m], log[m], p);
        assert VanishedAt(states, log, j, m, p);
      }
    }
    if Vanishes(states[m], log[m], p) {
      assert VanishedAt(states, log, m, n, p);
    }
    if !OpensPath(states[m], log[m], p) {
      if j :| i < j < m && VanishedAt(states, log, j, m, p) {
        assert VanishedAt(states, log, j, n, p);
      }
    }
  }

  /** A turn of notify_events erases the session's subscription exactly if its handle is not open. */
  lemma TurnErasesIff(st: State, p: string, sid: int)
    requires Wf(st)
    ensures SubscribedBy(Replicas.PruneOne(st, p, sid), p, sid) ==
              if SubscribedBy(st, p, sid).Some? && !OpenHandle(st, sid, SubscribedBy(st, p, sid).value) then None
              else SubscribedBy(st, p, sid)
  {
  }
}
