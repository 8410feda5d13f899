/**
 Every subscription names an open handle of a live session, so the pruning that only
 the leader does while it notifies never changes the store: replicas that applied the
 same log agree.
 */
module Replicas {
  import opened Prelude
  import opened Paths
  import opened Store
  import opened Easing
  import opened Handles

  /** Session sid's subscription to p is an open handle of sid's on p. */
  predicate Subscribed(st: State, p: string, sid: int)
    requires Wf(st) && p in st.ds && sid in st.ds[p].subscribers
  {
    var fh := st.ds[p].subscribers[sid];
    HasHandle(st, sid, fh) && PathOf(st, sid, fh) == p
    && WfSession(st.ds, st.db[sid]) && InumOf(st, sid, fh) != -1
  }

  predicate SubscribersLive(st: State)
    requires Wf(st)
  {
    forall p, sid | p in st.ds && sid in st.ds[p].subscribers :: Subscribed(st, p, sid)
  }

  lemma UnsubscribeDrops(ds: map<string, File>, sid: int, key: string, p: string)
    requires key in ds && Parent(key) in ds && p in ds
    ensures Unsubscribe(ds, sid, key).ds[p].subscribers
         == if p == key then ds[p].subscribers - {sid} else ds[p].subscribers
  {
    hide Unlist;
    var f := ds[key];
    UnlistFrame(ds[key := f.(subscribers := f.subscribers - {sid}, fileExists := false)], key, p);
    if sid !in f.subscribers {
      assert f.subscribers - {sid} == f.subscribers;
    }
  }

  lemma CloseKeepsLive(s: State, sid: int, fh: int)
    requires Wf(s) && HasHandle(s, sid, fh) && SubscribersLive(s)
    ensures SubscribersLive(CloseFile(s, sid, fh).st)
  {
    hide Unsubscribe;
    var t := CloseFile(s, sid, fh).st;
    assert WfSession(s.ds, s.db[sid]);
    forall p, q | p in t.ds && q in t.ds[p].subscribers
      ensures Subscribed(t, p, q)
    {
      UnsubscribeDrops(s.ds, sid, s.db[sid].paths[fh], p);
      assert Subscribed(s, p, q);
      assert WfSession(t.ds, t.db[q]);
    }
  }

  lemma ReleaseKeepsLive(s: State, sid: int, fh: int)
    requires Wf(s) && (sid in s.db ==> HasHandle(s, sid, fh)) && SubscribersLive(s)
    ensures SubscribersLive(ReleaseLock(s, sid, fh).st)
  {
    if sid in s.db { assert WfSession(s.ds, s.db[sid]); }
    var t := ReleaseLock(s, sid, fh).st;
    forall p, q | p in t.ds && q in t.ds[p].subscribers
      ensures Subscribed(t, p, q)
    {
      assert Subscribed(s, p, q);
    }
  }

  /** The first n handles are closed. */
  predicate ClosedBelow(s: Session, n: nat) {
    n <= |s.inums| && forall i | 0 <= i < n :: s.inums[i] == -1
  }

  lemma EndOneCloses(done: Ended, sid: int, fh: nat)
    requires Wf(done.st) && sid in done.st.db && fh < |done.st.db[sid].paths|
    requires SubscribersLive(done.st) && ClosedBelow(done.st.db[sid], fh)
    ensures var t := EndOne(done, sid, fh).st;
            SubscribersLive(t) && ClosedBelow(t.db[sid], fh + 1)
  {
    hide CloseFile, ReleaseLock;
    assert WfSession(done.st.ds, done.st.db[sid]);
    var t := CloseFile(done.st, sid, fh).st;
    CloseKeepsLive(done.st, sid, fh);
    CloseInums(done.st, sid, fh);
    ReleaseKeepsLive(t, sid, fh);
  }

  lemma {:induction false} EndCloses(s: State, sid: int, n: nat)
    requires Wf(s) && sid in s.db && n <= |s.db[sid].paths| && SubscribersLive(s)
    ensures var t := EndUpTo(s, sid, n).st;
            SubscribersLive(t) && ClosedBelow(t.db[sid], n)
  {
    hide EndOne;
    if n > 0 {
      EndCloses(s, sid, n - 1);
      EndOneCloses(EndUpTo(s, sid, n - 1), sid, n - 1);
    }
  }

  /** After EndSession the session is in no subscriber map. */
  lemma EndUnsubscribes(s: State, a: Action, t: State)
    requires Step(s, a, t) && a.EndSession? && SubscribersLive(s)
    ensures SubscribersLive(t) && forall p | p in t.ds :: a.sid !in t.ds[p].subscribers
  {
    hide EndUpTo;
    if a.sid in s.db {
      var n := |s.db[a.sid].paths|;
      EndCloses(s, a.sid, n);
      var u := EndUpTo(s, a.sid, n).st;
      forall p, q | p in t.ds && q in t.ds[p].subscribers
        ensures q != a.sid && Subscribed(t, p, q)
      {
        assert Subscribed(u, p, q);
        assert q in t.db ==> WfSession(t.ds, t.db[q]);
      }
    } else {
      forall p | p in t.ds
        ensures a.sid !in t.ds[p].subscribers
      {
        assert a.sid in s.ds[p].subscribers ==> Subscribed(s, p, a.sid);
      }
    }
  }

  lemma OpenKeepsLive(s: State, a: Action, t: State)
    requires Step(s, a, t) && a.Open? && SubscribersLive(s) && CountsUp(s)
    ensures SubscribersLive(t)
  {
    if a.sid in s.db {
      var fh := |s.db[a.sid].paths|;
      assert WfSession(s.ds, s.db[a.sid]);
      forall p, q | p in t.ds && q in t.ds[p].subscribers
        ensures Subscribed(t, p, q)
      {
        OpenSubscribers(s.ds, a, fh, p);
        if p in s.ds && q in s.ds[p].subscribers { assert Subscribed(s, p, q); }
        assert WfSession(t.ds, t.db[q]);
      }
    }
  }

  lemma OpenSubscribers(ds: map<string, File>, a: Action, fh: int, p: string)
    requires a.Open? && OpenFile(ds, a, fh).Some? && p in OpenFile(ds, a, fh).value
    ensures OpenFile(ds, a, fh).value[p].subscribers
         == if p == a.path then FileAt(ds, p).subscribers[a.sid := fh] else FileAt(ds, p).subscribers
  {
    hide Parent, Filename;
  }

  lemma DeleteSubscribers(ds: map<string, File>, key: string, p: string)
    requires key in ds && Parent(key) in ds && p in ds
    ensures DeleteFile(ds, key)[p].subscribers == ds[p].subscribers
  {
    hide Unlist;
    UnlistFrame(ds[key := Deleted(ds[key])], key, p);
  }

  lemma DeleteKeepsLive(s: State, a: Action, t: State)
    requires Step(s, a, t) && a.Delete? && SubscribersLive(s)
    ensures SubscribersLive(t)
  {
    hide DeleteFile;
    if a.sid in s.db {
      assert WfSession(s.ds, s.db[a.sid]);
      forall p, q | p in t.ds && q in t.ds[p].subscribers
        ensures Subscribed(t, p, q)
      {
        DeleteSubscribers(s.ds, PathOf(s, a.sid, a.fh), p);
        assert Subscribed(s, p, q);
        assert WfSession(t.ds, t.db[q]);
      }
    }
  }

  lemma OtherKeepsLive(s: State, a: Action, t: State)
    requires Step(s, a, t) && (a.StartSession? || a.SetContent? || a.Acq?) && SubscribersLive(s)
    ensures SubscribersLive(t)
  {
    forall p, q | p in t.ds && q in t.ds[p].subscribers
      ensures Subscribed(t, p, q)
    {
      assert Subscribed(s, p, q);
      assert WfSession(t.ds, t.db[q]);
    }
  }

  lemma CloseStepKeepsLive(s: State, a: Action, t: State)
    requires Step(s, a, t) && (a.Close? || a.Rel?) && SubscribersLive(s)
    ensures SubscribersLive(t)
  {
    hide CloseFile, ReleaseLock;
    if a.Rel? {
      ReleaseKeepsLive(s, a.sid, a.fh);
    } else if a.sid in s.db {
      CloseKeepsLive(s, a.sid, a.fh);
      ReleaseKeepsLive(CloseFile(s, a.sid, a.fh).st, a.sid, a.fh);
    }
  }

  lemma StepKeepsLive(s: State, a: Action, t: State)
    requires Step(s, a, t) && SubscribersLive(s) && CountsUp(s)
    ensures SubscribersLive(t) && CountsUp(t)
  {
    hide Step, SubscribersLive;
    forall p | p in t.ds
      ensures t.ds[p].instanceNum >= 0
    {
      StepInstance(s, a, t, p);
    }
    match a
    case Open(_, _, _, _) => OpenKeepsLive(s, a, t);
    case EndSession(_) => EndUnsubscribes(s, a, t);
    case Delete(_, _) => DeleteKeepsLive(s, a, t);
    case Close(_, _) => CloseStepKeepsLive(s, a, t);
    case Rel(_, _) => CloseStepKeepsLive(s, a, t);
    case _ => OtherKeepsLive(s, a, t);
  }

  /** In every reachable state every subscription is an open handle of a live session on that path. */
  lemma {:induction false} SubscriptionsAreLive(states: seq<State>, log: seq<Action>, n: nat)
    requires InitRun(states, log) && n <= |log|
    ensures SubscribersLive(states[n]) && CountsUp(states[n])
  {
    hide Apply;
    if n > 0 {
      SubscriptionsAreLive(states, log, n - 1);
      assert Step(states[n - 1], log[n - 1], states[n]);
      StepKeepsLive(states[n - 1], log[n - 1], states[n]);
    }
  }

  // ----- the leader notifies, the followers do not -----

  /** The erasures notify_events makes in p's subscriber map while iterating over it. */
  function Prune(st: State, p: string): (t: State)
    requires Wf(st)
    ensures Wf(t)
  {
    if p !in st.ds then st
    else
      var f := st.ds[p];
      var kept := map sid | sid in f.subscribers && NotStale(st, sid, f.subscribers[sid]) :: f.subscribers[sid];
      var t := st.(ds := st.ds[p := f.(subscribers := kept)]);
      WfKeep(st, t);
      t
  }

  /** The session is there and the handle was not closed. */
  predicate NotStale(st: State, sid: int, fh: int)
    requires Wf(st)
  {
    HasHandle(st, sid, fh) && InumOf(st, sid, fh) != -1
  }

  lemma PruneIsIdle(st: State, p: string)
    requires Wf(st) && SubscribersLive(st)
    ensures Prune(st, p) == st
  {
    if p in st.ds {
      var f := st.ds[p];
      assert forall sid | sid in f.subscribers :: Subscribed(st, p, sid);
      var kept := map sid | sid in f.subscribers && NotStale(st, sid, f.subscribers[sid]) :: f.subscribers[sid];
      assert kept == f.subscribers;
      assert st.ds[p := f] == st.ds;
    }
  }

  /** One turn of that loop, at session sid's subscription. */
  function PruneOne(st: State, p: string, sid: int): (t: State)
    requires Wf(st)
    ensures Wf(t)
  {
    if p !in st.ds || sid !in st.ds[p].subscribers || NotStale(st, sid, st.ds[p].subscribers[sid]) then st
    else
      var t := st.(ds := st.ds[p := st.ds[p].(subscribers := st.ds[p].subscribers - {sid})]);
      WfKeep(st, t);
      t
  }

  /** A whole loop: one turn after another. */
  function Turns(st: State, p: string, sids: seq<int>): (t: State)
    requires Wf(st)
    ensures Wf(t)
  {
    if sids == [] then st else PruneOne(Turns(st, p, sids[..|sids| - 1]), p, sids[|sids| - 1])
  }

  /** The subscribers of p after these turns. */
  function Left(st: State, p: string, sids: seq<int>): map<int, int>
    requires Wf(st) && p in st.ds
  {
    var subs := st.ds[p].subscribers;
    map sid | sid in subs && (sid !in sids || NotStale(st, sid, subs[sid])) :: subs[sid]
  }

  lemma LeftNext(st: State, p: string, sids: seq<int>, sid: int)
    requires Wf(st) && p in st.ds
    ensures var subs, left := st.ds[p].subscribers, Left(st, p, sids);
            Left(st, p, sids + [sid]) ==
              (if sid in left && !NotStale(st, sid, subs[sid]) then left - {sid} else left)
            && (sid in left <==> sid in subs && (sid !in sids || NotStale(st, sid, subs[sid])))
            && (sid in left ==> left[sid] == subs[sid])
  {
    hide NotStale;
    var left, next := Left(st, p, sids), Left(st, p, sids + [sid]);
    assert forall q :: q in sids + [sid] <==> q in sids || q == sid;
    if sid in left && !NotStale(st, sid, st.ds[p].subscribers[sid]) {
      assert next.Keys == (left - {sid}).Keys;
    }
  }

  lemma {:induction false} TurnsLeave(st: State, p: string, sids: seq<int>)
    requires Wf(st) && p in st.ds
    ensures Turns(st, p, sids) == st.(ds := st.ds[p := st.ds[p].(subscribers := Left(st, p, sids))])
  {
    hide Left, NotStale;
    if sids == [] {
      NothingLeft(st, p);
    } else {
      var front, sid := sids[..|sids| - 1], sids[|sids| - 1];
      TurnsLeave(st, p, front);
      LeftNext(st, p, front, sid);
      assert sids == front + [sid];
      SameTable(st, Turns(st, p, front), sid);
      var f := st.ds[p];
      Overwrite(st.ds, p, f.(subscribers := Left(st, p, front)), f.(subscribers := Left(st, p, sids)));
    }
  }

  lemma Overwrite(ds: map<string, File>, p: string, f: File, g: File)
    ensures ds[p := f][p := g] == ds[p := g]
  {
  }

  lemma NothingLeft(st: State, p: string)
    requires Wf(st) && p in st.ds
    ensures Left(st, p, []) == st.ds[p].subscribers
  {
  }

  /** Whether a subscription is stale depends on the session table alone. */
  lemma SameTable(s: State, t: State, sid: int)
    requires Wf(s) && Wf(t) && t.db == s.db
    ensures forall fh :: NotStale(t, sid, fh) == NotStale(s, sid, fh)
  {
  }

  /** Turns that come to every subscriber, in any order, erase what the whole loop erases. */
  lemma TurnsMakeThePass(st: State, p: string, sids: seq<int>)
    requires Wf(st) && p in st.ds && forall sid | sid in st.ds[p].subscribers :: sid in sids
    ensures Turns(st, p, sids) == Prune(st, p)
  {
    hide NotStale;
    TurnsLeave(st, p, sids);
    var subs := st.ds[p].subscribers;
    var kept := map sid | sid in subs && NotStale(st, sid, subs[sid]) :: subs[sid];
    assert Left(st, p, sids) == kept;
  }

  /** In every reachable state a whole loop over the subscribers of any path leaves the store as it is. */
  lemma NotifyingLeavesTheStore(states: seq<State>, log: seq<Action>, n: nat, p: string)
    requires InitRun(states, log) && n <= |log|
    ensures Prune(states[n], p) == states[n]
  {
    SubscriptionsAreLive(states, log, n);
    PruneIsIdle(states[n], p);
  }

  lemma PruneOneIsIdle(st: State, p: string, sid: int)
    requires Wf(st) && SubscribersLive(st)
    ensures PruneOne(st, p, sid) == st
  {
    if p in st.ds && sid in st.ds[p].subscribers { assert Subscribed(st, p, sid); }
  }

  /** On the leader the turns of any number of such loops come between the log entries. */
  datatype Event = Commit(a: Action) | Visit(path: string, sid: int)

  /** What a replica holds after the log; None once it aborted. */
  function Follow(st: State, log: seq<Action>): Option<State>
    requires Wf(st)
    decreases |log|
  {
    if log == [] then Some(st)
    else match Apply(st, log[0])
         case Abort => None
         case Done(t, _, _, _) => Follow(t, log[1..])
  }

  /** What the leader holds, with its notifications in between. */
  function Lead(st: State, events: seq<Event>): Option<State>
    requires Wf(st)
    decreases |events|
  {
    if events == [] then Some(st)
    else match events[0]
         case Visit(p, sid) => Lead(PruneOne(st, p, sid), events[1..])
         case Commit(a) =>
           match Apply(st, a)
           case Abort => None
           case Done(t, _, _, _) => Lead(t, events[1..])
  }

  function Commits(events: seq<Event>): seq<Action> {
    if events == [] then []
    else match events[0]
         case Visit(_, _) => Commits(events[1..])
         case Commit(a) => [a] + Commits(events[1..])
  }

  /** However the leader's notifications interleave with the log, it ends with a follower's store. */
  lemma {:induction false} LeaderAgreesWithFollowers(st: State, events: seq<Event>)
    requires Wf(st) && SubscribersLive(st) && CountsUp(st)
    ensures Lead(st, events) == Follow(st, Commits(events))
    decreases |events|
  {
    hide Apply, PruneOne;
    if events != [] {
      match events[0]
      case Visit(p, sid) =>
        PruneOneIsIdle(st, p, sid);
        LeaderAgreesWithFollowers(st, events[1..]);
      case Commit(a) =>
        assert Commits(events)[0] == a && Commits(events)[1..] == Commits(events[1..]);
        if Apply(st, a).Done? {
          StepKeepsLive(st, a, Apply(st, a).st);
          LeaderAgreesWithFollowers(Apply(st, a).st, events[1..]);
        }
    }
  }

  /** In particular from the server's start on. */
  lemma ReplicasAgree(events: seq<Event>)
    ensures Wf(INIT) && Lead(INIT, events) == Follow(INIT, Commits(events))
  {
    assert Wf(INIT) by { assert Parent("/") == "/"; }
    LeaderAgreesWithFollowers(INIT, events);
  }
}
