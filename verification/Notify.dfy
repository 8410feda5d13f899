/** notify_events: tell every subscriber of a path, and prune the stale subscriptions on the way. */
module Notify {
  import opened Prelude
  import opened Store
  import opened Replicas
  import Events

  /** The subscribers that are told: the ones with an open handle of a live session. */
  function Told(st: State, path: string): map<int, int>
    requires Wf(st) && path in st.ds
  {
    var subs := st.ds[path].subscribers;
    map sid | sid in subs && NotStale(st, sid, subs[sid]) :: subs[sid]
  }

  class Leader {
    var ds: map<string, File>
    var db: map<int, Session>
    var nextId: nat
    var threads: map<int, Events.KAThread>   // the sessions whose keepalive thread runs

    function Store(): State
      reads this
    {
      State(ds, db, nextId)
    }

    ghost predicate Valid()
      reads this
    {
      Wf(Store()) && forall a, b | a in threads && b in threads && a != b :: threads[a] != threads[b]
    }

    /** One turn of the loop: tell the session, or erase it from the subscribers. */
    method TellOne(sid: int, subs: map<int, int>, waits: map<int, nat>)
      returns (left: map<int, int>, pending: map<int, nat>)
      requires Valid() && sid in subs
      modifies threads.Values
      ensures var ok := NotStale(Store(), sid, subs[sid]);
              && left == (if ok then subs else subs - {sid})
              && pending == (if ok && sid in threads then waits[sid := old(threads[sid].Abs().eventId)] else waits)
              && forall t | t in threads ::
                   threads[t].Abs() ==
                     if ok && t == sid then Events.Enqueue(old(threads[t].Abs()), subs[sid]) else old(threads[t].Abs())
    {
      left, pending := subs, waits;
      if !NotStale(Store(), sid, subs[sid]) {
        left := subs - {sid};
      } else if sid in threads {
        var thread := threads[sid];
        assert forall t | t in threads && t != sid :: threads[t] != thread;
        var eid := thread.EnqueueEvent(subs[sid]);
        pending := waits[sid := eid];
      }
    }

    /** The loop: what is left of the subscriber map, and the events to wait for. */
    method TellAll(path: string) returns (subs: map<int, int>, waits: map<int, nat>)
      requires Valid() && path in ds
      modifies threads.Values
      ensures subs == Told(Store(), path)
      ensures forall sid :: sid in waits <==> sid in subs && sid in threads
      ensures forall sid | sid in waits :: waits[sid] == old(threads[sid].Abs().eventId)
      ensures forall sid | sid in threads ::
                threads[sid].Abs() ==
                  if sid in subs then Events.Enqueue(old(threads[sid].Abs()), subs[sid]) else old(threads[sid].Abs())
    {
      ghost var told := Told(Store(), path);
      ghost var all := ds[path].subscribers;
      subs := ds[path].subscribers;
      var todo := subs.Keys;
      waits := map[];
      ToldSubset(Store(), path);
      hide Told, NotStale, Wf, Events.Enqueue, Events.KAThread.Abs, Valid;
      while todo != {}
        invariant todo + told.Keys <= all.Keys
        invariant subs.Keys == todo + told.Keys
        invariant forall sid | sid in subs :: subs[sid] == all[sid]
        invariant forall sid :: sid in waits <==> sid in told && sid !in todo && sid in threads
        invariant forall sid | sid in waits :: waits[sid] == old(threads[sid].Abs().eventId)
        invariant forall sid | sid in threads ::
                    threads[sid].Abs() ==
                      if sid in told && sid !in todo then Events.Enqueue(old(threads[sid].Abs()), all[sid])
                      else old(threads[sid].Abs())
        decreases todo
      {
        Inhabited(todo);
        var sid :| sid in todo;
        ToldIff(Store(), path, sid);
        subs, waits := TellOne(sid, subs, waits);
        todo := todo - {sid};
      }
      SameMap(subs, told);
    }

    /**
     Enqueue one event for every subscriber that is not stale, and erase the others.
     The result names the events whose acknowledgement the caller then waits for.
     */
    method NotifyEvents(path: string) returns (waits: map<int, nat>)
      requires Valid() && path in ds
      modifies this`ds, threads.Values
      ensures Valid() && Store() == Prune(old(Store()), path)
      ensures var told := Told(old(Store()), path);
              && (forall sid :: sid in waits <==> sid in told && sid in threads)
              && (forall sid | sid in waits :: waits[sid] == old(threads[sid].Abs().eventId))
              && forall sid | sid in threads ::
                   threads[sid].Abs() ==
                     if sid in told then Events.Enqueue(old(threads[sid].Abs()), told[sid]) else old(threads[sid].Abs())
    {
      PruneIs(Store(), path);
      hide Told, NotStale, Wf, Prune, Events.Enqueue;
      var subs;
      subs, waits := TellAll(path);
      ds := ds[path := ds[path].(subscribers := subs)];
    }
  }

  lemma SameMap<K, V>(a: map<K, V>, b: map<K, V>)
    requires a.Keys == b.Keys
    requires forall k | k in a :: a[k] == b[k]
    ensures a == b
  {
  }

  lemma ToldIff(st: State, path: string, sid: int)
    requires Wf(st) && path in st.ds && sid in st.ds[path].subscribers
    ensures var fh := st.ds[path].subscribers[sid];
            (sid in Told(st, path) <==> NotStale(st, sid, fh)) && (sid in Told(st, path) ==> Told(st, path)[sid] == fh)
  {
  }

  lemma ToldSubset(st: State, path: string)
    requires Wf(st) && path in st.ds
    ensures forall sid | sid in Told(st, path) ::
              sid in st.ds[path].subscribers && Told(st, path)[sid] == st.ds[path].subscribers[sid]
  {
  }

  lemma PruneIs(st: State, path: string)
    requires Wf(st) && path in st.ds
    ensures Prune(st, path) == st.(ds := st.ds[path := st.ds[path].(subscribers := Told(st, path))])
  {
  }

  /** In every reachable state each subscriber of a path is told, for its subscribed handle, and none is erased. */
  lemma EverySubscriberIsTold(states: seq<State>, log: seq<Action>, n: nat, path: string)
    requires InitRun(states, log) && n <= |log| && path in states[n].ds
    ensures Told(states[n], path) == states[n].ds[path].subscribers && Prune(states[n], path) == states[n]
  {
    NotifyingLeavesTheStore(states, log, n, path);
    PruneIs(states[n], path);
    var f := states[n].ds[path];
    assert Prune(states[n], path).ds[path] == f;
  }
}
