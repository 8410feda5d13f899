/**
 The keepalive protocol told from its history: when a client is connected, what it caches,
 which acknowledgement its next call carries, which ones the server has, which waits can end
 and when a writer may return.
 */
module Protocol {
  import opened Prelude
  import opened Store
  import opened Events
  import opened Clients
  import opened Coherence
  import Coverage
  import Replicas

  /** The writer's turn sends the session an event. */
  predicate Sends(s: Sys, w: nat, sid: int)
    requires s.hist != [] && Wf(Now(s))
  {
    && w in s.writers && s.writers[w].path in Now(s).ds && sid in Now(s).ds[s.writers[w].path].subscribers
    && Replicas.NotStale(Now(s), sid, Now(s).ds[s.writers[w].path].subscribers[sid]) && sid in s.peers
  }

  lemma LabelHasPeer(s: Sys, l: Label, u: Sys, sid: int)
    requires SysOk(s) && Fire(s, l) == Some(u)
    ensures (MovesPeer(l) || l.Unblock?) && l.sid == sid ==> sid in s.peers
    ensures sid in s.peers ==> sid in u.peers
    ensures sid in u.peers && sid !in s.peers ==> l == Join(sid) && u.peers[sid] == NEW_PEER
    ensures l == Join(sid) ==> sid !in s.peers
  {
    hide SysOk, Apply, Targets;
    SysHasNow(s);
  }

  /** How a step changes one peer. */
  lemma PeerEffect(s: Sys, l: Label, u: Sys, sid: int)
    requires SysOk(s) && Fire(s, l) == Some(u) && sid in s.peers
    ensures s.hist != [] && Wf(Now(s)) && sid in u.peers
    ensures var p, q := s.peers[sid], u.peers[sid];
            if MovesPeer(l) && l.sid == sid then PeerMove(s, l) == Some(q)
            else if l.NotifyNext? && l.sid == sid && Sends(s, l.w, sid) then
              q == Post(p, Now(s).ds[s.writers[l.w].path].subscribers[sid])
            else if l.Unblock? && l.sid == sid then
              l.w in s.writers && sid in s.writers[l.w].waiting
              && q == p.(ka := Forget(p.ka, s.writers[l.w].waiting[sid]))
            else q == p
  {
    hide SysOk, Apply, Targets, PeerMove, Replicas.NotStale;
    SysHasNow(s);
  }

  lemma {:induction false} PeerStays(ss: seq<Sys>, ls: seq<Label>, m: nat, n: nat, sid: int)
    requires SysRun(ss, ls) && m <= n <= |ls|
    ensures sid in ss[m].peers ==> sid in ss[n].peers
  {
    hide Fire, SysOk;
    if m < n {
      PeerStays(ss, ls, m, n - 1, sid);
      Reachable(ss, ls, n - 1);
      assert Fire(ss[n - 1], ls[n - 1]) == Some(ss[n]);
      LabelHasPeer(ss[n - 1], ls[n - 1], ss[n], sid);
    }
  }

  lemma NoLabelBefore(ss: seq<Sys>, ls: seq<Label>, m: nat, n: nat, sid: int)
    requires SysRun(ss, ls) && m < n <= |ls| && sid !in ss[n].peers
    ensures (MovesPeer(ls[m]) || ls[m].Unblock?) ==> ls[m].sid != sid
    ensures ls[m] != Join(sid)
  {
    hide Fire, SysOk;
    Reachable(ss, ls, m);
    assert Fire(ss[m], ls[m]) == Some(ss[m + 1]);
    LabelHasPeer(ss[m], ls[m], ss[m + 1], sid);
    PeerStays(ss, ls, m, n, sid);
    PeerStays(ss, ls, m + 1, n, sid);
    if ls[m] == Join(sid) { JoinAdds(ss[m], ss[m + 1], sid); }
  }

  lemma JoinAdds(s: Sys, u: Sys, sid: int)
    requires SysOk(s) && Fire(s, Join(sid)) == Some(u)
    ensures sid in u.peers
  {
  }

  // ----- acknowledgements the server has -----

  predicate Acks(l: Label, sid: int, eid: nat) {
    l.ReceiveCall? && l.sid == sid && l.request.ack == Some(eid)
  }

  /** A wait for the event ends, which forgets the acknowledgement. */
  predicate Forgets(s: Sys, l: Label, sid: int, eid: nat) {
    && l.Unblock? && l.sid == sid && l.w in s.writers
    && sid in s.writers[l.w].waiting && s.writers[l.w].waiting[sid] == eid
  }

  lemma StepAcked(s: Sys, l: Label, u: Sys, sid: int, eid: nat)
    requires SysOk(s) && Fire(s, l) == Some(u) && sid in s.peers
    ensures sid in u.peers
    ensures eid in u.peers[sid].ka.acked <==>
              Acks(l, sid, eid) || (eid in s.peers[sid].ka.acked && !Forgets(s, l, sid, eid))
  {
    hide SysOk, Fire, Sends;
    PeerEffect(s, l, u, sid);
  }

  predicate AckedAt(ss: seq<Sys>, ls: seq<Label>, m: nat, n: nat, sid: int, eid: nat) {
    && m < n <= |ls| && n <= |ss| && Acks(ls[m], sid, eid)
    && forall k | m < k < n :: !Forgets(ss[k], ls[k], sid, eid)
  }

  lemma AckedNext(ss: seq<Sys>, ls: seq<Label>, m: nat, n: nat, sid: int, eid: nat)
    requires n == m + 1 <= |ls| && n <= |ss|
    ensures (exists i: nat :: AckedAt(ss, ls, i, n, sid, eid)) <==>
              Acks(ls[m], sid, eid)
              || ((exists i: nat :: AckedAt(ss, ls, i, m, sid, eid)) && !Forgets(ss[m], ls[m], sid, eid))
  {
    hide Acks, Forgets;
    if i: nat :| AckedAt(ss, ls, i, n, sid, eid) {
      if i < m { assert AckedAt(ss, ls, i, m, sid, eid); }
    }
    if Acks(ls[m], sid, eid) {
      assert AckedAt(ss, ls, m, n, sid, eid);
    }
    if !Forgets(ss[m], ls[m], sid, eid) {
      if i: nat :| AckedAt(ss, ls, i, m, sid, eid) { assert AckedAt(ss, ls, i, n, sid, eid); }
    }
  }

  /**
   The server has an acknowledgement exactly if a KeepAlive call brought it and no wait for
   that event has ended since.
   */
  lemma {:induction false} AckedIff(ss: seq<Sys>, ls: seq<Label>, n: nat, sid: int, eid: nat)
    requires SysRun(ss, ls) && n <= |ls| && sid in ss[n].peers
    ensures eid in ss[n].peers[sid].ka.acked <==> exists m: nat :: AckedAt(ss, ls, m, n, sid, eid)
  {
    hide Fire, SysOk, Acks, Forgets;
    assert n > 0;
    Reachable(ss, ls, n - 1);
    assert Fire(ss[n - 1], ls[n - 1]) == Some(ss[n]);
    LabelHasPeer(ss[n - 1], ls[n - 1], ss[n], sid);
    if sid in ss[n - 1].peers {
      AckedIff(ss, ls, n - 1, sid, eid);
      StepAcked(ss[n - 1], ls[n - 1], ss[n], sid, eid);
      AckedNext(ss, ls, n - 1, n, sid, eid);
    } else {
      NothingAcked(ss, ls, n, sid, eid);
    }
  }

  lemma NothingAcked(ss: seq<Sys>, ls: seq<Label>, n: nat, sid: int, eid: nat)
    requires SysRun(ss, ls) && 0 < n <= |ls| && sid !in ss[n - 1].peers && ls[n - 1] == Join(sid)
    ensures !exists m: nat :: AckedAt(ss, ls, m, n, sid, eid)
  {
    hide Fire, SysOk;
    if m: nat :| AckedAt(ss, ls, m, n, sid, eid) {
      if m < n - 1 { NoLabelBefore(ss, ls, m, n - 1, sid); }
    }
  }

  /** The session's thread was stopped, or expired. */
  predicate Stops(s: Sys, l: Label, sid: int) {
    l == StopThread(sid) || (l == WakeThread(sid, true) && sid in s.peers && s.peers[sid].ka.reactor.None?)
  }

  lemma StepCancelled(s: Sys, l: Label, u: Sys, sid: int)
    requires SysOk(s) && Fire(s, l) == Some(u) && sid in s.peers
    ensures sid in u.peers
    ensures u.peers[sid].ka.cancelled <==> s.peers[sid].ka.cancelled || Stops(s, l, sid)
  {
    hide SysOk, Fire, Sends;
    PeerEffect(s, l, u, sid);
  }

  /** A keepalive thread is cancelled exactly if it was stopped, or a timeout found it without a reply slot. */
  lemma {:induction false} CancelledIff(ss: seq<Sys>, ls: seq<Label>, n: nat, sid: int)
    requires SysRun(ss, ls) && n <= |ls| && sid in ss[n].peers
    ensures ss[n].peers[sid].ka.cancelled <==> exists m | 0 <= m < n :: Stops(ss[m], ls[m], sid)
  {
    hide Fire, SysOk, Stops;
    assert n > 0;
    Reachable(ss, ls, n - 1);
    assert Fire(ss[n - 1], ls[n - 1]) == Some(ss[n]);
    LabelHasPeer(ss[n - 1], ls[n - 1], ss[n], sid);
    if sid in ss[n - 1].peers {
      CancelledIff(ss, ls, n - 1, sid);
      StepCancelled(ss[n - 1], ls[n - 1], ss[n], sid);
    } else {
      forall m | 0 <= m < n
        ensures !Stops(ss[m], ls[m], sid)
      {
        NoStopBefore(ss, ls, m, n, sid);
      }
    }
  }

  lemma NoStopBefore(ss: seq<Sys>, ls: seq<Label>, m: nat, n: nat, sid: int)
    requires SysRun(ss, ls) && m < n <= |ls| && sid !in ss[n - 1].peers && ls[n - 1] == Join(sid)
    ensures !Stops(ss[m], ls[m], sid)
  {
    hide Fire, SysOk;
    if m < n - 1 { NoLabelBefore(ss, ls, m, n - 1, sid); }
  }

  /** A wait can end exactly if its event's acknowledgement came and was not used up, or the thread is cancelled. */
  lemma WaitCanEndIff(ss: seq<Sys>, ls: seq<Label>, n: nat, w: nat, sid: int)
    requires SysRun(ss, ls) && n <= |ls| && w in ss[n].writers && sid in ss[n].writers[w].waiting && sid in ss[n].peers
    ensures Fire(ss[n], Unblock(w, sid)).Some? <==>
              || (exists m: nat :: AckedAt(ss, ls, m, n, sid, ss[n].writers[w].waiting[sid]))
              || (exists m | 0 <= m < n :: Stops(ss[m], ls[m], sid))
  {
    AckedIff(ss, ls, n, sid, ss[n].writers[w].waiting[sid]);
    CancelledIff(ss, ls, n, sid);
    UnblockFires(ss[n], w, sid);
    hide Fire, AckedAt, Stops;
  }

  lemma UnblockFires(s: Sys, w: nat, sid: int)
    requires |s.hist| == |s.log| + 1 && forall i | 0 <= i < |s.hist| :: Wf(s.hist[i])
    requires w in s.writers && sid in s.writers[w].waiting && sid in s.peers
    ensures Fire(s, Unblock(w, sid)).Some? <==>
              s.writers[w].waiting[sid] in s.peers[sid].ka.acked || s.peers[sid].ka.cancelled
  {
    hide Apply, Targets;
  }

  // ----- the client's connection -----

  predicate Connects(l: Label, sid: int) {
    l == Join(sid) || l == GetReply(sid)
  }

  predicate Disconnects(l: Label, sid: int) {
    l.FailCall? && l.sid == sid
  }

  lemma StepConnected(s: Sys, l: Label, u: Sys, sid: int)
    requires SysOk(s) && Fire(s, l) == Some(u) && sid in u.peers
    ensures u.peers[sid].client.connected <==>
              Connects(l, sid) || (sid in s.peers && s.peers[sid].client.connected && !Disconnects(l, sid))
  {
    hide SysOk, Fire, Sends;
    LabelHasPeer(s, l, u, sid);
    if sid in s.peers { PeerEffect(s, l, u, sid); }
  }

  predicate ConnectedAt(ls: seq<Label>, m: nat, n: nat, sid: int) {
    m < n <= |ls| && Connects(ls[m], sid) && forall k | m < k < n :: !Disconnects(ls[k], sid)
  }

  lemma ConnectedNext(ls: seq<Label>, m: nat, n: nat, sid: int)
    requires n == m + 1 <= |ls|
    ensures (exists i: nat :: ConnectedAt(ls, i, n, sid)) <==>
              Connects(ls[m], sid) || ((exists i: nat :: ConnectedAt(ls, i, m, sid)) && !Disconnects(ls[m], sid))
  {
    hide Connects, Disconnects;
    if i: nat :| ConnectedAt(ls, i, n, sid) {
      if i < m { assert ConnectedAt(ls, i, m, sid); }
    }
    if Connects(ls[m], sid) {
      assert ConnectedAt(ls, m, n, sid);
    }
    if !Disconnects(ls[m], sid) {
      if i: nat :| ConnectedAt(ls, i, m, sid) { assert ConnectedAt(ls, i, n, sid); }
    }
  }

  /** A client is connected exactly if no KeepAlive call has failed since it started or last handled a reply. */
  lemma {:induction false} ConnectedIff(ss: seq<Sys>, ls: seq<Label>, n: nat, sid: int)
    requires SysRun(ss, ls) && n <= |ls|
    ensures sid in ss[n].peers && ss[n].peers[sid].client.connected <==> exists m: nat :: ConnectedAt(ls, m, n, sid)
  {
    hide Fire, SysOk, Connects, Disconnects;
    if n > 0 {
      ConnectedIff(ss, ls, n - 1, sid);
      Reachable(ss, ls, n - 1);
      assert Fire(ss[n - 1], ls[n - 1]) == Some(ss[n]);
      LabelHasPeer(ss[n - 1], ls[n - 1], ss[n], sid);
      ConnectedNext(ls, n - 1, n, sid);
      if sid in ss[n].peers {
        StepConnected(ss[n - 1], ls[n - 1], ss[n], sid);
      } else {
        AbsentConnects(ss, ls, n, sid);
      }
    }
  }

  lemma AbsentConnects(ss: seq<Sys>, ls: seq<Label>, n: nat, sid: int)
    requires SysRun(ss, ls) && 0 < n <= |ls| && sid !in ss[n].peers
    ensures !Connects(ls[n - 1], sid)
  {
    hide Fire, SysOk;
    NoLabelBefore(ss, ls, n - 1, n, sid);
  }

  /** From a failed call to the next handled reply no read is answered from the cache. */
  lemma CutOffReadsNothingCached(ss: seq<Sys>, ls: seq<Label>, m: nat, n: nat, sid: int, fh: int)
    requires SysRun(ss, ls) && m < n <= |ls| && sid in ss[n].peers
    requires Disconnects(ls[m], sid) && forall k | m < k < n :: ls[k] != GetReply(sid)
    ensures !Hits(ss[n].peers[sid].client, fh)
  {
    hide Fire, SysOk;
    ConnectedIff(ss, ls, n, sid);
    if i: nat :| ConnectedAt(ls, i, n, sid) {
      assert i >= m;
      if i > m { JoinsOnce(ss, ls, m, i, sid); }
    }
  }

  lemma JoinsOnce(ss: seq<Sys>, ls: seq<Label>, m: nat, n: nat, sid: int)
    requires SysRun(ss, ls) && m < n < |ls| && MovesPeer(ls[m]) && ls[m].sid == sid
    ensures ls[n] != Join(sid)
  {
    hide Fire, SysOk;
    Reachable(ss, ls, m);
    Reachable(ss, ls, n);
    assert Fire(ss[m], ls[m]) == Some(ss[m + 1]) && Fire(ss[n], ls[n]) == Some(ss[n + 1]);
    LabelHasPeer(ss[m], ls[m], ss[m + 1], sid);
    PeerStays(ss, ls, m, n, sid);
    LabelHasPeer(ss[n], ls[n], ss[n + 1], sid);
  }

  /** The client's loop ends exactly with an answer that its session is gone. */
  lemma {:induction false} ClientOverIff(ss: seq<Sys>, ls: seq<Label>, n: nat, sid: int)
    requires SysRun(ss, ls) && n <= |ls|
    ensures sid in ss[n].peers && ss[n].peers[sid].client.cancelled
       <==> exists m | 0 <= m < n :: ls[m] == FailCall(sid, NoSession)
  {
    hide Fire, SysOk;
    if n > 0 {
      ClientOverIff(ss, ls, n - 1, sid);
      Reachable(ss, ls, n - 1);
      assert Fire(ss[n - 1], ls[n - 1]) == Some(ss[n]);
      LabelHasPeer(ss[n - 1], ls[n - 1], ss[n], sid);
      if sid in ss[n - 1].peers { StepOver(ss[n - 1], ls[n - 1], ss[n], sid); }
    }
  }

  lemma StepOver(s: Sys, l: Label, u: Sys, sid: int)
    requires SysOk(s) && Fire(s, l) == Some(u) && sid in s.peers
    ensures sid in u.peers
    ensures u.peers[sid].client.cancelled <==> s.peers[sid].client.cancelled || l == FailCall(sid, NoSession)
  {
    hide SysOk, Fire, Sends;
    PeerEffect(s, l, u, sid);
  }

  // ----- the client's cache -----

  /** The client drops what it caches for the handle: it closed it, had an event for it, or reconnected. */
  predicate Clears(s: Sys, l: Label, sid: int, fh: int) {
    || l == Evict(sid, fh)
    || (l == GetReply(sid) && sid in s.peers &&
        (!s.peers[sid].client.connected || ReplyIsFor(s.peers[sid], fh)))
  }

  /** The reply that the client is about to handle brings an event for the handle. */
  predicate ReplyIsFor(p: Peer, fh: int) {
    && p.phase.Calling? && p.phase.call in p.replies
    && p.replies[p.phase.call].Some? && p.replies[p.phase.call].value.fh == fh
  }

  lemma StepCached(s: Sys, l: Label, u: Sys, sid: int, fh: int)
    requires SysOk(s) && Fire(s, l) == Some(u) && sid in s.peers
    ensures sid in u.peers
    ensures fh in u.peers[sid].client.cache <==>
              l == Read(sid, fh) || (fh in s.peers[sid].client.cache && !Clears(s, l, sid, fh))
  {
    hide SysOk, Fire, Sends;
    PeerEffect(s, l, u, sid);
  }

  predicate CachedAt(ss: seq<Sys>, ls: seq<Label>, m: nat, n: nat, sid: int, fh: int) {
    m < n <= |ls| && n <= |ss| && ls[m] == Read(sid, fh) && forall k | m < k < n :: !Clears(ss[k], ls[k], sid, fh)
  }

  lemma CachedNext(ss: seq<Sys>, ls: seq<Label>, m: nat, n: nat, sid: int, fh: int)
    requires n == m + 1 <= |ls| && n <= |ss|
    ensures (exists i: nat :: CachedAt(ss, ls, i, n, sid, fh)) <==>
              ls[m] == Read(sid, fh)
              || ((exists i: nat :: CachedAt(ss, ls, i, m, sid, fh)) && !Clears(ss[m], ls[m], sid, fh))
  {
    hide Clears;
    if i: nat :| CachedAt(ss, ls, i, n, sid, fh) {
      if i < m { assert CachedAt(ss, ls, i, m, sid, fh); }
    }
    if ls[m] == Read(sid, fh) {
      assert CachedAt(ss, ls, m, n, sid, fh);
    }
    if !Clears(ss[m], ls[m], sid, fh) {
      if i: nat :| CachedAt(ss, ls, i, m, sid, fh) { assert CachedAt(ss, ls, i, n, sid, fh); }
    }
  }

  /**
   A client caches something for a handle exactly if it read it from the server and since
   then has not closed it, handled an event for it, or reconnected.
   */
  lemma {:induction false} CachedIff(ss: seq<Sys>, ls: seq<Label>, n: nat, sid: int, fh: int)
    requires SysRun(ss, ls) && n <= |ls|
    ensures sid in ss[n].peers && fh in ss[n].peers[sid].client.cache
       <==> exists m: nat :: CachedAt(ss, ls, m, n, sid, fh)
  {
    hide Fire, SysOk, Clears;
    if n > 0 {
      CachedIff(ss, ls, n - 1, sid, fh);
      Reachable(ss, ls, n - 1);
      assert Fire(ss[n - 1], ls[n - 1]) == Some(ss[n]);
      LabelHasPeer(ss[n - 1], ls[n - 1], ss[n], sid);
      CachedNext(ss, ls, n - 1, n, sid, fh);
      if sid in ss[n - 1].peers { StepCached(ss[n - 1], ls[n - 1], ss[n], sid, fh); }
    }
  }

  // ----- the acknowledgement of the next call -----

  /** Step m is the client's handling of this event. */
  predicate HandlesEvent(s: Sys, l: Label, sid: int, eid: nat) {
    && l == GetReply(sid) && sid in s.peers && s.peers[sid].phase.Calling?
    && s.peers[sid].phase.call in s.peers[sid].replies
    && s.peers[sid].replies[s.peers[sid].phase.call].Some?
    && s.peers[sid].replies[s.peers[sid].phase.call].value.id == eid
  }

  /** The client's next call will carry this acknowledgement. */
  predicate WillAck(p: Peer, eid: nat) {
    p.phase == Idle(Some(eid))
  }

  lemma StepWillAck(s: Sys, l: Label, u: Sys, sid: int, eid: nat)
    requires SysOk(s) && Fire(s, l) == Some(u) && sid in s.peers
    ensures sid in u.peers
    ensures WillAck(u.peers[sid], eid) <==>
              HandlesEvent(s, l, sid, eid) || (WillAck(s.peers[sid], eid) && l != SendCall(sid))
  {
    hide SysOk, Fire, Sends;
    PeerEffect(s, l, u, sid);
  }

  predicate HandledAt(ss: seq<Sys>, ls: seq<Label>, m: nat, n: nat, sid: int, eid: nat) {
    m < n <= |ls| && n <= |ss| && HandlesEvent(ss[m], ls[m], sid, eid) && forall k | m < k < n :: ls[k] != SendCall(sid)
  }

  lemma HandledNext(ss: seq<Sys>, ls: seq<Label>, m: nat, n: nat, sid: int, eid: nat)
    requires n == m + 1 <= |ls| && n <= |ss|
    ensures (exists i: nat :: HandledAt(ss, ls, i, n, sid, eid)) <==>
              HandlesEvent(ss[m], ls[m], sid, eid)
              || ((exists i: nat :: HandledAt(ss, ls, i, m, sid, eid)) && ls[m] != SendCall(sid))
  {
    hide HandlesEvent;
    if i: nat :| HandledAt(ss, ls, i, n, sid, eid) {
      if i < m { assert HandledAt(ss, ls, i, m, sid, eid); }
    }
    if HandlesEvent(ss[m], ls[m], sid, eid) {
      assert HandledAt(ss, ls, m, n, sid, eid);
    }
    if ls[m] != SendCall(sid) {
      if i: nat :| HandledAt(ss, ls, i, m, sid, eid) { assert HandledAt(ss, ls, i, n, sid, eid); }
    }
  }

  lemma {:induction false} WillAckIff(ss: seq<Sys>, ls: seq<Label>, n: nat, sid: int, eid: nat)
    requires SysRun(ss, ls) && n <= |ls|
    ensures sid in ss[n].peers && WillAck(ss[n].peers[sid], eid)
       <==> exists m: nat :: HandledAt(ss, ls, m, n, sid, eid)
  {
    hide Fire, SysOk, HandlesEvent;
    if n > 0 {
      WillAckIff(ss, ls, n - 1, sid, eid);
      Reachable(ss, ls, n - 1);
      assert Fire(ss[n - 1], ls[n - 1]) == Some(ss[n]);
      LabelHasPeer(ss[n - 1], ls[n - 1], ss[n], sid);
      HandledNext(ss, ls, n - 1, n, sid, eid);
      if sid in ss[n - 1].peers {
        StepWillAck(ss[n - 1], ls[n - 1], ss[n], sid, eid);
      } else {
        NoneHandled(ss[n - 1], ls[n - 1], sid, eid);
      }
    }
  }

  lemma NoneHandled(s: Sys, l: Label, sid: int, eid: nat)
    requires sid !in s.peers
    ensures !HandlesEvent(s, l, sid, eid)
  {
  }

  /**
   A client's call carries the acknowledgement of an event exactly if the client handled
   that event and this is its first call since.
   */
  lemma CallCarriesAckIff(ss: seq<Sys>, ls: seq<Label>, n: nat, sid: int, eid: nat)
    requires SysRun(ss, ls) && n < |ls| && ls[n] == SendCall(sid)
    ensures sid in ss[n].peers && sid in ss[n + 1].peers
    ensures var p, q := ss[n].peers[sid], ss[n + 1].peers[sid];
            exists ack ::
              && q.requests == p.requests + {Request(p.nextCall, ack)} && q.phase == Calling(p.nextCall)
              && (ack == Some(eid) <==> exists m: nat :: HandledAt(ss, ls, m, n, sid, eid))
  {
    hide SysOk, HandledAt;
    Reachable(ss, ls, n);
    assert Fire(ss[n], ls[n]) == Some(ss[n + 1]);
    WillAckIff(ss, ls, n, sid, eid);
    PeerEffectOfSend(ss[n], ss[n + 1], sid);
  }

  lemma PeerEffectOfSend(s: Sys, u: Sys, sid: int)
    requires SysOk(s) && Fire(s, SendCall(sid)) == Some(u)
    ensures sid in s.peers && sid in u.peers && s.peers[sid].phase.Idle?
    ensures var p, q := s.peers[sid], u.peers[sid];
            q.requests == p.requests + {Request(p.nextCall, p.phase.ack)} && q.phase == Calling(p.nextCall)
  {
    hide SysOk, Sends;
    SysHasNow(s);
  }

  // ----- writers -----

  /** The writer of this number starts notifying the path at step b, and has not returned before step n. */
  predicate WriterAt(ss: seq<Sys>, ls: seq<Label>, b: nat, n: nat, w: nat) {
    && b < n <= |ls| && n < |ss| && ls[b].Begin? && ls[b].w == w
    && forall k | b < k < n :: ls[k] != Return(w)
  }

  lemma StepWriter(s: Sys, l: Label, u: Sys, w: nat)
    requires SysOk(s) && Fire(s, l) == Some(u) && w in s.writers && l != Return(w)
    ensures w in u.writers && s.hist != [] && Wf(Now(s))
    ensures var v, x := s.writers[w], u.writers[w];
            && x.path == v.path && x.entry == v.entry
            && (forall sid :: sid in x.todo <==> sid in v.todo && l != NotifyNext(w, sid))
            && (forall sid :: sid in x.waiting <==>
                  (l == NotifyNext(w, sid) && Sends(s, w, sid)) || (sid in v.waiting && l != Unblock(w, sid)))
  {
    hide SysOk, Apply, Targets, PeerMove, Replicas.NotStale;
    SysHasNow(s);
  }

  lemma BeginWriter(s: Sys, l: Label, u: Sys)
    requires SysOk(s) && Fire(s, l) == Some(u) && l.Begin?
    ensures s.hist != [] && l.path in Now(s).ds && l.w in u.writers
    ensures u.writers[l.w] == Writer(l.entry, l.path, Now(s).ds[l.path].subscribers.Keys, map[])
  {
    hide SysOk, Apply, Targets;
    SysHasNow(s);
  }

  /** The writer's turn for the session was taken. */
  predicate Visited(ls: seq<Label>, b: nat, n: nat, w: nat, sid: int) {
    exists k | b < k < n && k < |ls| :: ls[k] == NotifyNext(w, sid)
  }

  /** A turn sent the session an event, and the wait for it has not ended. */
  predicate SentAt(ss: seq<Sys>, ls: seq<Label>, b: nat, k: nat, n: nat, w: nat, sid: int) {
    && b < k < n <= |ls| && n <= |ss| && ls[k] == NotifyNext(w, sid)
    && ss[k].hist != [] && Wf(Now(ss[k])) && Sends(ss[k], w, sid)
    && forall j | k < j < n :: ls[j] != Unblock(w, sid)
  }

  lemma SentNext(ss: seq<Sys>, ls: seq<Label>, b: nat, m: nat, n: nat, w: nat, sid: int)
    requires b < m && n == m + 1 <= |ls| && n <= |ss| && ss[m].hist != [] && Wf(Now(ss[m]))
    ensures (exists k: nat :: SentAt(ss, ls, b, k, n, w, sid)) <==>
              (ls[m] == NotifyNext(w, sid) && Sends(ss[m], w, sid))
              || ((exists k: nat :: SentAt(ss, ls, b, k, m, w, sid)) && ls[m] != Unblock(w, sid))
  {
    hide Sends, Wf;
    if k: nat :| SentAt(ss, ls, b, k, n, w, sid) {
      if k < m { assert SentAt(ss, ls, b, k, m, w, sid); }
    }
    if ls[m] == NotifyNext(w, sid) && Sends(ss[m], w, sid) {
      assert SentAt(ss, ls, b, m, n, w, sid);
    }
    if ls[m] != Unblock(w, sid) {
      if k: nat :| SentAt(ss, ls, b, k, m, w, sid) { assert SentAt(ss, ls, b, k, n, w, sid); }
    }
  }

  /** What a writer has yet to do, from its history. */
  lemma {:induction false} WriterIs(ss: seq<Sys>, ls: seq<Label>, b: nat, n: nat, w: nat, sid: int)
    requires SysRun(ss, ls) && WriterAt(ss, ls, b, n, w)
    ensures ss[b].hist != [] && ls[b].path in Now(ss[b]).ds && w in ss[n].writers
    ensures ss[n].writers[w].path == ls[b].path && ss[n].writers[w].entry == ls[b].entry
    ensures sid in ss[n].writers[w].todo
       <==> sid in Now(ss[b]).ds[ls[b].path].subscribers && !Visited(ls, b, n, w, sid)
    ensures sid in ss[n].writers[w].waiting <==> exists k: nat :: SentAt(ss, ls, b, k, n, w, sid)
  {
    hide Fire, SysOk, Sends;
    Reachable(ss, ls, n - 1);
    assert Fire(ss[n - 1], ls[n - 1]) == Some(ss[n]);
    if n == b + 1 {
      BeginWriter(ss[b], ls[b], ss[n]);
    } else {
      assert WriterAt(ss, ls, b, n - 1, w);
      WriterIs(ss, ls, b, n - 1, w, sid);
      StepWriter(ss[n - 1], ls[n - 1], ss[n], w);
      SentNext(ss, ls, b, n - 1, n, w, sid);
      VisitedNext(ls, b, n - 1, n, w, sid);
    }
  }

  lemma VisitedNext(ls: seq<Label>, b: nat, m: nat, n: nat, w: nat, sid: int)
    requires b < m && n == m + 1 <= |ls|
    ensures Visited(ls, b, n, w, sid) <==> Visited(ls, b, m, w, sid) || ls[m] == NotifyNext(w, sid)
  {
  }

  /** The writer still has to come to the session, or waits for an event it sent it. */
  ghost predicate Pending(ss: seq<Sys>, ls: seq<Label>, b: nat, n: nat, w: nat, sid: int)
    requires b < |ss| && b < |ls| && ls[b].Begin? && ss[b].hist != [] && ls[b].path in Now(ss[b]).ds
  {
    || (sid in Now(ss[b]).ds[ls[b].path].subscribers && !Visited(ls, b, n, w, sid))
    || exists k: nat :: SentAt(ss, ls, b, k, n, w, sid)
  }

  /**
   A writer may return exactly if it has come to every session that was subscribed when it
   began, and every wait for an event it sent has ended.
   */
  lemma ReturnsIff(ss: seq<Sys>, ls: seq<Label>, b: nat, n: nat, w: nat)
    requires SysRun(ss, ls) && WriterAt(ss, ls, b, n, w)
    ensures ss[b].hist != [] && ls[b].path in Now(ss[b]).ds
    ensures Fire(ss[n], Return(w)).Some? <==> forall sid: int :: !Pending(ss, ls, b, n, w, sid)
  {
    hide Fire;
    WriterIs(ss, ls, b, n, w, 0);
    ReturnFires(ss[n], w);
    forall sid: int
      ensures Pending(ss, ls, b, n, w, sid) <==>
                sid in ss[n].writers[w].todo || sid in ss[n].writers[w].waiting
    {
      WriterIs(ss, ls, b, n, w, sid);
    }
    hide Pending;
  }

  lemma ReturnFires(s: Sys, w: nat)
    requires |s.hist| == |s.log| + 1 && forall i | 0 <= i < |s.hist| :: Wf(s.hist[i])
    requires w in s.writers
    ensures Fire(s, Return(w)).Some? <==>
              (forall sid :: sid !in s.writers[w].todo) && forall sid :: sid !in s.writers[w].waiting
  {
    hide Apply, Targets;
    var v := s.writers[w];
    Inhabited(v.todo);
    Inhabited(v.waiting.Keys);
    assert v.waiting == map[] <==> v.waiting.Keys == {};
  }

  // ----- which steps are possible -----

  /** What a step of the system waits for. */
  predicate Possible(s: Sys, l: Label)
    requires |s.hist| == |s.log| + 1 && forall i | 0 <= i < |s.hist| :: Wf(s.hist[i])
  {
    match l
    case Commit(a) => Apply(Now(s), a).Done?
    case Join(sid) => sid in Now(s).db && sid !in s.peers
    case Begin(w, entry, looked, path) =>
      && w !in s.writers && entry < looked < |s.hist| && path in Now(s).ds && Apply(s.hist[entry], s.log[entry]).Done?
      && Coverage.Notifies(s.hist[entry], s.log[entry], Apply(s.hist[entry], s.log[entry]).st, s.hist[looked], path)
    case NotifyNext(w, sid) => w in s.writers && sid in s.writers[w].todo && s.writers[w].path in Now(s).ds
    case Unblock(w, sid) =>
      && w in s.writers && sid in s.writers[w].waiting && sid in s.peers
      && (s.writers[w].waiting[sid] in s.peers[sid].ka.acked || s.peers[sid].ka.cancelled)
    case Return(w) =>
      w in s.writers && s.writers[w].todo == {} && s.writers[w].waiting == map[]
    case Alert(sid, _) => sid in s.peers
    case SendCall(sid) => sid in s.peers && s.peers[sid].phase.Idle? && !s.peers[sid].client.cancelled
    case ReceiveCall(sid, r) => sid in s.peers && r in s.peers[sid].requests
    case WakeThread(sid, _) => sid in s.peers
    case GetReply(sid) =>
      sid in s.peers && s.peers[sid].phase.Calling? && s.peers[sid].phase.call in s.peers[sid].replies
    case FailCall(sid, r) =>
      sid in s.peers && s.peers[sid].phase.Calling? && !r.Ok? && (r.NotLeader? ==> r.leader >= -1)
    case Read(sid, fh) =>
      && sid in s.peers && s.peers[sid].client.connected && fh !in s.peers[sid].client.cache
      && HasHandle(Now(s), sid, fh)
    case Evict(sid, _) => sid in s.peers
    case StopThread(sid) => sid in s.peers
  }

  /** A step is possible exactly if what it waits for is there. */
  lemma PossibleIff(ss: seq<Sys>, ls: seq<Label>, n: nat, l: Label)
    requires SysRun(ss, ls) && n <= |ls|
    ensures Fire(ss[n], l).Some? <==> Possible(ss[n], l)
  {
    Reachable(ss, ls, n);
    if l.Begin? {
      BeginPossible(ss, ls, n, l);
    } else {
      SysHasNow(ss[n]);
      hide SysOk, Apply, Targets, Coverage.Notifies;
    }
  }

  lemma BeginPossible(ss: seq<Sys>, ls: seq<Label>, n: nat, l: Label)
    requires SysRun(ss, ls) && n <= |ls| && l.Begin?
    ensures Fire(ss[n], l).Some? <==> Possible(ss[n], l)
  {
    var s := ss[n];
    if l.entry < |s.log| && l.entry < l.looked < |s.hist| {
      CommittedDone(ss, ls, n, l.entry);
      Coverage.TargetsExactly(s.hist[l.entry], s.log[l.entry], s.hist[l.looked], l.path);
    }
    hide Apply, Targets, Coverage.Notifies, PeerMove;
  }

  /** The history is the run of the log. */
  lemma {:induction false} CommittedDone(ss: seq<Sys>, ls: seq<Label>, n: nat, i: nat)
    requires SysRun(ss, ls) && n <= |ls| && i < |ss[n].log|
    ensures Step(ss[n].hist[i], ss[n].log[i], ss[n].hist[i + 1])
  {
    hide Apply, PeerMove, Targets;
    if n > 0 {
      assert Fire(ss[n - 1], ls[n - 1]) == Some(ss[n]);
      if i < |ss[n - 1].log| { CommittedDone(ss, ls, n - 1, i); }
    }
  }

  /** A read that goes to the server finds what the file holds at that moment, and caches it. */
  lemma ReadFindsTheFile(ss: seq<Sys>, ls: seq<Label>, n: nat, sid: int, fh: int)
    requires SysRun(ss, ls) && n < |ls| && ls[n] == Read(sid, fh)
    ensures sid in ss[n + 1].peers && fh in ss[n + 1].peers[sid].client.cache && HasHandle(Now(ss[n]), sid, fh)
    ensures var s := ss[n];
            ss[n + 1].peers[sid].client.cache[fh].text == FileAt(Now(s).ds, PathOf(Now(s), sid, fh)).content
  {
    Reachable(ss, ls, n);
    assert Fire(ss[n], ls[n]) == Some(ss[n + 1]);
    ReadStep(ss[n], ss[n + 1], sid, fh);
  }

  lemma ReadStep(s: Sys, u: Sys, sid: int, fh: int)
    requires SysOk(s) && Fire(s, Read(sid, fh)) == Some(u)
    ensures sid in u.peers && fh in u.peers[sid].client.cache && HasHandle(Now(s), sid, fh)
    ensures u.peers[sid].client.cache[fh].text == FileAt(Now(s).ds, PathOf(Now(s), sid, fh)).content
  {
    SysHasNow(s);
    hide SysOk;
    assert WfSession(Now(s).ds, Now(s).db[sid]);
  }
}
