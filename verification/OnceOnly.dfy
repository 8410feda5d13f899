/**
 Every call gets at most one reply, and a client handles the events it is sent in the order
 of their numbers, each at most once, whatever is delayed, lost or given up in between.
 */
module OnceOnly {
  import opened Prelude
  import opened Store
  import opened Coherence
  import Protocol

  /** Every call number is at one place only: on its way, the active slot, or answered. */
  predicate CallsApart(p: Peer) {
    && (forall r | r in p.requests :: r.call < p.nextCall && r.call !in p.replies && p.ka.reactor != Some(r.call))
    && (forall r, q | r in p.requests && q in p.requests && r != q :: r.call != q.call)
    && (p.ka.reactor.Some? ==> p.ka.reactor.value < p.nextCall && p.ka.reactor.value !in p.replies)
    && (forall c | c in p.replies :: c < p.nextCall)
    && (p.phase.Calling? ==> p.phase.call < p.nextCall)
  }

  /** Queued events have increasing numbers, all beyond those that went out. */
  predicate EventsApart(p: Peer) {
    && (forall i, j | 0 <= i < j < |p.ka.queue| :: p.ka.queue[i].id < p.ka.queue[j].id)
    && (forall i | 0 <= i < |p.ka.queue| :: p.ka.queue[i].id < p.ka.eventId)
    && (forall c | c in p.replies && p.replies[c].Some? ::
          && p.replies[c].value.id < p.ka.eventId
          && forall i | 0 <= i < |p.ka.queue| :: p.replies[c].value.id < p.ka.queue[i].id)
  }

  predicate Apart(p: Peer) {
    CallsApart(p) && EventsApart(p)
  }

  /** The replies there are stay as they are. */
  predicate RepliesKept(p: Peer, q: Peer) {
    p.replies.Keys <= q.replies.Keys && forall c | c in p.replies :: q.replies[c] == p.replies[c]
  }

  lemma PostApart(p: Peer, fh: int)
    requires Apart(p)
    ensures Apart(Post(p, fh)) && RepliesKept(p, Post(p, fh))
  {
  }

  lemma TickApart(p: Peer, timeout: bool)
    requires Apart(p)
    ensures Apart(Tick(p, timeout)) && RepliesKept(p, Tick(p, timeout))
  {
  }

  lemma SendApart(p: Peer)
    requires Apart(p) && p.phase.Idle?
    ensures Apart(Send(p)) && RepliesKept(p, Send(p))
  {
  }

  lemma ReceiveApart(p: Peer, r: Request)
    requires Apart(p) && r in p.requests
    ensures Apart(Receive(p, r)) && RepliesKept(p, Receive(p, r))
  {
  }

  /** Steps that touch neither queue, calls nor replies. */
  lemma QuietApart(p: Peer, q: Peer)
    requires Apart(p) && q.requests == p.requests && q.replies == p.replies && q.nextCall == p.nextCall
    requires q.ka.queue == p.ka.queue && q.ka.eventId == p.ka.eventId && q.ka.reactor == p.ka.reactor
    requires q.phase == p.phase || q.phase.Idle?
    ensures Apart(q) && RepliesKept(p, q)
  {
  }

  lemma MoveApart(s: Sys, l: Label, p: Peer, q: Peer)
    requires s.hist != [] && Wf(Now(s)) && MovesPeer(l) && l.sid in s.peers && p == s.peers[l.sid]
    requires PeerMove(s, l) == Some(q) && Apart(p)
    ensures Apart(q) && RepliesKept(p, q)
  {
    hide Apart, RepliesKept;
    match l
    case Alert(_, fh) => PostApart(p, fh);
    case WakeThread(_, timeout) => TickApart(p, timeout);
    case SendCall(_) => SendApart(p);
    case ReceiveCall(_, r) => ReceiveApart(p, r);
    case GetReply(_) => QuietApart(p, q);
    case FailCall(_, _) => QuietApart(p, q);
    case Read(_, _) => QuietApart(p, q);
    case Evict(_, _) => QuietApart(p, q);
    case StopThread(_) => QuietApart(p, q);
  }

  lemma StepApart(s: Sys, l: Label, u: Sys, sid: int)
    requires SysOk(s) && Fire(s, l) == Some(u) && sid in s.peers && Apart(s.peers[sid])
    ensures sid in u.peers && Apart(u.peers[sid]) && RepliesKept(s.peers[sid], u.peers[sid])
  {
    hide SysOk, Fire, Apart, RepliesKept, PeerMove, Protocol.Sends;
    Protocol.PeerEffect(s, l, u, sid);
    var p, q := s.peers[sid], u.peers[sid];
    if MovesPeer(l) && l.sid == sid {
      MoveApart(s, l, p, q);
    } else if l.NotifyNext? && l.sid == sid && Protocol.Sends(s, l.w, sid) {
      PostedApart(s, l, p, q, sid);
    } else {
      QuietApart(p, q);
    }
  }

  lemma PostedApart(s: Sys, l: Label, p: Peer, q: Peer, sid: int)
    requires s.hist != [] && Wf(Now(s)) && l.NotifyNext? && l.sid == sid && Protocol.Sends(s, l.w, sid)
    requires q == Post(p, Now(s).ds[s.writers[l.w].path].subscribers[sid]) && Apart(p)
    ensures Apart(q) && RepliesKept(p, q)
  {
    hide Apart, RepliesKept;
    PostApart(p, Now(s).ds[s.writers[l.w].path].subscribers[sid]);
  }

  lemma {:induction false} AlwaysApart(ss: seq<Sys>, ls: seq<Label>, n: nat, sid: int)
    requires SysRun(ss, ls) && n <= |ls| && sid in ss[n].peers
    ensures Apart(ss[n].peers[sid])
  {
    hide Fire, SysOk, Apart;
    assert n > 0;
    Reachable(ss, ls, n - 1);
    assert Fire(ss[n - 1], ls[n - 1]) == Some(ss[n]);
    Protocol.LabelHasPeer(ss[n - 1], ls[n - 1], ss[n], sid);
    if sid in ss[n - 1].peers {
      AlwaysApart(ss, ls, n - 1, sid);
      StepApart(ss[n - 1], ls[n - 1], ss[n], sid);
    } else {
      NewApart();
    }
  }

  lemma NewApart()
    ensures Apart(NEW_PEER)
  {
  }

  /** A call that was answered keeps that answer for good. */
  lemma {:induction false} OneReplyPerCall(ss: seq<Sys>, ls: seq<Label>, m: nat, n: nat, sid: int, call: nat)
    requires SysRun(ss, ls) && m <= n <= |ls| && sid in ss[m].peers && call in ss[m].peers[sid].replies
    ensures sid in ss[n].peers && call in ss[n].peers[sid].replies
    ensures ss[n].peers[sid].replies[call] == ss[m].peers[sid].replies[call]
  {
    hide Fire, SysOk, Apart;
    if m < n {
      OneReplyPerCall(ss, ls, m, n - 1, sid, call);
      Reachable(ss, ls, n - 1);
      AlwaysApart(ss, ls, n - 1, sid);
      assert Fire(ss[n - 1], ls[n - 1]) == Some(ss[n]);
      StepApart(ss[n - 1], ls[n - 1], ss[n], sid);
    }
  }

  // ----- handling in order -----

  /** What is still to come has later calls and greater event numbers. */
  predicate Beyond(p: Peer, call: nat, id: nat) {
    && p.nextCall >= call && p.ka.eventId > id && (p.phase.Calling? ==> p.phase.call >= call)
    && (forall i | 0 <= i < |p.ka.queue| :: p.ka.queue[i].id > id)
    && forall c | c in p.replies && c >= call && p.replies[c].Some? :: p.replies[c].value.id > id
  }

  lemma MoveBeyond(s: Sys, l: Label, p: Peer, q: Peer, call: nat, id: nat)
    requires s.hist != [] && Wf(Now(s)) && MovesPeer(l) && l.sid in s.peers && p == s.peers[l.sid]
    requires PeerMove(s, l) == Some(q) && Beyond(p, call, id)
    ensures Beyond(q, call, id)
  {
  }

  lemma StepBeyond(s: Sys, l: Label, u: Sys, sid: int, call: nat, id: nat)
    requires SysOk(s) && Fire(s, l) == Some(u) && sid in s.peers && Beyond(s.peers[sid], call, id)
    ensures sid in u.peers && Beyond(u.peers[sid], call, id)
  {
    hide SysOk, Fire, PeerMove, Protocol.Sends;
    Protocol.PeerEffect(s, l, u, sid);
    if MovesPeer(l) && l.sid == sid {
      MoveBeyond(s, l, s.peers[sid], u.peers[sid], call, id);
    }
  }

  lemma {:induction false} StaysBeyond(ss: seq<Sys>, ls: seq<Label>, m: nat, n: nat, sid: int, call: nat, id: nat)
    requires SysRun(ss, ls) && m <= n <= |ls| && sid in ss[m].peers && Beyond(ss[m].peers[sid], call, id)
    ensures sid in ss[n].peers && Beyond(ss[n].peers[sid], call, id)
  {
    hide Fire, SysOk, Beyond;
    if m < n {
      StaysBeyond(ss, ls, m, n - 1, sid, call, id);
      Reachable(ss, ls, n - 1);
      assert Fire(ss[n - 1], ls[n - 1]) == Some(ss[n]);
      StepBeyond(ss[n - 1], ls[n - 1], ss[n], sid, call, id);
    }
  }

  lemma HandledBeyond(s: Sys, u: Sys, sid: int, eid: nat)
    requires SysOk(s) && Fire(s, GetReply(sid)) == Some(u) && Protocol.HandlesEvent(s, GetReply(sid), sid, eid)
    requires Apart(s.peers[sid])
    ensures sid in u.peers && s.peers[sid].phase.call < s.peers[sid].nextCall
    ensures Beyond(u.peers[sid], s.peers[sid].nextCall, eid)
  {
    SysHasNow(s);
    hide SysOk;
  }

  /** Of two events that a client handles, the later one has the greater number, and came in a later call's reply. */
  lemma HandledInOrder(ss: seq<Sys>, ls: seq<Label>, m: nat, n: nat, sid: int, d: nat, e: nat)
    requires SysRun(ss, ls) && m < n < |ls|
    requires Protocol.HandlesEvent(ss[m], ls[m], sid, d) && Protocol.HandlesEvent(ss[n], ls[n], sid, e)
    ensures d < e && ss[m].peers[sid].phase.call < ss[n].peers[sid].phase.call
  {
    hide Fire, SysOk, Apart;
    Reachable(ss, ls, m);
    AlwaysApart(ss, ls, m, sid);
    assert Fire(ss[m], ls[m]) == Some(ss[m + 1]);
    HandledBeyond(ss[m], ss[m + 1], sid, d);
    StaysBeyond(ss, ls, m + 1, n, sid, ss[m].peers[sid].nextCall, d);
  }
}
