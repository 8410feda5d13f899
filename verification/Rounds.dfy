/**
 No event is stuck: from every reachable state, as long as thread and client are not
 cancelled, the session's own protocol can bring any queued event to its client and the
 acknowledgement back, so that the wait for it can end.
 */
module Rounds {
  import opened Prelude
  import opened Store
  import opened Clients
  import opened Coherence
  import Protocol

  function Last(ss: seq<Sys>): Sys
    requires ss != []
  {
    ss[|ss| - 1]
  }

  /** A step of the session's client, thread or network. */
  predicate Exchange(l: Label, sid: int) {
    (l.SendCall? || l.ReceiveCall? || l.WakeThread? || l.GetReply? || l.FailCall?) && l.sid == sid
  }

  /** One run continues another by such steps only. */
  predicate Continues(ss: seq<Sys>, ls: seq<Label>, tt: seq<Sys>, ms: seq<Label>, sid: int) {
    && SysRun(ss, ls) && SysRun(tt, ms) && ls <= ms
    && (forall i | |ls| <= i < |ms| :: Exchange(ms[i], sid))
    && Last(tt).writers == Last(ss).writers && Last(tt).hist == Last(ss).hist
  }

  /** Thread and client are both going on. */
  predicate Going(s: Sys, sid: int) {
    sid in s.peers && !s.peers[sid].ka.cancelled && !s.peers[sid].client.cancelled
  }

  /** The client's call is the thread's active reply slot. */
  predicate Attached(s: Sys, sid: int) {
    Going(s, sid) && s.peers[sid].phase.Calling? && s.peers[sid].ka.reactor == Some(s.peers[sid].phase.call)
  }

  lemma Same(ss: seq<Sys>, ls: seq<Label>, sid: int)
    requires SysRun(ss, ls)
    ensures Continues(ss, ls, ss, ls, sid)
  {
    hide Fire;
  }

  /** A step of the session's exchange continues the run. */
  lemma Extend(ss: seq<Sys>, ls: seq<Label>, tt: seq<Sys>, ms: seq<Label>, l: Label, q: Peer, sid: int)
    returns (uu: seq<Sys>, ns: seq<Label>)
    requires Continues(ss, ls, tt, ms, sid) && Exchange(l, sid) && sid in Last(tt).peers
    requires Last(tt).hist != [] && Wf(Now(Last(tt))) && PeerMove(Last(tt), l) == Some(q)
    ensures Continues(ss, ls, uu, ns, sid) && sid in Last(uu).peers && Last(uu).peers[sid] == q
    ensures Last(uu).hist != [] && Wf(Now(Last(uu)))
  {
    var u := WithPeer(Last(tt), sid, q);
    uu, ns := tt + [u], ms + [l];
    hide PeerMove;
    assert Fire(Last(tt), l) == Some(u);
    ExtendRun(tt, ms, l, u);
  }

  lemma ExtendRun(ss: seq<Sys>, ls: seq<Label>, l: Label, u: Sys)
    requires SysRun(ss, ls) && Fire(Last(ss), l) == Some(u) && u.hist == Last(ss).hist && u.log == Last(ss).log
    ensures SysRun(ss + [u], ls + [l])
  {
    hide Fire;
    var tt, ms := ss + [u], ls + [l];
    forall i | 0 <= i < |ms|
      ensures Fire(tt[i], ms[i]) == Some(tt[i + 1])
    {
      if i < |ls| { assert Fire(ss[i], ls[i]) == Some(ss[i + 1]); }
    }
  }

  lemma ExchangeLabels(sid: int, r: Request, f: CallResult)
    ensures Exchange(SendCall(sid), sid) && Exchange(ReceiveCall(sid, r), sid) && Exchange(FailCall(sid, f), sid)
    ensures Exchange(GetReply(sid), sid) && Exchange(WakeThread(sid, false), sid)
  {
  }

  lemma Reaches(ss: seq<Sys>, ls: seq<Label>)
    requires SysRun(ss, ls)
    ensures ss != [] && SysOk(Last(ss)) && Last(ss).hist != [] && Wf(Now(Last(ss)))
  {
    hide Fire, SysOk;
    Reachable(ss, ls, |ls|);
    SysHasNow(Last(ss));
  }

  /** An idle client's next call becomes the active reply slot, and brings its acknowledgement along. */
  lemma CanCall(ss: seq<Sys>, ls: seq<Label>, tt: seq<Sys>, ms: seq<Label>, sid: int)
    returns (uu: seq<Sys>, ns: seq<Label>)
    requires Continues(ss, ls, tt, ms, sid) && Going(Last(tt), sid) && Last(tt).peers[sid].phase.Idle?
    ensures Continues(ss, ls, uu, ns, sid) && Attached(Last(uu), sid)
    ensures var p, q := Last(tt).peers[sid], Last(uu).peers[sid];
            && q.ka.queue == p.ka.queue && q.client == p.client && p.ka.acked <= q.ka.acked
            && (p.phase.ack.Some? ==> p.phase.ack.value in q.ka.acked)
  {
    ContinuesRuns(ss, ls, tt, ms, sid);
    Reaches(tt, ms);
    hide SysRun, Continues, Exchange;
    var p := Last(tt).peers[sid];
    var r := Request(p.nextCall, p.phase.ack);
    ExchangeLabels(sid, r, Failed);
    uu, ns := Extend(ss, ls, tt, ms, SendCall(sid), Send(p), sid);
    uu, ns := Extend(ss, ls, uu, ns, ReceiveCall(sid, r), Receive(Send(p), r), sid);
  }

  /** Whatever the client is doing, its next call can become the active reply slot; the queue stays. */
  lemma CanAttach(ss: seq<Sys>, ls: seq<Label>, sid: int) returns (tt: seq<Sys>, ms: seq<Label>)
    requires SysRun(ss, ls) && Going(Last(ss), sid)
    ensures Continues(ss, ls, tt, ms, sid) && Attached(Last(tt), sid)
    ensures Last(tt).peers[sid].ka.queue == Last(ss).peers[sid].ka.queue
  {
    hide SysRun, Continues, Exchange;
    Reaches(ss, ls);
    Same(ss, ls, sid);
    tt, ms := ss, ls;
    var p := Last(ss).peers[sid];
    if p.phase.Calling? {
      ExchangeLabels(sid, Request(0, None), Failed);
      tt, ms := Extend(ss, ls, tt, ms, FailCall(sid, Failed), HandleFailure(p, Failed), sid);
    }
    tt, ms := CanCall(ss, ls, tt, ms, sid);
  }

  /** The first queued event reaches the client, which drops its entry. */
  lemma CanFetch(ss: seq<Sys>, ls: seq<Label>, tt: seq<Sys>, ms: seq<Label>, sid: int)
    returns (uu: seq<Sys>, ns: seq<Label>)
    requires Continues(ss, ls, tt, ms, sid) && Attached(Last(tt), sid) && Last(tt).peers[sid].ka.queue != []
    ensures Continues(ss, ls, uu, ns, sid) && Going(Last(uu), sid)
    ensures var p, q := Last(tt).peers[sid], Last(uu).peers[sid];
            && q.ka.queue == p.ka.queue[1..] && q.ka.acked == p.ka.acked
            && q.phase == Idle(Some(p.ka.queue[0].id))
            && q.client.connected && p.ka.queue[0].fh !in q.client.cache
  {
    ContinuesRuns(ss, ls, tt, ms, sid);
    Reaches(tt, ms);
    hide SysRun, Continues, Exchange;
    var p := Last(tt).peers[sid];
    ExchangeLabels(sid, Request(0, None), Failed);
    uu, ns := Extend(ss, ls, tt, ms, WakeThread(sid, false), Tick(p, false), sid);
    uu, ns := Extend(ss, ls, uu, ns, GetReply(sid), HandleReply(Tick(p, false)), sid);
  }

  /** One round: the first queued event is handled by the client, and acknowledged. */
  lemma OneRound(ss: seq<Sys>, ls: seq<Label>, tt: seq<Sys>, ms: seq<Label>, sid: int)
    returns (uu: seq<Sys>, ns: seq<Label>)
    requires Continues(ss, ls, tt, ms, sid) && Attached(Last(tt), sid) && Last(tt).peers[sid].ka.queue != []
    ensures Continues(ss, ls, uu, ns, sid) && Attached(Last(uu), sid)
    ensures var p, q := Last(tt).peers[sid], Last(uu).peers[sid];
            && q.ka.queue == p.ka.queue[1..] && p.ka.queue[0].id in q.ka.acked
            && q.client.connected && p.ka.queue[0].fh !in q.client.cache
  {
    hide SysRun, Continues;
    uu, ns := CanFetch(ss, ls, tt, ms, sid);
    uu, ns := CanCall(ss, ls, uu, ns, sid);
  }

  lemma ContinuesRuns(ss: seq<Sys>, ls: seq<Label>, tt: seq<Sys>, ms: seq<Label>, sid: int)
    requires Continues(ss, ls, tt, ms, sid)
    ensures SysRun(ss, ls) && SysRun(tt, ms)
  {
  }

  lemma {:induction false} Deliver(ss: seq<Sys>, ls: seq<Label>, tt: seq<Sys>, ms: seq<Label>, sid: int, k: nat)
    returns (uu: seq<Sys>, ns: seq<Label>)
    requires Continues(ss, ls, tt, ms, sid) && Attached(Last(tt), sid) && k < |Last(tt).peers[sid].ka.queue|
    ensures Continues(ss, ls, uu, ns, sid) && sid in Last(uu).peers
    ensures Last(tt).peers[sid].ka.queue[k].id in Last(uu).peers[sid].ka.acked
    decreases k
  {
    hide SysRun, Continues;
    uu, ns := OneRound(ss, ls, tt, ms, sid);
    if k > 0 {
      uu, ns := Deliver(ss, ls, uu, ns, sid, k - 1);
    }
  }

  /**
   From every reachable state, as long as thread and client are not cancelled, the session's
   exchange can go on so that any queued event is acknowledged; a writer that waits for it
   is then free to go on.
   */
  lemma EveryEventCanBeAcked(ss: seq<Sys>, ls: seq<Label>, sid: int, k: nat, w: nat)
    returns (tt: seq<Sys>, ms: seq<Label>)
    requires SysRun(ss, ls) && Going(Last(ss), sid) && k < |Last(ss).peers[sid].ka.queue|
    ensures Continues(ss, ls, tt, ms, sid) && sid in Last(tt).peers
    ensures Last(ss).peers[sid].ka.queue[k].id in Last(tt).peers[sid].ka.acked
    ensures var writers := Last(ss).writers;
            w in writers && sid in writers[w].waiting
            && writers[w].waiting[sid] == Last(ss).peers[sid].ka.queue[k].id ==>
              Fire(Last(tt), Unblock(w, sid)).Some?
  {
    tt, ms := CanAttach(ss, ls, sid);
    tt, ms := Deliver(ss, ls, tt, ms, sid, k);
    var t := Last(tt);
    Reaches(tt, ms);
    WritersKept(ss, ls, tt, ms, sid);
    if w in t.writers && sid in t.writers[w].waiting {
      Protocol.UnblockFires(t, w, sid);
    }
    hide Fire, Continues, SysRun;
  }

  lemma WritersKept(ss: seq<Sys>, ls: seq<Label>, tt: seq<Sys>, ms: seq<Label>, sid: int)
    requires Continues(ss, ls, tt, ms, sid)
    ensures Last(tt).writers == Last(ss).writers
    ensures |Last(tt).hist| == |Last(tt).log| + 1 && forall i | 0 <= i < |Last(tt).hist| :: Wf(Last(tt).hist[i])
  {
  }
}
