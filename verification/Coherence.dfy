/**
 The leader, the sessions' keepalive threads, the network and the clients' caches, step
 by step.  When an RPC that changed a file or a directory returns, every client that is
 subscribed, connected and not cancelled caches nothing older for its subscribed handle.
 */
module Coherence {
  import opened Prelude
  import opened Paths
  import opened Store
  import opened Easing
  import opened Handles
  import opened Replicas
  import opened Events
  import opened Clients

  /** A cached content, the log entries applied when it was read, and the client's insertions before it. */
  datatype Cached = Cached(text: string, at: nat, nth: nat)

  datatype Phase = Idle(ack: Option<nat>) | Calling(call: nat)

  /** A KeepAlive request on its way to the server. */
  datatype Request = Request(call: nat, ack: Option<nat>)

  /**
   One session on both sides of the network.  Requests and replies may be delayed for
   ever, which is also how they are lost.  issued, received and inserts are history: the
   handle of every event enqueued so far, the events the client has handled, each with
   the number of reads it had cached by then, and the number of reads it has cached so far.
   */
  datatype Peer = Peer(
    ka: Ka,
    client: Client<Cached>,
    phase: Phase,
    nextCall: nat,
    requests: set<Request>,
    replies: map<nat, Option<Events.Event>>,
    issued: seq<int>,
    received: map<nat, nat>,
    inserts: nat)

  const NEW_PEER := Peer(FRESH, Client(map[], true, false, 0), Idle(None), 0, {}, map[], [], map[], 0)

  /**
   An RPC handler inside notify_events(path), after its log entry was applied: the
   subscribers it has yet to notify, and the events whose acknowledgement it waits for.
   */
  datatype Writer = Writer(entry: nat, path: string, todo: set<int>, waiting: map<int, nat>)

  /** hist[i] is the store after i log entries. */
  datatype Sys = Sys(hist: seq<State>, log: seq<Action>, peers: map<int, Peer>, writers: map<nat, Writer>)

  const START := Sys([INIT], [], map[], map[])

  function Now(s: Sys): State
    requires s.hist != []
  {
    s.hist[|s.hist| - 1]
  }

  /**
   The paths whose subscribers the RPC notifies, once its entry was applied in state st.
   SetContent's and Delete's handlers look their session up again, in state now, and notify
   nobody if it is gone.
   */
  function Targets(st: State, a: Action, now: State): set<string>
    requires Wf(st)
  {
    match Apply(st, a)
    case Abort => {}
    case Done(_, reply, _, _) =>
      if a.Open? && reply.res == 0 then {Parent(a.path)}
      else if a.Close? && reply.parent.Some? then {reply.parent.value}
      else if a.EndSession? && reply.EndSessionReturn? then set p | p in reply.parents
      else if a.SetContent? && reply.res == 0 && a.sid in now.db then {PathOf(st, a.sid, a.fh)}
      else if a.Delete? && reply.res == 0 && a.sid in now.db then {Parent(PathOf(st, a.sid, a.fh))}
      else {}
  }

  // ----- what happens to one session -----

  /** enqueue_event. */
  function Post(p: Peer, fh: int): Peer {
    p.(ka := Enqueue(p.ka, fh), issued := p.issued + [fh])
  }

  /** The client starts its next KeepAlive call. */
  function Send(p: Peer): Peer
    requires p.phase.Idle?
  {
    p.(phase := Calling(p.nextCall), nextCall := p.nextCall + 1,
       requests := p.requests + {Request(p.nextCall, p.phase.ack)})
  }

  /** The server receives a request: the call becomes the active reply slot. */
  function Receive(p: Peer, r: Request): Peer {
    p.(ka := Attach(p.ka, r.call, if r.ack.Some? then r.ack.value else -1), requests := p.requests - {r})
  }

  /** The keepalive thread wakes up; a slot it finishes becomes a reply. */
  function Tick(p: Peer, timeout: bool): Peer {
    var w := Wake(p.ka, timeout);
    p.(ka := w.k,
       replies := if w.finish.Some? then p.replies[w.finish.value.slot := w.finish.value.event] else p.replies)
  }

  /** The client handles the reply to its call. */
  function HandleReply(p: Peer): Peer
    requires p.phase.Calling? && p.phase.call in p.replies
  {
    var r := Ok(p.replies[p.phase.call]);
    p.(client := Handle(p.client, r), phase := Idle(NextAck(r)),
       received := if r.event.Some? then p.received[r.event.value.id := p.inserts] else p.received)
  }

  /** The client reads a content from the server and caches it. */
  function ReadAndCache(p: Peer, fh: int, text: string, at: nat): Peer {
    p.(client := Insert(p.client, fh, Cached(text, at, p.inserts)), inserts := p.inserts + 1)
  }

  /** The client's call fails. */
  function HandleFailure(p: Peer, r: CallResult): Peer
    requires !r.Ok? && (r.NotLeader? ==> r.leader >= -1)
  {
    p.(client := Handle(p.client, r), phase := Idle(NextAck(r)))
  }

  // ----- steps -----

  datatype Label =
    | Commit(action: Action)                              // the next log entry is applied
    | Join(sid: int)                                      // StartSession's handler starts the keepalive thread
    | Alert(sid: int, fh: int)                            // Delete alerts a lock owner
    | Begin(w: nat, entry: nat, looked: nat, path: string)   // an RPC enters notify_events(path) after its look-up
    | NotifyNext(w: nat, sid: int)                        // it comes to this subscriber
    | Unblock(w: nat, sid: int)                           // one of its waits ends
    | Return(w: nat)                                      // it returns
    | SendCall(sid: int)
    | ReceiveCall(sid: int, request: Request)
    | WakeThread(sid: int, timeout: bool)
    | GetReply(sid: int)
    | FailCall(sid: int, result: CallResult)
    | Read(sid: int, fh: int)                             // GetContent that misses the cache
    | Evict(sid: int, fh: int)                            // the client closed the handle
    | StopThread(sid: int)

  function WithPeer(s: Sys, sid: int, p: Peer): Sys {
    s.(peers := s.peers[sid := p])
  }

  predicate MayReturn(w: Writer) {
    w.todo == {} && w.waiting == map[]
  }

  function FireNotify(s: Sys, w: nat, sid: int): Sys
    requires s.hist != [] && Wf(Now(s)) && w in s.writers && s.writers[w].path in Now(s).ds
  {
    var wr := s.writers[w];
    var subs := Now(s).ds[wr.path].subscribers;
    if sid in subs && NotStale(Now(s), sid, subs[sid]) && sid in s.peers then
      var p := s.peers[sid];
      WithPeer(s, sid, Post(p, subs[sid])).(
        writers := s.writers[w := wr.(todo := wr.todo - {sid}, waiting := wr.waiting[sid := p.ka.eventId])])
    else s.(writers := s.writers[w := wr.(todo := wr.todo - {sid})])
  }

  predicate MovesPeer(l: Label) {
    l.Alert? || l.SendCall? || l.ReceiveCall? || l.WakeThread? || l.GetReply? || l.FailCall? || l.Read?
    || l.Evict? || l.StopThread?
  }

  /** Which peer a label moves, and how; None where it moves none or is not enabled. */
  function PeerMove(s: Sys, l: Label): Option<Peer>
    requires s.hist != [] && Wf(Now(s))
  {
    if !MovesPeer(l) || l.sid !in s.peers then None
    else
      var p := s.peers[l.sid];
      match l
      case Alert(_, fh) => Some(Post(p, fh))
      case SendCall(_) => if p.phase.Idle? && !p.client.cancelled then Some(Send(p)) else None
      case ReceiveCall(_, r) => if r in p.requests then Some(Receive(p, r)) else None
      case WakeThread(_, timeout) => Some(Tick(p, timeout))
      case GetReply(_) => if p.phase.Calling? && p.phase.call in p.replies then Some(HandleReply(p)) else None
      case FailCall(_, r) =>
        if p.phase.Calling? && !r.Ok? && (r.NotLeader? ==> r.leader >= -1) then Some(HandleFailure(p, r)) else None
      case Read(sid, fh) =>
        if p.client.connected && !Hits(p.client, fh) && HasHandle(Now(s), sid, fh)
        then assert WfSession(Now(s).ds, Now(s).db[sid]);
             Some(ReadAndCache(p, fh, Now(s).ds[PathOf(Now(s), sid, fh)].content, |s.hist| - 1))
        else None
      case Evict(_, fh) => Some(p.(client := Drop(p.client, fh)))
      case StopThread(_) => Some(p.(ka := Stopped(p.ka)))
      case _ => None
  }

  /** The step with this label; None where it is not enabled. */
  function Fire(s: Sys, l: Label): Option<Sys>
    requires |s.hist| == |s.log| + 1 && forall i | 0 <= i < |s.hist| :: Wf(s.hist[i])
  {
    match l
    case Commit(a) =>
      (match Apply(Now(s), a)
       case Abort => None
       case Done(t, _, _, _) => Some(s.(hist := s.hist + [t], log := s.log + [a])))
    case Join(sid) =>
      if sid in Now(s).db && sid !in s.peers then Some(WithPeer(s, sid, NEW_PEER)) else None
    case Begin(w, entry, looked, path) =>
      if w !in s.writers && entry < looked < |s.hist|
         && path in Targets(s.hist[entry], s.log[entry], s.hist[looked]) && path in Now(s).ds
      then Some(s.(writers := s.writers[w := Writer(entry, path, Now(s).ds[path].subscribers.Keys, map[])]))
      else None
    case NotifyNext(w, sid) =>
      if w in s.writers && sid in s.writers[w].todo && s.writers[w].path in Now(s).ds
      then Some(FireNotify(s, w, sid)) else None
    case Unblock(w, sid) =>
      if w in s.writers && sid in s.writers[w].waiting && sid in s.peers
         && Unblocked(s.peers[sid].ka, s.writers[w].waiting[sid])
      then
        var p, wr := s.peers[sid], s.writers[w];
        Some(WithPeer(s, sid, p.(ka := Forget(p.ka, wr.waiting[sid]))).(
          writers := s.writers[w := wr.(waiting := wr.waiting - {sid})]))
      else None
    case Return(w) =>
      if w in s.writers && MayReturn(s.writers[w]) then Some(s.(writers := s.writers - {w})) else None
    case _ =>
      (match PeerMove(s, l)
       case None => None
       case Some(p) => Some(WithPeer(s, l.sid, p)))
  }

  // ----- the invariant -----

  predicate EventOk(p: Peer, e: Events.Event) {
    e.id < |p.issued| && p.issued[e.id] == e.fh
  }

  /** Events carry the handle they were issued for; what is acknowledged was handled by the client. */
  predicate WireOk(p: Peer) {
    && p.ka.eventId == |p.issued|
    && (forall i | 0 <= i < |p.ka.queue| :: EventOk(p, p.ka.queue[i]))
    && (forall c | c in p.replies && p.replies[c].Some? :: EventOk(p, p.replies[c].value))
    && (forall e | e in p.received :: e < |p.issued|)
    && (forall e: nat | e in p.ka.acked :: e in p.received)
    && (forall r | r in p.requests && r.ack.Some? :: r.ack.value in p.received)
    && (p.phase.Idle? && p.phase.ack.Some? ==> p.phase.ack.value in p.received)
  }

  /** A cached content is what the handle's file held when it was read, and the handle is still on that file. */
  predicate EntryOk(s: Sys, sid: int, fh: int, c: Cached)
    requires |s.hist| == |s.log| + 1 && forall i | 0 <= i < |s.hist| :: Wf(s.hist[i])
  {
    && c.at < |s.hist| && HasHandle(s.hist[c.at], sid, fh)
    && PathOf(s.hist[c.at], sid, fh) in s.hist[c.at].ds
    && c.text == s.hist[c.at].ds[PathOf(s.hist[c.at], sid, fh)].content
    && (sid in Now(s).db ==>
          HasHandle(Now(s), sid, fh) && PathOf(Now(s), sid, fh) == PathOf(s.hist[c.at], sid, fh))
  }

  /** What is cached for the handle of an event the client has handled was cached after that. */
  predicate DroppedOk(p: Peer) {
    && (forall fh | fh in p.client.cache :: p.client.cache[fh].nth < p.inserts)
    && forall e | e in p.received ::
         && e < |p.issued| && p.received[e] <= p.inserts
         && (p.issued[e] in p.client.cache ==> p.client.cache[p.issued[e]].nth >= p.received[e])
  }

  predicate PeerOk(s: Sys, sid: int, p: Peer)
    requires |s.hist| == |s.log| + 1 && forall i | 0 <= i < |s.hist| :: Wf(s.hist[i])
  {
    && WireOk(p) && DroppedOk(p) && sid < Now(s).nextId
    && forall fh | fh in p.client.cache :: EntryOk(s, sid, fh, p.client.cache[fh])
  }

  /** The client caches something older than the entry for its subscribed handle, and would use it. */
  predicate StaleFor(st: State, path: string, entry: nat, sid: int, p: Peer) {
    && path in st.ds && sid in st.ds[path].subscribers
    && p.client.connected && !p.ka.cancelled
    && var fh := st.ds[path].subscribers[sid];
       fh in p.client.cache && p.client.cache[fh].at <= entry
  }

  /** Then the writer has yet to come to it, or waits for an event for that handle that the client has not handled. */
  predicate Covered(st: State, w: Writer, sid: int, p: Peer) {
    StaleFor(st, w.path, w.entry, sid, p) ==>
      || sid in w.todo
      || (sid in w.waiting && w.waiting[sid] < |p.issued| && w.waiting[sid] !in p.received
          && p.issued[w.waiting[sid]] == st.ds[w.path].subscribers[sid])
  }

  predicate WriterOk(s: Sys, w: Writer)
    requires |s.hist| == |s.log| + 1
  {
    w.entry < |s.log| && w.path in Now(s).ds && forall sid | sid in s.peers :: Covered(Now(s), w, sid, s.peers[sid])
  }

  predicate SysOk(s: Sys) {
    && |s.hist| == |s.log| + 1
    && (forall i | 0 <= i < |s.hist| :: Wf(s.hist[i]))
    && SubscribersLive(Now(s)) && CountsUp(Now(s))
    && (forall sid | sid in s.peers :: PeerOk(s, sid, s.peers[sid]))
    && (forall w | w in s.writers :: WriterOk(s, s.writers[w]))
  }

  // ----- one session's steps -----

  /** From p to q at time now: what q still caches is from p's cache, or new; no drop was missed. */
  predicate PeerStep(p: Peer, q: Peer, now: nat) {
    && p.issued <= q.issued
    && (p.ka.cancelled ==> q.ka.cancelled)
    && forall fh | fh in q.client.cache && q.client.connected :: KeptOrNew(p, q, fh, now)
  }

  predicate KeptOrNew(p: Peer, q: Peer, fh: int, now: nat)
    requires fh in q.client.cache
  {
    q.client.cache[fh].at == now ||
    (p.client.connected && fh in p.client.cache && p.client.cache[fh] == q.client.cache[fh]
     && forall e | e in q.received && e !in p.received :: e < |q.issued| && q.issued[e] != fh)
  }

  lemma PostStep(p: Peer, fh: int, now: nat)
    requires WireOk(p)
    ensures WireOk(Post(p, fh)) && PeerStep(p, Post(p, fh), now)
  {
    var q := Post(p, fh);
    forall i | 0 <= i < |q.ka.queue|
      ensures EventOk(q, q.ka.queue[i])
    {
      if i < |p.ka.queue| { assert EventOk(p, p.ka.queue[i]); }
    }
    forall c | c in q.replies && q.replies[c].Some?
      ensures EventOk(q, q.replies[c].value)
    {
      assert EventOk(p, p.replies[c].value);
    }
  }

  lemma TickStep(p: Peer, timeout: bool, now: nat)
    requires WireOk(p)
    ensures WireOk(Tick(p, timeout)) && PeerStep(p, Tick(p, timeout), now)
  {
    var q := Tick(p, timeout);
    forall i | 0 <= i < |q.ka.queue|
      ensures EventOk(q, q.ka.queue[i])
    {
      assert EventOk(p, p.ka.queue[if q.ka.queue == p.ka.queue then i else i + 1]);
    }
    forall c | c in q.replies && q.replies[c].Some?
      ensures EventOk(q, q.replies[c].value)
    {
      if c in p.replies && p.replies[c].Some? { assert EventOk(p, p.replies[c].value); }
      if p.ka.queue != [] { assert EventOk(p, p.ka.queue[0]); }
    }
  }

  lemma ReplyStep(p: Peer, now: nat)
    requires WireOk(p) && p.phase.Calling? && p.phase.call in p.replies
    ensures WireOk(HandleReply(p)) && PeerStep(p, HandleReply(p), now)
  {
    var q := HandleReply(p);
    var event := p.replies[p.phase.call];
    if event.Some? { assert EventOk(p, event.value); }
    forall c | c in q.replies && q.replies[c].Some?
      ensures EventOk(q, q.replies[c].value)
    {
      assert EventOk(p, p.replies[c].value);
    }
    forall i | 0 <= i < |q.ka.queue|
      ensures EventOk(q, q.ka.queue[i])
    {
      assert EventOk(p, p.ka.queue[i]);
    }
  }

  /** Steps that issue no event and handle none. */
  lemma QuietStep(p: Peer, q: Peer, now: nat)
    requires WireOk(p) && q.issued == p.issued && q.received == p.received && q.replies == p.replies
    requires q.ka.queue == p.ka.queue && q.ka.eventId == p.ka.eventId && (p.ka.cancelled ==> q.ka.cancelled)
    requires forall e: nat | e in q.ka.acked :: e in p.received
    requires forall r | r in q.requests && r.ack.Some? :: r.ack.value in p.received
    requires q.phase.Idle? && q.phase.ack.Some? ==> q.phase.ack.value in p.received
    requires forall fh | fh in q.client.cache && q.client.connected :: KeptOrNew(p, q, fh, now)
    ensures WireOk(q) && PeerStep(p, q, now)
  {
    forall i | 0 <= i < |q.ka.queue|
      ensures EventOk(q, q.ka.queue[i])
    {
      assert EventOk(p, p.ka.queue[i]);
    }
    forall c | c in q.replies && q.replies[c].Some?
      ensures EventOk(q, q.replies[c].value)
    {
      assert EventOk(p, p.replies[c].value);
    }
  }

  lemma MoveStep(s: Sys, l: Label, q: Peer)
    requires SysOk(s) && MovesPeer(l) && PeerMove(s, l) == Some(q)
    ensures l.sid in s.peers && WireOk(q) && PeerStep(s.peers[l.sid], q, |s.log|)
  {
    hide SysOk, WireOk, PeerStep;
    var p := s.peers[l.sid];
    var now := |s.log|;
    PeerIsOk(s, l.sid);
    SysHasNow(s);
    match l
    case Alert(_, fh) => PostStep(p, fh, now);
    case WakeThread(_, timeout) => TickStep(p, timeout, now);
    case GetReply(_) => ReplyStep(p, now);
    case SendCall(_) => OtherStep(s, l, p, q, now);
    case ReceiveCall(_, _) => OtherStep(s, l, p, q, now);
    case FailCall(_, _) => OtherStep(s, l, p, q, now);
    case Read(_, _) => OtherStep(s, l, p, q, now);
    case Evict(_, _) => OtherStep(s, l, p, q, now);
    case StopThread(_) => OtherStep(s, l, p, q, now);
  }

  lemma PeerIsOk(s: Sys, sid: int)
    requires SysOk(s) && sid in s.peers
    ensures PeerOk(s, sid, s.peers[sid]) && |s.hist| - 1 == |s.log|
  {
  }

  lemma OtherStep(s: Sys, l: Label, p: Peer, q: Peer, now: nat)
    requires s.hist != [] && Wf(Now(s)) && now == |s.hist| - 1
    requires PeerMove(s, l) == Some(q) && p == s.peers[l.sid] && WireOk(p)
    requires l.SendCall? || l.ReceiveCall? || l.FailCall? || l.Read? || l.Evict? || l.StopThread?
    ensures WireOk(q) && PeerStep(p, q, now)
  {
    match l
    case SendCall(_) => QuietStep(p, q, now);
    case ReceiveCall(_, r) => QuietStep(p, q, now);
    case FailCall(_, r) => QuietStep(p, q, now);
    case Read(_, fh) => QuietStep(p, q, now);
    case Evict(_, fh) => QuietStep(p, q, now);
    case StopThread(_) => QuietStep(p, q, now);
  }

  /** Whatever a writer was covered for, it still is. */
  lemma StillCovered(st: State, w: Writer, sid: int, p: Peer, q: Peer, now: nat)
    requires WireOk(p) && PeerStep(p, q, now) && w.entry < now && Covered(st, w, sid, p)
    ensures Covered(st, w, sid, q)
  {
    if StaleFor(st, w.path, w.entry, sid, q) {
      var fh := st.ds[w.path].subscribers[sid];
      assert KeptOrNew(p, q, fh, now);
      assert StaleFor(st, w.path, w.entry, sid, p);
      if sid !in w.todo {
        var e := w.waiting[sid];
        assert q.issued[e] == p.issued[e] == fh;
      }
    }
  }

  lemma MoveDrops(s: Sys, l: Label, q: Peer)
    requires SysOk(s) && MovesPeer(l) && PeerMove(s, l) == Some(q)
    ensures l.sid in s.peers && DroppedOk(q)
  {
    var p := s.peers[l.sid];
    assert PeerOk(s, l.sid, p);
    if l.GetReply? && p.replies[p.phase.call].Some? {
      assert EventOk(p, p.replies[p.phase.call].value);
    }
    forall e | e in q.received
      ensures e < |q.issued| && q.received[e] <= q.inserts
      ensures q.issued[e] in q.client.cache ==> q.client.cache[q.issued[e]].nth >= q.received[e]
    {
      if e in p.received { assert p.issued[e] == q.issued[e]; }
    }
  }

  /** The cached entries of q come from p or were just read. */
  lemma MoveEntries(s: Sys, l: Label, q: Peer)
    requires SysOk(s) && MovesPeer(l) && PeerMove(s, l) == Some(q)
    ensures l.sid in s.peers && forall fh | fh in q.client.cache :: EntryOk(s, l.sid, fh, q.client.cache[fh])
  {
    var p := s.peers[l.sid];
    assert PeerOk(s, l.sid, p);
    hide WireOk, DroppedOk, SubscribersLive, CountsUp, WriterOk, Wake;
    forall fh | fh in q.client.cache
      ensures EntryOk(s, l.sid, fh, q.client.cache[fh])
    {
      if fh in p.client.cache { assert EntryOk(s, l.sid, fh, p.client.cache[fh]); }
      if l.Read? { assert WfSession(Now(s).ds, Now(s).db[l.sid]); }
    }
  }

  lemma PeerMoveKeeps(s: Sys, l: Label, q: Peer)
    requires SysOk(s) && MovesPeer(l) && PeerMove(s, l) == Some(q)
    ensures SysOk(WithPeer(s, l.sid, q))
  {
    hide PeerMove, PeerStep, WireOk, DroppedOk, EntryOk, Covered;
    var u := WithPeer(s, l.sid, q);
    MoveStep(s, l, q);
    MoveDrops(s, l, q);
    MoveEntries(s, l, q);
    forall sid | sid in u.peers
      ensures PeerOk(u, sid, u.peers[sid])
    {
      assert PeerOk(s, sid, s.peers[sid]);
      SameHistory(s, u, sid);
    }
    forall w | w in u.writers
      ensures WriterOk(u, u.writers[w])
    {
      assert WriterOk(s, s.writers[w]);
      PeerIsOk(s, l.sid);
      StillCovered(Now(s), s.writers[w], l.sid, s.peers[l.sid], q, |s.log|);
    }
  }

  /** EntryOk depends on the history alone. */
  lemma SameHistory(s: Sys, u: Sys, sid: int)
    requires |s.hist| == |s.log| + 1 && forall i | 0 <= i < |s.hist| :: Wf(s.hist[i])
    requires u.hist == s.hist && u.log == s.log
    ensures forall fh, c :: EntryOk(u, sid, fh, c) == EntryOk(s, sid, fh, c)
  {
  }

  // ----- the writers' steps -----

  lemma PeersKept(s: Sys, u: Sys)
    requires SysOk(s) && u.hist == s.hist && u.log == s.log
    ensures forall sid | sid in s.peers :: PeerOk(u, sid, s.peers[sid])
  {
    hide DroppedOk, EntryOk, WireOk;
    forall sid | sid in s.peers
      ensures PeerOk(u, sid, s.peers[sid])
    {
      assert PeerOk(s, sid, s.peers[sid]);
      SameHistory(s, u, sid);
    }
  }

  lemma JoinKeeps(s: Sys, l: Label, u: Sys)
    requires SysOk(s) && Fire(s, l) == Some(u) && l.Join?
    ensures SysOk(u)
  {
    hide EntryOk;
    PeersKept(s, u);
    forall w | w in u.writers
      ensures WriterOk(u, u.writers[w])
    {
      assert WriterOk(s, s.writers[w]);
    }
  }

  lemma BeginKeeps(s: Sys, l: Label, u: Sys)
    requires SysOk(s) && Fire(s, l) == Some(u) && l.Begin?
    ensures SysOk(u)
  {
    hide DroppedOk, EntryOk, WireOk, Targets;
    PeersKept(s, u);
    forall w | w in u.writers
      ensures WriterOk(u, u.writers[w])
    {
      if w != l.w { assert WriterOk(s, s.writers[w]); }
    }
  }

  lemma ReturnKeeps(s: Sys, l: Label, u: Sys)
    requires SysOk(s) && Fire(s, l) == Some(u) && l.Return?
    ensures SysOk(u)
  {
    hide DroppedOk, EntryOk, WireOk, Covered;
    PeersKept(s, u);
    forall w | w in u.writers
      ensures WriterOk(u, u.writers[w])
    {
      assert WriterOk(s, s.writers[w]);
    }
  }

  /** A step that moves one peer and one writer. */
  lemma BothKeep(s: Sys, u: Sys, w: nat, sid: int, q: Peer, wr: Writer)
    requires SysOk(s) && w in s.writers && sid in s.peers
    requires u == WithPeer(s, sid, q).(writers := s.writers[w := wr])
    requires WireOk(q) && DroppedOk(q) && PeerStep(s.peers[sid], q, |s.log|) && q.client == s.peers[sid].client
    requires wr.path == s.writers[w].path && wr.entry == s.writers[w].entry
    requires Covered(Now(s), wr, sid, q)
    requires forall t | t in s.peers && t != sid ::
               Covered(Now(s), s.writers[w], t, s.peers[t]) ==> Covered(Now(s), wr, t, s.peers[t])
    ensures SysOk(u)
  {
    hide DroppedOk, EntryOk, WireOk, Covered, PeerStep;
    PeersKept(s, u);
    forall t | t in u.peers
      ensures PeerOk(u, t, u.peers[t])
    {
      assert PeerOk(u, t, s.peers[t]);
    }
    PeerIsOk(s, sid);
    forall v | v in u.writers
      ensures WriterOk(u, u.writers[v])
    {
      assert WriterOk(s, s.writers[v]);
      StillCovered(Now(s), s.writers[v], sid, s.peers[sid], q, |s.log|);
    }
  }

  lemma PostDrops(p: Peer, fh: int)
    requires DroppedOk(p)
    ensures DroppedOk(Post(p, fh))
  {
    var q := Post(p, fh);
    forall e | e in q.received
      ensures e < |q.issued| && q.issued[e] == p.issued[e]
    {
    }
  }

  lemma NotifyPosts(s: Sys, w: nat, sid: int, u: Sys)
    requires SysOk(s) && w in s.writers && s.writers[w].path in Now(s).ds && sid in s.peers
    requires var wr, subs := s.writers[w], Now(s).ds[s.writers[w].path].subscribers;
             sid in subs &&
             u == WithPeer(s, sid, Post(s.peers[sid], subs[sid])).(
               writers := s.writers[w :=
                 wr.(todo := wr.todo - {sid}, waiting := wr.waiting[sid := s.peers[sid].ka.eventId])])
    ensures SysOk(u)
  {
    hide DroppedOk, EntryOk, WireOk, SubscribersLive, CountsUp;
    var fh := Now(s).ds[s.writers[w].path].subscribers[sid];
    var p := s.peers[sid];
    PeerIsOk(s, sid);
    PostStep(p, fh, |s.log|);
    PostDrops(p, fh);
    EventNumber(p);
    BothKeep(s, u, w, sid, Post(p, fh), u.writers[w]);
  }

  lemma NotifySkips(s: Sys, w: nat, sid: int, u: Sys)
    requires SysOk(s) && w in s.writers && s.writers[w].path in Now(s).ds
    requires !(sid in Now(s).ds[s.writers[w].path].subscribers && sid in s.peers)
    requires u == s.(writers := s.writers[w := s.writers[w].(todo := s.writers[w].todo - {sid})])
    ensures SysOk(u)
  {
    hide DroppedOk, EntryOk, WireOk;
    PeersKept(s, u);
    forall v | v in u.writers
      ensures WriterOk(u, u.writers[v])
    {
      assert WriterOk(s, s.writers[v]);
    }
  }

  lemma NotifyKeeps(s: Sys, l: Label, u: Sys)
    requires SysOk(s) && Fire(s, l) == Some(u) && l.NotifyNext?
    ensures SysOk(u)
  {
    var path := s.writers[l.w].path;
    var subs := Now(s).ds[path].subscribers;
    if l.sid in subs { assert Subscribed(Now(s), path, l.sid); }
    hide SysOk;
    if l.sid in subs && l.sid in s.peers {
      NotifyPosts(s, l.w, l.sid, u);
    } else {
      NotifySkips(s, l.w, l.sid, u);
    }
  }

  lemma EventNumber(p: Peer)
    requires WireOk(p)
    ensures p.ka.eventId == |p.issued| && p.ka.eventId !in p.received
  {
  }

  lemma ForgetStep(p: Peer, eid: nat, now: nat)
    requires WireOk(p) && DroppedOk(p) && Unblocked(p.ka, eid)
    ensures var q := p.(ka := Forget(p.ka, eid));
            WireOk(q) && DroppedOk(q) && PeerStep(p, q, now)
    ensures p.ka.cancelled || eid in p.received
  {
    QuietStep(p, p.(ka := Forget(p.ka, eid)), now);
  }

  /** A wait that is over was not needed for coverage any more. */
  lemma WaitOver(st: State, w: Writer, sid: int, p: Peer)
    requires sid in w.waiting && Covered(st, w, sid, p)
    requires p.ka.cancelled || w.waiting[sid] in p.received
    ensures var v := w.(waiting := w.waiting - {sid});
            Covered(st, v, sid, p.(ka := Forget(p.ka, w.waiting[sid])))
  {
  }

  lemma OtherWaits(st: State, w: Writer, sid: int, t: int, p: Peer)
    requires t != sid && Covered(st, w, t, p)
    ensures Covered(st, w.(waiting := w.waiting - {sid}), t, p)
  {
  }

  lemma UnblockKeeps(s: Sys, l: Label, u: Sys)
    requires SysOk(s) && Fire(s, l) == Some(u) && l.Unblock?
    ensures SysOk(u)
  {
    var p, wr := s.peers[l.sid], s.writers[l.w];
    PeerIsOk(s, l.sid);
    assert WriterOk(s, wr) && Covered(Now(s), wr, l.sid, p);
    hide SysOk, DroppedOk, WireOk, PeerStep, Covered;
    ForgetStep(p, wr.waiting[l.sid], |s.log|);
    WaitOver(Now(s), wr, l.sid, p);
    forall t | t in s.peers && t != l.sid && Covered(Now(s), wr, t, s.peers[t])
      ensures Covered(Now(s), u.writers[l.w], t, s.peers[t])
    {
      OtherWaits(Now(s), wr, l.sid, t, s.peers[t]);
    }
    BothKeep(s, u, l.w, l.sid, p.(ka := Forget(p.ka, wr.waiting[l.sid])), u.writers[l.w]);
  }

  // ----- applying an entry -----

  /** A subscription after the step was there before, or is the new handle's. */
  lemma StepSubscriptions(s: State, a: Action, t: State, p: string, sid: int)
    requires Step(s, a, t) && p in s.ds
    ensures p in t.ds
    ensures sid in t.ds[p].subscribers ==>
              || (sid in s.ds[p].subscribers && t.ds[p].subscribers[sid] == s.ds[p].subscribers[sid])
              || (OpensFor(s, a, sid) && t.ds[p].subscribers[sid] == |s.db[sid].paths|)
  {
    hide CloseFile, ReleaseLock, EndUpTo, OpenFile, DeleteFile;
    match a
    case Open(_, _, _, _) => if a.sid in s.db { OpenSubscribers(s.ds, a, |s.db[a.sid].paths|, p); }
    case Close(_, _) => EasedSubscriptions(s, a, t, p);
    case Rel(_, _) => EasedSubscriptions(s, a, t, p);
    case EndSession(_) => EasedSubscriptions(s, a, t, p);
    case StartSession =>
    case SetContent(_, _, _) =>
    case Acq(_, _, _) =>
    case Delete(_, fh) =>
      if a.sid in s.db {
        assert WfSession(s.ds, s.db[a.sid]);
        DeleteSubscribers(s.ds, PathOf(s, a.sid, fh), p);
      }
  }

  lemma EasedSubscriptions(s: State, a: Action, t: State, p: string)
    requires Step(s, a, t) && p in s.ds && (a.Close? || a.Rel? || a.EndSession?)
    ensures p in t.ds
    ensures forall sid | sid in t.ds[p].subscribers ::
              sid in s.ds[p].subscribers && t.ds[p].subscribers[sid] == s.ds[p].subscribers[sid]
  {
    hide Apply;
    StepEases(s, a, t);
    assert FileEased(s.ds[p], t.ds[p], a.sid);
  }

  lemma CommitEntry(s: Sys, l: Label, u: Sys, sid: int, fh: int, c: Cached)
    requires SysOk(s) && Fire(s, l) == Some(u) && l.Commit? && EntryOk(s, sid, fh, c) && sid < Now(s).nextId
    ensures |u.hist| == |u.log| + 1 && (forall i | 0 <= i < |u.hist| :: Wf(u.hist[i])) && EntryOk(u, sid, fh, c)
  {
    hide Apply;
    assert Step(Now(s), l.action, Now(u));
    StepSessions(Now(s), l.action, Now(u));
    assert u.hist[c.at] == s.hist[c.at];
    if sid in Now(u).db {
      assert sid in Now(s).db;
      assert SessionStep(Now(s), l.action, sid, Now(s).db[sid], Now(u).db[sid]);
    }
  }

  lemma CommitCovers(s: Sys, l: Label, u: Sys, w: Writer, sid: int)
    requires SysOk(s) && Fire(s, l) == Some(u) && l.Commit? && WriterOk(s, w) && sid in s.peers
    ensures w.path in Now(u).ds && Covered(Now(u), w, sid, s.peers[sid])
  {
    hide Apply, WireOk;
    var p := s.peers[sid];
    assert Step(Now(s), l.action, Now(u));
    StepSubscriptions(Now(s), l.action, Now(u), w.path, sid);
    assert PeerOk(s, sid, p);
    if StaleFor(Now(u), w.path, w.entry, sid, p) {
      var fh := Now(u).ds[w.path].subscribers[sid];
      assert EntryOk(s, sid, fh, p.client.cache[fh]);
      assert Covered(Now(s), w, sid, p);
    }
  }

  lemma CommitKeeps(s: Sys, l: Label, u: Sys)
    requires SysOk(s) && Fire(s, l) == Some(u) && l.Commit?
    ensures SysOk(u)
  {
    hide Apply, WireOk, EntryOk, Covered, SubscribersLive;
    assert Step(Now(s), l.action, Now(u));
    StepKeepsLive(Now(s), l.action, Now(u));
    StepSessions(Now(s), l.action, Now(u));
    forall sid | sid in u.peers
      ensures PeerOk(u, sid, u.peers[sid])
    {
      assert PeerOk(s, sid, s.peers[sid]);
      forall fh | fh in s.peers[sid].client.cache
        ensures EntryOk(u, sid, fh, s.peers[sid].client.cache[fh])
      {
        CommitEntry(s, l, u, sid, fh, s.peers[sid].client.cache[fh]);
      }
    }
    forall w | w in u.writers
      ensures WriterOk(u, u.writers[w])
    {
      assert WriterOk(s, s.writers[w]);
      CommitWriter(s, l, u, s.writers[w]);
    }
  }

  lemma CommitWriter(s: Sys, l: Label, u: Sys, w: Writer)
    requires SysOk(s) && Fire(s, l) == Some(u) && l.Commit? && WriterOk(s, w)
    ensures WriterOk(u, w)
  {
    hide Apply, SysOk, WriterOk, Covered;
    CommitShape(s, l, u, w);
    forall sid | sid in u.peers
      ensures Covered(Now(u), w, sid, u.peers[sid])
    {
      CommitCovers(s, l, u, w, sid);
    }
    WriterFrom(u, w);
  }

  lemma CommitShape(s: Sys, l: Label, u: Sys, w: Writer)
    requires SysOk(s) && Fire(s, l) == Some(u) && l.Commit? && WriterOk(s, w)
    ensures u.peers == s.peers && |u.hist| == |u.log| + 1 && w.entry < |u.log| && w.path in Now(u).ds
  {
    hide Apply;
    assert Step(Now(s), l.action, Now(u));
    StepInstance(Now(s), l.action, Now(u), w.path);
  }

  lemma WriterFrom(u: Sys, w: Writer)
    requires |u.hist| == |u.log| + 1 && w.entry < |u.log| && w.path in Now(u).ds
    requires forall sid | sid in u.peers :: Covered(Now(u), w, sid, u.peers[sid])
    ensures WriterOk(u, w)
  {
  }

  lemma SysHasNow(s: Sys)
    requires SysOk(s)
    ensures |s.hist| == |s.log| + 1 && Wf(Now(s))
  {
  }

  lemma StepKeeps(s: Sys, l: Label, u: Sys)
    requires SysOk(s) && Fire(s, l) == Some(u)
    ensures SysOk(u)
  {
    hide SysOk, PeerMove;
    match l
    case Commit(_) => CommitKeeps(s, l, u);
    case Join(_) => JoinKeeps(s, l, u);
    case Begin(_, _, _, _) => BeginKeeps(s, l, u);
    case NotifyNext(_, _) => NotifyKeeps(s, l, u);
    case Unblock(_, _) => UnblockKeeps(s, l, u);
    case Return(_) => ReturnKeeps(s, l, u);
    case _ =>
      SysHasNow(s);
      PeerMoveKeeps(s, l, PeerMove(s, l).value);
  }

  // ----- every run -----

  predicate SysRun(ss: seq<Sys>, ls: seq<Label>) {
    && |ss| == |ls| + 1 && ss[0] == START
    && (forall i | 0 <= i < |ss| ::
          |ss[i].hist| == |ss[i].log| + 1 && forall j | 0 <= j < |ss[i].hist| :: Wf(ss[i].hist[j]))
    && (forall i | 0 <= i < |ls| :: Fire(ss[i], ls[i]) == Some(ss[i + 1]))
  }

  lemma {:induction false} Reachable(ss: seq<Sys>, ls: seq<Label>, n: nat)
    requires SysRun(ss, ls) && n <= |ls|
    ensures SysOk(ss[n])
  {
    hide Fire, SysOk;
    if n == 0 {
      StartOk();
    } else {
      Reachable(ss, ls, n - 1);
      assert Fire(ss[n - 1], ls[n - 1]) == Some(ss[n]);
      StepKeeps(ss[n - 1], ls[n - 1], ss[n]);
    }
  }

  lemma StartOk()
    ensures SysOk(START)
  {
    assert Parent("/") == "/";
  }

  /** A peer's step keeps the cover of any writer, present or past. */
  lemma PeerKeepsWriter(s: Sys, u: Sys, sid: int, q: Peer, w: Writer)
    requires SysOk(s) && WriterOk(s, w) && sid in s.peers
    requires u.hist == s.hist && u.log == s.log && u.peers == s.peers[sid := q]
    requires WireOk(q) && PeerStep(s.peers[sid], q, |s.log|)
    ensures WriterOk(u, w)
  {
    hide WireOk, PeerStep, Covered, DroppedOk, EntryOk;
    PeerIsOk(s, sid);
    StillCovered(Now(s), w, sid, s.peers[sid], q, |s.log|);
  }

  lemma NotifyKeepsWriter(s: Sys, l: Label, u: Sys, w: Writer)
    requires SysOk(s) && Fire(s, l) == Some(u) && (l.NotifyNext? || l.Unblock?) && WriterOk(s, w)
    ensures WriterOk(u, w)
  {
    hide WireOk, PeerStep, Covered, DroppedOk, EntryOk, SubscribersLive, WriterOk;
    if l.sid in s.peers {
      var p := s.peers[l.sid];
      PeerIsOk(s, l.sid);
      if l.Unblock? {
        ForgetStep(p, s.writers[l.w].waiting[l.sid], |s.log|);
        PeerKeepsWriter(s, u, l.sid, u.peers[l.sid], w);
      } else {
        var subs := Now(s).ds[s.writers[l.w].path].subscribers;
        if l.sid in subs && NotStale(Now(s), l.sid, subs[l.sid]) {
          PostStep(p, subs[l.sid], |s.log|);
          PeerKeepsWriter(s, u, l.sid, u.peers[l.sid], w);
        } else {
          SamePeers(s, u, w);
        }
      }
    } else {
      SamePeers(s, u, w);
    }
  }

  lemma SamePeers(s: Sys, u: Sys, w: Writer)
    requires |s.hist| == |s.log| + 1 && WriterOk(s, w)
    requires u.hist == s.hist && u.log == s.log && u.peers == s.peers
    ensures WriterOk(u, w)
  {
  }

  lemma JoinKeepsWriter(s: Sys, l: Label, u: Sys, w: Writer)
    requires SysOk(s) && Fire(s, l) == Some(u) && l.Join? && WriterOk(s, w)
    ensures WriterOk(u, w)
  {
    hide WireOk, DroppedOk, EntryOk;
  }

  lemma StepKeepsWriter(s: Sys, l: Label, u: Sys, w: Writer)
    requires SysOk(s) && Fire(s, l) == Some(u) && WriterOk(s, w)
    ensures |u.hist| == |u.log| + 1 && WriterOk(u, w)
  {
    hide SysOk, PeerMove, WriterOk, Apply;
    StepKeeps(s, l, u);
    SysHasNow(s);
    SysHasNow(u);
    match l
    case Commit(_) => CommitWriter(s, l, u, w);
    case Join(_) => JoinKeepsWriter(s, l, u, w);
    case Begin(_, _, _, _) => SamePeers(s, u, w);
    case Return(_) => SamePeers(s, u, w);
    case NotifyNext(_, _) => NotifyKeepsWriter(s, l, u, w);
    case Unblock(_, _) => NotifyKeepsWriter(s, l, u, w);
    case _ =>
      MoveStep(s, l, PeerMove(s, l).value);
      PeerKeepsWriter(s, u, l.sid, PeerMove(s, l).value, w);
  }

  lemma {:induction false} WriterStaysCovered(ss: seq<Sys>, ls: seq<Label>, k: nat, n: nat, w: nat)
    requires SysRun(ss, ls) && k <= n <= |ls| && w in ss[k].writers
    ensures WriterOk(ss[n], ss[k].writers[w])
  {
    hide Fire, SysOk, WriterOk;
    Reachable(ss, ls, n);
    if k == n {
      WriterIsOk(ss[n], w);
    } else {
      WriterStaysCovered(ss, ls, k, n - 1, w);
      Reachable(ss, ls, n - 1);
      assert Fire(ss[n - 1], ls[n - 1]) == Some(ss[n]);
      StepKeepsWriter(ss[n - 1], ls[n - 1], ss[n], ss[k].writers[w]);
    }
  }

  lemma WriterIsOk(s: Sys, w: nat)
    requires SysOk(s) && w in s.writers
    ensures WriterOk(s, s.writers[w])
  {
  }

  /** What a GetContent on the handle answers now: the cached content, or the server's. */
  function Answer(s: Sys, sid: int, fh: int): string
    requires s.hist != [] && Wf(Now(s)) && sid in s.peers && HasHandle(Now(s), sid, fh)
  {
    assert WfSession(Now(s).ds, Now(s).db[sid]);
    if Hits(s.peers[sid].client, fh) then s.peers[sid].client.cache[fh].text
    else Now(s).ds[PathOf(Now(s), sid, fh)].content
  }

  /**
   Cache coherence.  From the moment k at which the RPC of log entry e may return from
   notifying the subscribers of its path, at every later moment n, every client that is
   then subscribed and connected, and whose keepalive thread is not cancelled, is answered
   with a content that the file had at some point after that entry.
   */
  lemma NothingOlderIsRead(ss: seq<Sys>, ls: seq<Label>, k: nat, n: nat, w: nat, sid: int) returns (at: nat)
    requires SysRun(ss, ls) && k <= n <= |ls|
    requires w in ss[k].writers && MayReturn(ss[k].writers[w])
    requires var s, path := ss[n], ss[k].writers[w].path;
             && path in Now(s).ds && sid in Now(s).ds[path].subscribers
             && sid in s.peers && s.peers[sid].client.connected && !s.peers[sid].ka.cancelled
    ensures var s, wr := ss[n], ss[k].writers[w];
            var fh := Now(s).ds[wr.path].subscribers[sid];
            && (fh in s.peers[sid].client.cache ==> s.peers[sid].client.cache[fh].at > wr.entry)
            && wr.entry < at < |s.hist| && wr.path in s.hist[at].ds
            && HasHandle(Now(s), sid, fh)
            && Answer(s, sid, fh) == s.hist[at].ds[wr.path].content
  {
    hide Fire;
    Reachable(ss, ls, n);
    WriterStaysCovered(ss, ls, k, n, w);
    var s, wr := ss[n], ss[k].writers[w];
    var fh := Now(s).ds[wr.path].subscribers[sid];
    assert WriterOk(s, wr) && PeerOk(s, sid, s.peers[sid]);
    assert Covered(Now(s), wr, sid, s.peers[sid]) && Subscribed(Now(s), wr.path, sid);
    if fh in s.peers[sid].client.cache {
      assert EntryOk(s, sid, fh, s.peers[sid].client.cache[fh]);
      at := s.peers[sid].client.cache[fh].at;
    } else {
      at := |s.hist| - 1;
    }
  }

  /** An acknowledged event number is one whose event the client has handled. */
  lemma AcksAreGenuine(ss: seq<Sys>, ls: seq<Label>, n: nat, sid: int, eid: nat)
    requires SysRun(ss, ls) && n <= |ls| && sid in ss[n].peers && eid in ss[n].peers[sid].ka.acked
    ensures eid in ss[n].peers[sid].received && eid < |ss[n].peers[sid].issued|
  {
    Reachable(ss, ls, n);
    assert PeerOk(ss[n], sid, ss[n].peers[sid]);
  }

  /**
   A wait for an acknowledgement ends only after the thread was cancelled, or after the
   client handled that very event and dropped what it had cached for the event's handle:
   whatever it caches for that handle now it cached after that.
   */
  lemma WaitsEndForAReason(ss: seq<Sys>, ls: seq<Label>, n: nat, w: nat, sid: int)
    requires SysRun(ss, ls) && n < |ls| && ls[n] == Unblock(w, sid)
    ensures w in ss[n].writers && sid in ss[n].writers[w].waiting && sid in ss[n].peers
    ensures var p, eid := ss[n].peers[sid], ss[n].writers[w].waiting[sid];
            p.ka.cancelled ||
            (eid in p.received && eid < |p.issued|
             && (p.issued[eid] in p.client.cache ==> p.client.cache[p.issued[eid]].nth >= p.received[eid]))
  {
    Reachable(ss, ls, n);
    assert Fire(ss[n], ls[n]) == Some(ss[n + 1]);
    assert PeerOk(ss[n], sid, ss[n].peers[sid]);
  }
}
