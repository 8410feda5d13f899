/**
 The client library's side of a session: the content cache, the connection flag, and
 the keepalive call whose reply invalidates cached content and yields the next
 acknowledgement.
 */
module Clients {
  import opened Prelude
  import Events

  /** How a KeepAlive call ended for the client. */
  datatype CallResult =
    | Ok(event: Option<Events.Event>)
    | NotLeader(leader: int)   // -1: no leader known
    | Cancelled                // the call was cancelled
    | NoSession                // "Session Not Found"
    | Failed                   // unreachable, deadline passed, ...

  /** Cached values are of type T, so that a model may attach to them when they were read. */
  datatype Client<T> = Client(cache: map<int, T>, connected: bool, cancelled: bool, server: nat)

  const SERVERS: nat := 5

  /** GetContent answers from the cache only while connected. */
  predicate Hits<T>(c: Client<T>, fh: int) {
    c.connected && fh in c.cache
  }

  function Insert<T>(c: Client<T>, fh: int, v: T): Client<T> {
    c.(cache := c.cache[fh := v])
  }

  function Drop<T>(c: Client<T>, fh: int): Client<T> {
    c.(cache := c.cache - {fh})
  }

  /** A successful reply: reconnecting clears the cache, an event drops its handle's entry. */
  function OnReply<T>(c: Client<T>, event: Option<Events.Event>): Client<T> {
    var c1 := if c.connected then c else c.(connected := true, cache := map[]);
    if event.Some? then Drop(c1, event.value.fh) else c1
  }

  /** A failed call: the connection is lost, and another server is tried unless the session is over. */
  function OnFailure<T>(c: Client<T>, r: CallResult): Client<T>
    requires !r.Ok? && (r.NotLeader? ==> r.leader >= -1)
  {
    var c1 := c.(connected := false);
    if r.NoSession? then c1.(cancelled := true)
    else if r.Cancelled? && c.cancelled then c1
    else
      var next := if r.NotLeader? && r.leader != -1 then r.leader else c.server + 1;
      c1.(server := next % SERVERS)
  }

  /** The acknowledgement the next call will carry. */
  function NextAck(r: CallResult): Option<nat> {
    if r.Ok? && r.event.Some? then Some(r.event.value.id) else None
  }

  function Handle<T>(c: Client<T>, r: CallResult): Client<T>
    requires r.NotLeader? ==> r.leader >= -1
  {
    if r.Ok? then OnReply(c, r.event) else OnFailure(c, r)
  }

  /** The call failed without saying where the leader is. */
  predicate Blind(r: CallResult) {
    r == Failed || r == Cancelled || (r.NotLeader? && r.leader == -1)
  }

  /** One such call after another. */
  function FailAll<T>(c: Client<T>, rs: seq<CallResult>): Client<T>
    requires forall i | 0 <= i < |rs| :: Blind(rs[i])
  {
    if rs == [] then c
    else
      assert Blind(rs[|rs| - 1]);
      Handle(FailAll(c, rs[..|rs| - 1]), rs[|rs| - 1])
  }

  /** Such failures disconnect the client, leave its cache alone and take it round the servers, one by one. */
  lemma {:induction false} FailuresRotate<T>(c: Client<T>, rs: seq<CallResult>)
    requires !c.cancelled && c.server < SERVERS && forall i | 0 <= i < |rs| :: Blind(rs[i])
    ensures var d := FailAll(c, rs);
            && d.server == (c.server + |rs|) % SERVERS && !d.cancelled && d.cache == c.cache
            && (d.connected <==> c.connected && rs == [])
  {
    if rs != [] {
      FailuresRotate(c, rs[..|rs| - 1]);
      assert Blind(rs[|rs| - 1]);
    }
  }

  /** So a client that is cut off tries every server again within as many calls as there are servers. */
  lemma EveryServerIsTried<T>(c: Client<T>, rs: seq<CallResult>, server: nat) returns (k: nat)
    requires !c.cancelled && c.server < SERVERS && server < SERVERS
    requires |rs| >= SERVERS && forall i | 0 <= i < |rs| :: Blind(rs[i])
    ensures k < SERVERS && FailAll(c, rs[..k]).server == server
  {
    k := (server + SERVERS - c.server) % SERVERS;
    FailuresRotate(c, rs[..k]);
  }

  /** A server that knows the leader sends the client there; only a lost session ends it. */
  lemma LeaderIsFollowed<T>(c: Client<T>, leader: nat)
    requires leader < SERVERS
    ensures var d := Handle(c, NotLeader(leader)); d == c.(connected := false, server := leader)
    ensures Handle(c, NoSession) == c.(connected := false, cancelled := true)
  {
  }

  /** SkinnyClient::impl. */
  class SkinnyClient {
    var cache: map<int, string>
    var callbacks: set<int>   // handles with a callback
    var hasConn: bool
    var cancelled: bool
    var curSrvId: nat

    function Abs(): Client<string>
      reads this
    {
      Client(cache, hasConn, cancelled, curSrvId)
    }

    /** After StartSession succeeded on the given server. */
    constructor (server: nat)
      ensures Abs() == Client(map[], true, false, server % SERVERS) && callbacks == {}
    {
      cache, callbacks, hasConn, cancelled, curSrvId := map[], {}, true, false, server % SERVERS;
    }

    /** Once Open was answered with a handle. */
    method Open(fh: int, hasCallback: bool)
      modifies this
      ensures Abs() == old(Abs())
      ensures callbacks == old(callbacks) + if hasCallback then {fh} else {}
    {
      if hasCallback {
        callbacks := callbacks + {fh};
      }
    }

    method Close(fh: int)
      modifies this
      ensures Abs() == Drop(old(Abs()), fh) && callbacks == old(callbacks)
    {
      if fh in cache {
        cache := cache - {fh};
      } else {
        assert cache - {fh} == cache;
      }
    }

    /** answer is what the server's RPC would bring: the content, or None for a failure that throws. */
    method GetContent(fh: int, answer: Option<string>) returns (result: Option<string>)
      modifies this
      ensures callbacks == old(callbacks)
      ensures Hits(old(Abs()), fh) ==> Abs() == old(Abs()) && result == Some(old(cache)[fh])
      ensures !Hits(old(Abs()), fh) ==>
                && result == answer
                && Abs() == if answer.Some? then Insert(old(Abs()), fh, answer.value) else old(Abs())
    {
      if hasConn && fh in cache {
        return Some(cache[fh]);
      }
      if answer.Some? {
        cache := cache[fh := answer.value];
      }
      return answer;
    }

    /** The end of one KeepAlive call: the acknowledgement for the next one, and the callback to run. */
    method KeepAlive(r: CallResult) returns (newEid: Option<nat>, fired: Option<int>)
      requires r.NotLeader? ==> r.leader >= -1
      modifies this
      ensures Abs() == Handle(old(Abs()), r) && newEid == NextAck(r) && callbacks == old(callbacks)
      ensures fired == if r.Ok? && r.event.Some? && r.event.value.fh in callbacks
                       then Some(r.event.value.fh) else None
    {
      newEid, fired := None, None;
      if r.Ok? {
        if !hasConn {
          hasConn := true;
          cache := map[];
        }
        if r.event.None? {
          return;
        }
        var fh := r.event.value.fh;
        newEid := Some(r.event.value.id);
        if fh in cache {
          cache := cache - {fh};
        } else {
          assert cache - {fh} == cache;
        }
        if fh in callbacks {
          fired := Some(fh);
        }
      } else {
        hasConn := false;
        var next := curSrvId + 1;
        if r.NotLeader? {
          if r.leader != -1 {
            next := r.leader;
          }
        } else if r.Cancelled? && cancelled {
          return;
        } else if r.NoSession? {
          cancelled := true;
          return;
        }
        curSrvId := next % SERVERS;
      }
    }
  }
}
