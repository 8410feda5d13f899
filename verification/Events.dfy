/**
 The keepalive thread of one session: an event queue, numbered events, one outstanding
 reply slot, acknowledgements and cancellation.
 */
module Events {
  import opened Prelude

  datatype Event = Event(id: nat, fh: int)

  /**
   A reply slot is the reactor of one KeepAlive call, told apart by a call number;
   acked also collects the -1 that a call without acknowledgement brings.
   */
  datatype Ka = Ka(reactor: Option<nat>, queue: seq<Event>, eventId: nat, acked: set<int>, cancelled: bool)

  const FRESH := Ka(None, [], 0, {}, false)

  /** A reply slot finished, with an event or empty. */
  datatype Finish = Finish(slot: nat, event: Option<Event>)

  datatype Woken = Woken(k: Ka, finish: Option<Finish>, expired: bool)

  function Attach(k: Ka, slot: nat, ack: int): Ka {
    k.(reactor := Some(slot), acked := k.acked + {ack})
  }

  function Enqueue(k: Ka, fh: int): Ka {
    k.(queue := k.queue + [Event(k.eventId, fh)], eventId := k.eventId + 1)
  }

  function Stopped(k: Ka): Ka {
    k.(cancelled := true)
  }

  /** block_until_event_acked may return. */
  predicate Unblocked(k: Ka, eid: int) {
    eid in k.acked || k.cancelled
  }

  function Forget(k: Ka, eid: int): Ka {
    k.(acked := k.acked - {eid})
  }

  /** One turn of the thread's loop, woken by a notification or by the five-second timeout. */
  function Wake(k: Ka, timeout: bool): Woken {
    if k.cancelled then Woken(k, None, false)
    else if k.reactor.Some? then
      if timeout then Woken(k.(reactor := None), Some(Finish(k.reactor.value, None)), false)
      else if k.queue != [] then
        Woken(k.(reactor := None, queue := k.queue[1..]), Some(Finish(k.reactor.value, Some(k.queue[0]))), false)
      else Woken(k, None, false)
    else if timeout then Woken(Stopped(k), None, true)
    else Woken(k, None, false)
  }

  /** What happens to a keepalive thread. */
  datatype Input =
    | Keepalive(slot: nat, ack: int)
    | NewEvent(fh: int)
    | WakeUp(timeout: bool)
    | Stop

  /** The thread's state, the events enqueued and slots finished so far, and how often it expired. */
  datatype Trace = Trace(k: Ka, sent: seq<Event>, out: seq<Finish>, expired: nat)

  const BORN := Trace(FRESH, [], [], 0)

  function Feed(t: Trace, i: Input): Trace {
    match i
    case Keepalive(slot, ack) => t.(k := Attach(t.k, slot, ack))
    case NewEvent(fh) => t.(k := Enqueue(t.k, fh), sent := t.sent + [Event(t.k.eventId, fh)])
    case Stop => t.(k := Stopped(t.k))
    case WakeUp(timeout) =>
      var w := Wake(t.k, timeout);
      t.(k := w.k, out := if w.finish.Some? then t.out + [w.finish.value] else t.out,
         expired := t.expired + if w.expired then 1 else 0)
  }

  function Play(t: Trace, script: seq<Input>): Trace {
    if script == [] then t
    else Feed(Play(t, script[..|script| - 1]), script[|script| - 1])
  }

  /** session::KAThread. */
  class KAThread {
    var reactor: Option<nat>
    var eventQueue: seq<Event>
    var eventId: nat
    var ackedEvents: set<int>
    var cancelled: bool

    function Abs(): Ka
      reads this
    {
      Ka(reactor, eventQueue, eventId, ackedEvents, cancelled)
    }

    constructor ()
      ensures Abs() == FRESH
    {
      reactor, eventQueue, eventId, ackedEvents, cancelled := None, [], 0, {}, false;
    }

    method SetReactor(slot: nat, ackedEid: int)
      modifies this
      ensures Abs() == Attach(old(Abs()), slot, ackedEid)
    {
      reactor := Some(slot);
      ackedEvents := ackedEvents + {ackedEid};
    }

    method EnqueueEvent(fh: int) returns (newEid: nat)
      modifies this
      ensures Abs() == Enqueue(old(Abs()), fh) && newEid == old(eventId)
    {
      newEid := eventId;
      eventId := eventId + 1;
      eventQueue := eventQueue + [Event(newEid, fh)];
    }

    method Cancel()
      modifies this
      ensures Abs() == Stopped(old(Abs()))
    {
      cancelled := true;
    }

    /** The wait's test; a wait that ends forgets the acknowledgement. */
    method TryUnblock(eid: int) returns (done: bool)
      modifies this
      ensures done == Unblocked(old(Abs()), eid)
      ensures Abs() == if done then Forget(old(Abs()), eid) else old(Abs())
    {
      done := eid in ackedEvents || cancelled;
      if done {
        ackedEvents := ackedEvents - {eid};
      }
    }

    method TakeTurn(timeout: bool) returns (finish: Option<Finish>, expired: bool)
      modifies this
      ensures Woken(Abs(), finish, expired) == Wake(old(Abs()), timeout)
    {
      finish, expired := None, false;
      if cancelled {
        return;
      }
      if reactor.Some? {
        if timeout {
          finish := Some(Finish(reactor.value, None));
          reactor := None;
        } else if eventQueue != [] {
          finish := Some(Finish(reactor.value, Some(eventQueue[0])));
          eventQueue := eventQueue[1..];
          reactor := None;
        }
      } else if timeout {
        Cancel();
        expired := true;
      }
    }

    /** The thread and its callers, one input after another, until the inputs run out. */
    method Run(script: seq<Input>) returns (out: seq<Finish>, expired: nat)
      modifies this
      ensures Abs() == Play(Trace(old(Abs()), [], [], 0), script).k
      ensures out == Play(Trace(old(Abs()), [], [], 0), script).out
      ensures expired == Play(Trace(old(Abs()), [], [], 0), script).expired
    {
      ghost var start := Trace(Abs(), [], [], 0);
      out, expired := [], 0;
      for i := 0 to |script|
        invariant Abs() == Play(start, script[..i]).k && out == Play(start, script[..i]).out
        invariant expired == Play(start, script[..i]).expired
      {
        assert script[..i + 1][..i] == script[..i];
        match script[i] {
          case Keepalive(slot, ack) => SetReactor(slot, ack);
          case NewEvent(fh) => var eid := EnqueueEvent(fh);
          case Stop => Cancel();
          case WakeUp(timeout) =>
            var finish, expires := TakeTurn(timeout);
            if finish.Some? {
              out := out + [finish.value];
            }
            if expires {
              expired := expired + 1;   // expire_cb_(sid_)
            }
        }
      }
      assert script[..|script|] == script;
    }
  }

  // ----- delivery -----

  /** The events among the finished slots, in order. */
  function Delivered(out: seq<Finish>): seq<Event> {
    if out == [] then []
    else
      var last := out[|out| - 1].event;
      Delivered(out[..|out| - 1]) + if last.Some? then [last.value] else []
  }

  lemma DeliveredAppend(out: seq<Finish>, f: Finish)
    ensures Delivered(out + [f]) == Delivered(out) + if f.event.Some? then [f.event.value] else []
  {
    assert (out + [f])[..|out|] == out;
  }

  /** Delivered and queued events together are the events sent, numbered in order. */
  predicate InOrder(t: Trace) {
    && Delivered(t.out) + t.k.queue == t.sent
    && t.k.eventId == |t.sent|
    && forall i | 0 <= i < |t.sent| :: t.sent[i].id == i
  }

  lemma SendKeepsOrder(t: Trace, fh: int)
    requires InOrder(t)
    ensures InOrder(Feed(t, NewEvent(fh)))
  {
    var e := Event(t.k.eventId, fh);
    assert Delivered(t.out) + (t.k.queue + [e]) == t.sent + [e];
  }

  lemma WakeKeepsOrder(t: Trace, timeout: bool)
    requires InOrder(t)
    ensures InOrder(Feed(t, WakeUp(timeout)))
  {
    var w := Wake(t.k, timeout);
    if w.finish.Some? {
      DeliveredAppend(t.out, w.finish.value);
      if w.finish.value.event.Some? {
        assert Delivered(t.out) + [t.k.queue[0]] + t.k.queue[1..] == Delivered(t.out) + t.k.queue;
      } else {
        assert Delivered(t.out) + [] == Delivered(t.out);
      }
    }
  }

  lemma FeedKeepsOrder(t: Trace, i: Input)
    requires InOrder(t)
    ensures InOrder(Feed(t, i))
  {
    hide Delivered, Wake;
    match i
    case Keepalive(_, _) =>
    case Stop =>
    case NewEvent(fh) => SendKeepsOrder(t, fh);
    case WakeUp(timeout) => WakeKeepsOrder(t, timeout);
  }

  lemma {:induction false} PlayKeepsOrder(t: Trace, script: seq<Input>)
    requires InOrder(t)
    ensures InOrder(Play(t, script))
  {
    if script != [] {
      PlayKeepsOrder(t, script[..|script| - 1]);
      FeedKeepsOrder(Play(t, script[..|script| - 1]), script[|script| - 1]);
    }
  }

  /**
   Whatever happens, the delivered events are the first ones sent, each once and in
   order, and their numbers are 0, 1, 2, ...
   */
  lemma DeliveredInOrder(script: seq<Input>)
    ensures var t := Play(BORN, script);
            var d := Delivered(t.out);
            d <= t.sent && t.sent == d + t.k.queue && forall i | 0 <= i < |d| :: d[i].id == i
  {
    PlayKeepsOrder(BORN, script);
    var t := Play(BORN, script);
    assert t.sent[..|Delivered(t.out)|] == Delivered(t.out);
    assert forall i | 0 <= i < |Delivered(t.out)| :: t.sent[i] == Delivered(t.out)[i];
  }

  /** The input is a wake-up that is no timeout and finds an active reply slot. */
  predicate Serves(k: Ka, i: Input) {
    i == WakeUp(false) && !k.cancelled && k.reactor.Some?
  }

  /** How many such wake-ups there are in the script. */
  function Served(t: Trace, script: seq<Input>): nat {
    if script == [] then 0
    else
      var before := script[..|script| - 1];
      Served(t, before) + if Serves(Play(t, before).k, script[|script| - 1]) then 1 else 0
  }

  /** One input, with the events q[n..] still at the front of the queue. */
  lemma ServeStep(b: Trace, q: seq<Event>, n: nat, i: Input)
    requires n <= |q| && q[n..] <= b.k.queue && (Serves(b.k, i) ==> n < |q|)
    ensures var u, m := Feed(b, i), n + if Serves(b.k, i) then 1 else 0;
            q[m..] <= u.k.queue && Delivered(u.out) == Delivered(b.out) + q[n..m]
  {
    match i
    case Keepalive(_, _) =>
    case Stop =>
    case NewEvent(fh) =>
    case WakeUp(timeout) =>
      var w := Wake(b.k, timeout);
      if w.finish.Some? { DeliveredAppend(b.out, w.finish.value); }
      if Serves(b.k, i) {
        assert b.k.queue[0] == q[n..][0] == q[n];
        assert q[n + 1..] == q[n..][1..] <= b.k.queue[1..];
        assert q[n..n + 1] == [q[n]];
      }
  }

  /** As long as there are no more of them than queued events, each hands out the next queued event. */
  lemma {:induction false} EachServesOne(t: Trace, script: seq<Input>)
    requires Served(t, script) <= |t.k.queue|
    ensures var u := Play(t, script);
            && Delivered(u.out) == Delivered(t.out) + t.k.queue[..Served(t, script)]
            && t.k.queue[Served(t, script)..] <= u.k.queue
  {
    hide Feed, Delivered, Serves;
    if script != [] {
      var before, i := script[..|script| - 1], script[|script| - 1];
      EachServesOne(t, before);
      var n, m := Served(t, before), Served(t, script);
      ServeStep(Play(t, before), t.k.queue, n, i);
      assert t.k.queue[..m] == t.k.queue[..n] + t.k.queue[n..m];
    }
  }

  /**
   An event with n events ahead of it is handed out by exactly the (n+1)-th wake-up that
   is no timeout and finds an active reply slot: that input finishes the slot with it.
   */
  lemma DeliveredOnItsTurn(t: Trace, script: seq<Input>, i: Input, n: nat)
    requires n < |t.k.queue| && Served(t, script) == n
    ensures Serves(Play(t, script).k, i) ==>
              Wake(Play(t, script).k, false).finish
              == Some(Finish(Play(t, script).k.reactor.value, Some(t.k.queue[n])))
    ensures !Serves(Play(t, script).k, i) ==>
              Delivered(Play(t, script + [i]).out) == Delivered(t.out) + t.k.queue[..n]
  {
    EachServesOne(t, script);
    var b := Play(t, script);
    assert t.k.queue[n..][0] == t.k.queue[n];
    assert b.k.queue[0] == t.k.queue[n];
    var more := script + [i];
    assert more[..|more| - 1] == script;
    if !Serves(b.k, i) {
      EachServesOne(t, more);
    }
  }

  // ----- reply slots -----

  function Given(script: seq<Input>): seq<nat> {
    if script == [] then []
    else
      var i := script[|script| - 1];
      Given(script[..|script| - 1]) + if i.Keepalive? then [i.slot] else []
  }

  function Slots(out: seq<Finish>): (r: seq<nat>)
    ensures |r| == |out| && forall i | 0 <= i < |r| :: r[i] == out[i].slot
  {
    seq(|out|, i requires 0 <= i < |out| => out[i].slot)
  }

  /** No slot was finished twice, and the active one was not finished yet. */
  predicate FinishedOnce(t: Trace, given: seq<nat>) {
    && Distinct(Slots(t.out))
    && (forall s | s in Slots(t.out) :: s in given)
    && (t.k.reactor.Some? ==> t.k.reactor.value in given && t.k.reactor.value !in Slots(t.out))
  }

  /** Every KeepAlive call brings its own slot, so no slot is finished twice. */
  lemma {:induction false} NoSlotFinishedTwice(script: seq<Input>)
    requires Distinct(Given(script))
    ensures FinishedOnce(Play(BORN, script), Given(script))
  {
    if script != [] {
      var before, i := script[..|script| - 1], script[|script| - 1];
      var given := Given(before);
      assert given <= Given(script);
      assert forall a, b | 0 <= a < b < |given| :: given[a] == Given(script)[a] && given[b] == Given(script)[b];
      NoSlotFinishedTwice(before);
      var t := Play(BORN, before);
      FeedFinishesOnce(t, i, given);
    }
  }

  lemma FeedFinishesOnce(t: Trace, i: Input, given: seq<nat>)
    requires FinishedOnce(t, given)
    requires i.Keepalive? ==> Distinct(given + [i.slot])
    ensures FinishedOnce(Feed(t, i), given + if i.Keepalive? then [i.slot] else [])
  {
    match i
    case Keepalive(slot, _) =>
      var more := given + [slot];
      assert more[|given|] == slot;
      assert forall s | s in given :: s in more;
      forall a | 0 <= a < |given|
        ensures given[a] != slot
      {
        assert more[a] == given[a];
      }
    case NewEvent(_) =>
    case Stop =>
    case WakeUp(timeout) =>
      var w := Wake(t.k, timeout);
      if w.finish.Some? {
        assert Slots(t.out + [w.finish.value]) == Slots(t.out) + [w.finish.value.slot];
      }
  }

  // ----- what every input does, told from the inputs before it -----

  /** The slot that came last and was not finished yet. */
  function ActiveSlot(script: seq<Input>): Option<nat> {
    var given := Given(script);
    if given != [] && given[|given| - 1] !in Slots(Play(BORN, script).out) then Some(given[|given| - 1]) else None
  }

  lemma GivenNext(script: seq<Input>, i: Input)
    ensures Given(script + [i]) == Given(script) + if i.Keepalive? then [i.slot] else []
    ensures Play(BORN, script + [i]) == Feed(Play(BORN, script), i)
  {
    assert (script + [i])[..|script|] == script;
  }

  /** Every KeepAlive call brings its own slot: the thread holds the last one, until it finishes it. */
  lemma {:induction false} ReactorIsActiveSlot(script: seq<Input>)
    requires Distinct(Given(script))
    ensures Play(BORN, script).k.reactor == ActiveSlot(script)
  {
    if script != [] {
      var before, i := script[..|script| - 1], script[|script| - 1];
      assert script == before + [i];
      GivenNext(before, i);
      DistinctPrefix(Given(before), Given(script));
      ReactorIsActiveSlot(before);
      NoSlotFinishedTwice(before);
      var t := Play(BORN, before);
      if i.Keepalive? {
        FreshSlot(Given(before), i.slot);
      } else if i.WakeUp? {
        var w := Wake(t.k, i.timeout);
        if w.finish.Some? {
          assert Slots(t.out + [w.finish.value]) == Slots(t.out) + [w.finish.value.slot];
          assert Slots(t.out + [w.finish.value])[|t.out|] == w.finish.value.slot;
        }
      }
    }
  }

  lemma DistinctPrefix(a: seq<nat>, b: seq<nat>)
    requires a <= b && Distinct(b)
    ensures Distinct(a)
  {
    assert forall i | 0 <= i < |a| :: a[i] == b[i];
  }

  lemma FreshSlot(given: seq<nat>, slot: nat)
    requires Distinct(given + [slot])
    ensures slot !in given
  {
    var more := given + [slot];
    assert forall i | 0 <= i < |given| :: more[i] == given[i];
    assert more[|given|] == slot;
  }

  /** A timeout that finds no active slot, on a thread that is not cancelled, expires the session. */
  predicate Expires(script: seq<Input>, i: Input) {
    i == WakeUp(true) && ActiveSlot(script) == None && !Over(script)
  }

  /** The thread was stopped or has expired. */
  predicate Over(script: seq<Input>) {
    script != [] && (
      var before, i := script[..|script| - 1], script[|script| - 1];
      Over(before) || i == Stop || (i == WakeUp(true) && ActiveSlot(before) == None))
  }

  lemma OverNext(script: seq<Input>, i: Input)
    ensures Over(script + [i]) <==> Over(script) || i == Stop || (i == WakeUp(true) && ActiveSlot(script) == None)
  {
    assert (script + [i])[..|script|] == script;
  }

  lemma {:induction false} CancelledIsOver(script: seq<Input>)
    requires Distinct(Given(script))
    ensures Play(BORN, script).k.cancelled <==> Over(script)
    ensures Play(BORN, script).expired <= if Over(script) then 1 else 0
  {
    if script != [] {
      var before, i := script[..|script| - 1], script[|script| - 1];
      assert script == before + [i];
      GivenNext(before, i);
      OverNext(before, i);
      DistinctPrefix(Given(before), Given(script));
      CancelledIsOver(before);
      ReactorIsActiveSlot(before);
      hide Given, ActiveSlot, Over;
    }
  }

  /**
   A session expires at most once: exactly at the first timeout that finds no active reply
   slot, unless its thread was stopped before.
   */
  lemma ExpiresOnceIff(script: seq<Input>, i: Input)
    requires Distinct(Given(script))
    ensures var t := Play(BORN, script);
            Feed(t, i).expired == t.expired + (if Expires(script, i) then 1 else 0) <= 1
  {
    CancelledIsOver(script);
    ReactorIsActiveSlot(script);
    hide ActiveSlot, Over, Play;
  }

  /**
   An input finishes a reply slot exactly if it is a wake-up of a thread that goes on and has
   an active slot, and it is a timeout or an event waits.  The slot is finished empty at a
   timeout, and else with the first event that was sent and not delivered yet.
   */
  lemma FinishesIff(script: seq<Input>, i: Input)
    requires Distinct(Given(script))
    ensures var t := Play(BORN, script);
            var n := |Delivered(t.out)|;
            var slot := ActiveSlot(script);
            n <= |t.sent| &&
            Feed(t, i).out == t.out +
              if i.WakeUp? && !Over(script) && slot.Some? && (i.timeout || n < |t.sent|)
              then [Finish(slot.value, if i.timeout then None else Some(t.sent[n]))] else []
  {
    CancelledIsOver(script);
    ReactorIsActiveSlot(script);
    DeliveredInOrder(script);
    hide ActiveSlot, Over, Play, Delivered;
    var t := Play(BORN, script);
    assert t.k.queue != [] ==> t.sent[|Delivered(t.out)|] == t.k.queue[0];
    assert t.out + [] == t.out;
  }
}
