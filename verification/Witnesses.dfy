/**
 Short runs in which a property fails that the code would like to have: a directory whose
 content is no listing any more, a cleared file nobody hears of, and a write nobody hears of.
 */
module Witnesses {
  import opened Prelude
  import opened Paths
  import opened Store
  import Contents
  import Coherence
  import Easing
  import Coverage
  import Handles
  import Listing
  import Replicas
  import Subscriptions
  import Tree

  /** A plain file below the root that does not exist yet. */
  predicate NewChild(st: State, sid: int, n: string) {
    && Wf(st) && sid in st.db && st.ds["/"].isDirectory && "/" + n !in st.ds
    && n != "" && '/' !in n
  }

  function NewFile(sid: int, fh: int): File {
    NEW_FILE.(fileExists := true, subscribers := NEW_FILE.subscribers[sid := fh])
  }

  lemma ChildPath(n: string)
    requires n != "" && '/' !in n
    ensures Parent("/" + n) == "/" && Filename("/" + n) == n && "/" + n != "/"
  {
    JoinParts("/", n);
    assert |"/" + n| > 1;
  }

  lemma OpenNewFile(ds: map<string, File>, sid: int, n: string, fh: int)
    requires n != "" && '/' !in n && "/" in ds && ds["/"].isDirectory && "/" + n !in ds
    ensures var r := OpenFile(ds, Open(sid, "/" + n, false, false), fh);
            && r.Some? && r.value.Keys == ds.Keys + {"/" + n}
            && r.value["/"] == AddName(ds["/"], n) && r.value["/" + n] == NewFile(sid, fh)
            && forall p | p in ds && p != "/" :: r.value[p] == ds[p]
  {
    ChildPath(n);
    hide Parent, Filename;
  }

  /** Opening it creates it, lists it and subscribes the session; nothing else changes. */
  lemma OpenNew(st: State, sid: int, n: string, t: State)
    requires NewChild(st, sid, n) && Apply(st, Open(sid, "/" + n, false, false)).Done?
    requires t == Apply(st, Open(sid, "/" + n, false, false)).st
    ensures t.ds.Keys == st.ds.Keys + {"/" + n}
    ensures t.ds["/"] == AddName(st.ds["/"], n) && t.ds["/" + n] == NewFile(sid, |st.db[sid].paths|)
    ensures forall p | p in st.ds && p != "/" :: t.ds[p] == st.ds[p]
    ensures t.db.Keys == st.db.Keys
    ensures t.db[sid] == Session(st.db[sid].paths + ["/" + n], st.db[sid].inums + [0])
    ensures forall q | q in st.db && q != sid :: t.db[q] == st.db[q]
  {
    OpenNewFile(st.ds, sid, n, |st.db[sid].paths|);
    hide OpenFile;
  }

  lemma OpenWorks(st: State, sid: int, n: string)
    requires NewChild(st, sid, n)
    ensures Apply(st, Open(sid, "/" + n, false, false)).Done?
  {
    OpenNewFile(st.ds, sid, n, |st.db[sid].paths|);
    hide OpenFile;
  }

  const ROOT := NEW_FILE.(fileExists := true, isDirectory := true)

  /** Session 0 is there, with no handle, and the root is empty. */
  predicate OneSession(st: State) {
    Wf(st) && st.ds.Keys == {"/"} && st.ds["/"] == ROOT && 0 in st.db && st.db[0] == Session([], [])
  }

  lemma StartOne()
    ensures Wf(INIT) && Apply(INIT, StartSession).Done? && OneSession(Apply(INIT, StartSession).st)
    ensures Apply(INIT, StartSession).st.nextId == 1
  {
    assert Parent("/") == "/";
  }

  // ----- a content that is no listing -----

  const BREAK: seq<Action> := [StartSession, Open(0, "/ab", false, false), Open(0, "/a", false, false), Delete(0, 1)]

  predicate HasAb(st: State) {
    && Wf(st) && "/" in st.ds && "/ab" in st.ds && st.ds["/ab"] == NewFile(0, 0) && "/a" !in st.ds
    && st.ds["/"] == ROOT.(content := "\0ab") && 0 in st.db && st.db[0] == Session(["/ab"], [0])
  }

  predicate HasBoth(st: State) {
    && Wf(st) && "/" in st.ds && "/ab" in st.ds && st.ds["/ab"] == NewFile(0, 0)
    && "/a" in st.ds && st.ds["/a"] == NewFile(0, 1)
    && st.ds["/"] == ROOT.(content := "\0ab\0a") && 0 in st.db && st.db[0] == Session(["/ab", "/a"], [0, 0])
  }

  lemma OpenAb(s: State)
    requires OneSession(s)
    ensures Apply(s, BREAK[1]).Done? && HasAb(Apply(s, BREAK[1]).st)
  {
    hide Apply;
    assert "/" + "ab" == "/ab" && "" + ([Listing.NUL] + "ab") == "\0ab";
    assert [] + ["/ab"] == ["/ab"] && [] + [0] == [0];
    OpenWorks(s, 0, "ab");
    OpenNew(s, 0, "ab", Apply(s, BREAK[1]).st);
  }

  lemma OpenA(s: State)
    requires HasAb(s)
    ensures Apply(s, BREAK[2]).Done? && HasBoth(Apply(s, BREAK[2]).st)
  {
    hide Apply;
    assert "/" + "a" == "/a" && "\0ab" + ([Listing.NUL] + "a") == "\0ab\0a";
    assert ["/ab"] + ["/a"] == ["/ab", "/a"] && [0] + [0] == [0, 0];
    OpenWorks(s, 0, "a");
    OpenNew(s, 0, "a", Apply(s, BREAK[2]).st);
  }

  lemma EraseTheWrongA()
    ensures Listing.EraseName("\0ab\0a", "a") == Some("b\0a")
  {
    var names := ["ab", "a"];
    Listing.EncodeOne("a");
    assert names[1..] == ["a"] && names[..0] == [] && names[0][|"a"|..] == "b";
    assert Listing.Encode(names) == [Listing.NUL] + "ab" + ([Listing.NUL] + "a") == "\0ab\0a";
    Listing.ErasedText(names, "a", 0);
    assert "" + ("b" + ([Listing.NUL] + "a")) == "b\0a";
  }

  lemma DeleteA(s: State)
    requires HasBoth(s)
    ensures Apply(s, BREAK[3]).Done?
    ensures var t := Apply(s, BREAK[3]).st;
            && "/" in t.ds && t.ds["/"] == ROOT.(content := "b\0a")
            && "/ab" in t.ds && t.ds["/ab"] == NewFile(0, 0)
  {
    ChildPath("a");
    assert "/" + "a" == "/a";
    EraseTheWrongA();
    hide Listing.EraseName, Parent, Filename;
  }

  lemma NeverAListing(names: seq<string>)
    ensures Listing.Encode(names) != "b\0a"
  {
    if names != [] { assert Listing.Encode(names)[0] == Listing.NUL; }
  }

  /**
   After deleting "/a" next to an earlier "/ab", the root's content is no listing of
   anything, although "/ab" is still there.
   */
  lemma ListingBreaks() returns (states: seq<State>)
    ensures InitRun(states, BREAK)
    ensures var ds := states[4].ds;
            && "/" in ds && ds["/"].content == "b\0a" && Tree.LiveDir(ds["/"]) && Tree.Child(ds, "/", "/ab")
            && forall names :: !Tree.Lists(ds, "/", names)
  {
    StartOne();
    ChildPath("ab");
    assert "/" + "ab" == "/ab";
    hide Apply, Parent, OneSession, HasAb, HasBoth, Wf;
    var s1 := Apply(INIT, BREAK[0]).st;
    OpenAb(s1);
    var s2 := Apply(s1, BREAK[1]).st;
    OpenA(s2);
    var s3 := Apply(s2, BREAK[2]).st;
    DeleteA(s3);
    var s4 := Apply(s3, BREAK[3]).st;
    states := [INIT, s1, s2, s3, s4];
    FourSteps(states, BREAK);
    hide Listing.Encode, Tree.Covers, Tree.Members;
    forall names
      ensures !Tree.Lists(s4.ds, "/", names)
    {
      NeverAListing(names);
    }
  }

  lemma FourSteps(states: seq<State>, log: seq<Action>)
    requires |states| == 5 && |log| == 4 && states[0] == INIT && forall i | 0 <= i <= 4 :: Wf(states[i])
    requires Step(states[0], log[0], states[1]) && Step(states[1], log[1], states[2])
    requires Step(states[2], log[2], states[3]) && Step(states[3], log[3], states[4])
    ensures InitRun(states, log)
  {
    hide Step, Wf;
  }

  // ----- a file that is cleared behind its subscribers' backs -----

  const CLEAR: seq<Action> := [StartSession, Open(0, "/f", false, false), SetContent(0, 0, "x"), Delete(0, 0)]

  /** "/f" has this content, session 0 is subscribed to it by handle 0. */
  predicate HasF(st: State, text: string) {
    && Wf(st) && "/f" in st.ds && st.ds["/f"] == NewFile(0, 0).(content := text)
    && 0 in st.db && st.db[0] == Session(["/f"], [0])
  }

  lemma OpenF(s: State)
    requires OneSession(s)
    ensures Apply(s, CLEAR[1]).Done? && HasF(Apply(s, CLEAR[1]).st, "")
  {
    assert "/" + "f" == "/f" && [] + ["/f"] == ["/f"] && [] + [0] == [0];
    OpenWorks(s, 0, "f");
    OpenNew(s, 0, "f", Apply(s, CLEAR[1]).st);
    hide Apply;
  }

  lemma WriteF(s: State)
    requires HasF(s, "")
    ensures Apply(s, CLEAR[2]).Done? && HasF(Apply(s, CLEAR[2]).st, "x")
  {
  }

  lemma DeleteF(s: State)
    requires HasF(s, "x")
    ensures var o := Apply(s, CLEAR[3]);
            && o == Done(o.st, Response(0, ""), {"/f"}, {}) && "/f" in o.st.ds && o.st.ds["/f"].content == ""
            && o.st.ds["/f"].subscribers == s.ds["/f"].subscribers
  {
    ChildPath("f");
    assert "/" + "f" == "/f";
    hide Listing.EraseName, Parent, Filename;
  }

  /** Delete answers with success, "/f" went from "x" to nothing, and its subscriber is not told. */
  lemma ClearedUnnotified() returns (states: seq<State>)
    ensures InitRun(states, CLEAR)
    ensures Apply(states[3], CLEAR[3]) == Done(states[4], Response(0, ""), {"/f"}, {})
    ensures "/f" in states[4].ds && 0 in states[4].ds["/f"].subscribers
    ensures Coverage.Changes(states[3], states[4], "/f")
    ensures forall now :: "/f" !in Coherence.Targets(states[3], CLEAR[3], now)
  {
    StartOne();
    ChildPath("f");
    assert "/" + "f" == "/f";
    hide Apply, Parent, Coherence.Targets, OneSession, Wf;
    var s1 := Apply(INIT, CLEAR[0]).st;
    OpenF(s1);
    var s2 := Apply(s1, CLEAR[1]).st;
    WriteF(s2);
    var s3 := Apply(s2, CLEAR[2]).st;
    DeleteF(s3);
    var s4 := Apply(s3, CLEAR[3]).st;
    states := [INIT, s1, s2, s3, s4];
    FourSteps(states, CLEAR);
    assert Coverage.DeletesItself(s3, CLEAR[3], "/f");
    forall now
      ensures "/f" !in Coherence.Targets(s3, CLEAR[3], now)
    {
      Coverage.ChangeUnnotifiedIff(s3, CLEAR[3], now, "/f");
    }
  }

  // ----- a write that is lost on the subscribers -----

  const LOSE: seq<Action> := [
    StartSession, StartSession, Open(0, "/f", false, false), Open(1, "/f", false, false),
    SetContent(0, 0, "x"), EndSession(0)]

  /** Two sessions, neither with a handle. */
  predicate TwoSessions(st: State) {
    && Wf(st) && st.ds.Keys == {"/"} && st.ds["/"] == ROOT
    && 0 in st.db && st.db[0] == Session([], []) && 1 in st.db && st.db[1] == Session([], [])
  }

  lemma StartTwo(s: State)
    requires OneSession(s) && s.nextId == 1
    ensures Apply(s, StartSession).Done? && TwoSessions(Apply(s, StartSession).st)
  {
  }

  predicate Below(st: State) {
    Wf(st) && "/" in st.ds && st.ds["/"].isDirectory && 1 in st.db && st.db[1] == Session([], []) && HasF(st, "")
  }

  lemma OpenFirst(s: State)
    requires TwoSessions(s)
    ensures Apply(s, LOSE[2]).Done? && Below(Apply(s, LOSE[2]).st)
  {
    hide Apply;
    assert "/" + "f" == "/f" && [] + ["/f"] == ["/f"] && [] + [0] == [0];
    OpenWorks(s, 0, "f");
    OpenNew(s, 0, "f", Apply(s, LOSE[2]).st);
  }

  /** "/f" has this content, and session 1 is subscribed to it; session 0 has a current handle on it. */
  predicate Shared(st: State, text: string) {
    && Wf(st) && "/f" in st.ds && st.ds["/f"].content == text && 1 in st.ds["/f"].subscribers
    && st.ds["/f"].fileExists && st.ds["/f"].instanceNum == 0
    && 0 in st.db && st.db[0] == Session(["/f"], [0])
  }

  lemma OpenSecond(s: State)
    requires Below(s)
    ensures Apply(s, LOSE[3]).Done? && Shared(Apply(s, LOSE[3]).st, "")
  {
    ChildPath("f");
    assert "/" + "f" == "/f";
    hide Parent, Filename;
  }

  lemma WriteShared(s: State)
    requires Shared(s, "")
    ensures Apply(s, LOSE[4]).Done? && Apply(s, LOSE[4]) == Done(Apply(s, LOSE[4]).st, Response(0, "OK"), {}, {})
    ensures Shared(Apply(s, LOSE[4]).st, "x")
  {
  }

  lemma EndWriter(s: State)
    requires Shared(s, "x")
    ensures Apply(s, LOSE[5]).Done?
    ensures var t := Apply(s, LOSE[5]).st; "/f" in t.ds && 1 in t.ds["/f"].subscribers && 0 !in t.db
  {
    assert Apply(s, LOSE[5]).Done?;
    hide Apply;
    Easing.StepEases(s, LOSE[5], Apply(s, LOSE[5]).st);
    assert Easing.FileEased(s.ds["/f"], Apply(s, LOSE[5]).st.ds["/f"], 0);
  }

  /**
   The write to "/f" succeeded, but its session is gone when the handler looks it up again,
   and session 1, which is subscribed all along, is not told.
   */
  lemma WriteUnnotified() returns (states: seq<State>)
    ensures InitRun(states, LOSE)
    ensures Apply(states[4], LOSE[4]) == Done(states[5], Response(0, "OK"), {}, {})
    ensures Coverage.Changes(states[4], states[5], "/f")
    ensures "/f" in states[5].ds && 1 in states[5].ds["/f"].subscribers
    ensures "/f" in states[6].ds && 1 in states[6].ds["/f"].subscribers
    ensures "/f" !in Coherence.Targets(states[4], LOSE[4], states[6])
  {
    hide Apply, Coherence.Targets, OneSession, TwoSessions, Below, Wf;
    StartOne();
    var s1 := Apply(INIT, LOSE[0]).st;
    StartTwo(s1);
    var s2 := Apply(s1, LOSE[1]).st;
    OpenFirst(s2);
    var s3 := Apply(s2, LOSE[2]).st;
    OpenSecond(s3);
    var s4 := Apply(s3, LOSE[3]).st;
    WriteShared(s4);
    var s5 := Apply(s4, LOSE[4]).st;
    EndWriter(s5);
    var s6 := Apply(s5, LOSE[5]).st;
    states := [INIT, s1, s2, s3, s4, s5, s6];
    SixSteps(states, LOSE);
    Coverage.ChangeUnnotifiedIff(s4, LOSE[4], s6, "/f");
  }

  lemma SixSteps(states: seq<State>, log: seq<Action>)
    requires |states| == 7 && |log| == 6 && states[0] == INIT && forall i | 0 <= i <= 6 :: Wf(states[i])
    requires Step(states[0], log[0], states[1]) && Step(states[1], log[1], states[2])
    requires Step(states[2], log[2], states[3]) && Step(states[3], log[3], states[4])
    requires Step(states[4], log[4], states[5]) && Step(states[5], log[5], states[6])
    ensures InitRun(states, log)
  {
    hide Step, Wf;
  }

  // ----- an open handle without a subscription -----

  /** A session opens a file twice and closes its first handle. */
  function Twice(eph: bool): seq<Action> {
    [StartSession, Open(0, "/f", false, eph), Open(0, "/f", false, eph), Close(0, 0)]
  }

  /** Session 0 is the only subscriber of "/f"; its newest handle is current. */
  predicate HoldsF(st: State, eph: bool, n: nat) {
    && Wf(st) && Handles.CountsUp(st) && st.ds["/"].isDirectory && 0 in st.db && |st.db[0].paths| == n
    && (n > 0 ==>
          && "/f" in st.ds && st.ds["/f"].fileExists && st.ds["/f"].isEphemeral == eph
          && st.ds["/f"].subscribers.Keys == {0} && PathOf(st, 0, n - 1) == "/f" && Handles.Fresh(st, 0, n - 1))
    && (n == 0 ==> "/f" !in st.ds)
  }

  lemma OpenDone(ds: map<string, File>, a: Action, fh: int)
    requires a.Open? && a.path == "/f" && "/" in ds && ds["/"].isDirectory
    ensures var r := OpenFile(ds, a, fh);
            r.Some? && "/" in r.value && r.value["/"].isDirectory
  {
    ChildPath("f");
    assert "/" + "f" == "/f";
    hide Parent, Filename;
  }

  lemma OpensAgain(s: State, eph: bool, n: nat)
    requires HoldsF(s, eph, n)
    ensures Apply(s, Open(0, "/f", false, eph)).Done?
    ensures HoldsF(Apply(s, Open(0, "/f", false, eph)).st, eph, n + 1)
  {
    var a := Open(0, "/f", false, eph);
    OpenDone(s.ds, a, n);
    Replicas.OpenSubscribers(s.ds, a, n, "/f");
    OpenedState(s, a);
    Contents.OpenTakesEffect(s, a);
    hide Apply, OpenFile;
    Handles.StepCountsUp(s, a, Apply(s, a).st);
  }

  lemma OpenedState(s: State, a: Action)
    requires Wf(s) && a.Open? && a.sid in s.db && OpenFile(s.ds, a, |s.db[a.sid].paths|).Some?
    ensures var o := Apply(s, a);
            && o.Done? && o.st.ds == OpenFile(s.ds, a, |s.db[a.sid].paths|).value && a.sid in o.st.db
            && o.st.db[a.sid].paths == s.db[a.sid].paths + [a.path]
            && o.reply.fh == |s.db[a.sid].paths|
  {
    hide OpenFile;
  }

  lemma CloseFirst(s: State, eph: bool)
    requires HoldsF(s, eph, 2) && PathOf(s, 0, 0) == "/f" && InumOf(s, 0, 0) != -1
    ensures Apply(s, Close(0, 0)).Done?
    ensures var t := Apply(s, Close(0, 0)).st;
            && HasHandle(t, 0, 1) && PathOf(t, 0, 1) == "/f" && Handles.Fresh(t, 0, 1)
            && Subscriptions.SubscribedBy(t, "/f", 0) == None
            && (Subscriptions.Exists(t, "/f") <==> !eph)
  {
    var a := Close(0, 0);
    assert Apply(s, a).Done?;
    hide Apply;
    var t := Apply(s, a).st;
    Handles.StepSessions(s, a, t);
    Handles.StepInstance(s, a, t, "/f");
    Subscriptions.StepSubscription(s, a, t, "/f", 0);
    Subscriptions.CloseExists(s, a, t, "/f");
  }

  /**
   The second handle is open and current, but its session is subscribed to the file no more;
   if the file is ephemeral it is even gone.
   */
  lemma OpenButUnsubscribed(eph: bool) returns (states: seq<State>)
    ensures InitRun(states, Twice(eph))
    ensures var t := states[4];
            && HasHandle(t, 0, 1) && PathOf(t, 0, 1) == "/f" && Handles.Fresh(t, 0, 1)
            && Subscriptions.SubscribedBy(t, "/f", 0) == None
            && (Subscriptions.Exists(t, "/f") <==> !eph)
  {
    hide Apply;
    StartOne();
    var s1 := Apply(INIT, StartSession).st;
    OpensAgain(s1, eph, 0);
    var s2 := Apply(s1, Twice(eph)[1]).st;
    OpensAgain(s2, eph, 1);
    var s3 := Apply(s2, Twice(eph)[2]).st;
    FirstStays(s2, s3, eph);
    CloseFirst(s3, eph);
    var s4 := Apply(s3, Close(0, 0)).st;
    states := [INIT, s1, s2, s3, s4];
    FourSteps(states, Twice(eph));
  }

  lemma FirstStays(s: State, t: State, eph: bool)
    requires HoldsF(s, eph, 1) && HoldsF(t, eph, 2) && Step(s, Open(0, "/f", false, eph), t)
    ensures PathOf(t, 0, 0) == "/f" && InumOf(t, 0, 0) != -1
  {
    hide Apply;
    Handles.StepSessions(s, Open(0, "/f", false, eph), t);
  }
}
