/**
 What one committed log entry does to the store: a path -> file map and a table of
 sessions with their handle vectors.  The functions here are the specification that
 the in-place StateMachine class is proved against; the laws are proved about them.
 */
module Store {
  import opened Prelude
  import Listing
  import opened Paths

  /** FileMetaData together with the file's content. */
  datatype File = File(
    lockOwners: set<int>,
    isLockedEx: bool,
    subscribers: map<int, int>,   // session id -> handle
    fileExists: bool,
    instanceNum: int,
    contentGenNum: int,
    lockGenNum: int,
    isDirectory: bool,
    isEphemeral: bool,
    content: string)

  const NEW_FILE := File({}, false, map[], false, 0, 0, 0, false, false, "")

  /** A session's handles: handle fh is on paths[fh], opened at instance inums[fh] (-1: closed). */
  datatype Session = Session(paths: seq<string>, inums: seq<int>)

  datatype State = State(ds: map<string, File>, db: map<int, Session>, nextId: nat)

  const INIT := State(map["/" := NEW_FILE.(fileExists := true, isDirectory := true)], map[], 0)

  datatype Action =
    | Open(sid: int, path: string, isDirectory: bool, isEphemeral: bool)
    | Close(sid: int, fh: int)
    | StartSession
    | EndSession(sid: int)
    | SetContent(sid: int, fh: int, content: string)
    | Acq(sid: int, fh: int, ex: bool)
    | Rel(sid: int, fh: int)
    | Delete(sid: int, fh: int)

  datatype Reply =
    | Response(res: int, msg: string)
    | OpenReturn(res: int, msg: string, fh: int)
    | CloseReturn(res: int, msg: string, parent: Option<string>)
    | StartSessionReturn(res: int, msg: string, sid: int)
    | EndSessionReturn(res: int, msg: string, parents: seq<string>)

  /**
   The effect of one entry: the new state, the reply, the files whose waiters were
   notified, and the sessions that were sent an event.  Abort: an assertion failed or
   a checked access threw, and the process is gone.
   */
  datatype Outcome = Done(st: State, reply: Reply, woken: set<string>, alerted: set<int>) | Abort

  const NOT_FOUND := "Session Not Found"

  predicate WfSession(ds: map<string, File>, s: Session) {
    |s.paths| == |s.inums| && forall i | 0 <= i < |s.paths| :: s.paths[i] in ds
  }

  /** Every path the code looks up without checking is there. */
  predicate Wf(st: State) {
    && "/" in st.ds
    && (forall p | p in st.ds :: Parent(p) in st.ds)
    && (forall sid | sid in st.db :: 0 <= sid < st.nextId && WfSession(st.ds, st.db[sid]))
  }

  predicate HasHandle(st: State, sid: int, fh: int) {
    sid in st.db && 0 <= fh < |st.db[sid].paths|
  }

  function PathOf(st: State, sid: int, fh: int): string
    requires HasHandle(st, sid, fh)
  {
    st.db[sid].paths[fh]
  }

  /** The handle's stored instance number. */
  function InumOf(st: State, sid: int, fh: int): int
    requires Wf(st) && HasHandle(st, sid, fh)
  {
    st.db[sid].inums[fh]
  }

  /** Changing files and instance numbers, but no path, keeps the look-ups safe. */
  lemma WfKeep(st: State, t: State)
    requires Wf(st) && t.nextId == st.nextId
    requires t.ds.Keys == st.ds.Keys && t.db.Keys == st.db.Keys
    requires forall sid | sid in st.db ::
               t.db[sid].paths == st.db[sid].paths && |t.db[sid].inums| == |st.db[sid].inums|
    ensures Wf(t)
  {
    forall sid | sid in t.db
      ensures 0 <= sid < t.nextId && WfSession(t.ds, t.db[sid])
    {
      assert WfSession(st.ds, st.db[sid]);
    }
  }

  lemma WfOpened(st: State, sid: int, path: string, inum: int, ds: map<string, File>)
    requires Wf(st) && sid in st.db && ds.Keys == st.ds.Keys + {path} && Parent(path) in ds
    ensures var s := st.db[sid];
            Wf(State(ds, st.db[sid := Session(s.paths + [path], s.inums + [inum])], st.nextId))
  {
    assert WfSession(st.ds, st.db[sid]);
    forall p | p in ds
      ensures Parent(p) in ds
    {
      assert p in st.ds || p == path;
    }
  }

  // ----- one action after another -----

  /** What opening does to the files; None when one of the two assertions fails. */
  function OpenFile(ds: map<string, File>, a: Action, fh: int): (r: Option<map<string, File>>)
    requires a.Open?
    ensures r.Some? ==> r.value.Keys == ds.Keys + {a.path} && Parent(a.path) in r.value
  {
    var f := FileAt(ds, a.path);
    var f1 := f.(isDirectory := if f.fileExists then f.isDirectory else a.isDirectory,
                 isEphemeral := a.isEphemeral);
    var ds1 := ds[a.path := f1];
    var parent := Parent(a.path);
    if parent !in ds1 || !ds1[parent].isDirectory then None
    else
      var ds2 := if a.path != "/" && !f.fileExists
                 then ds1[parent := AddName(ds1[parent], Filename(a.path))] else ds1;
      var f2 := ds2[a.path].(fileExists := true, subscribers := f.subscribers[a.sid := fh]);
      Some(ds2[a.path := f2])
  }

  function FileAt(ds: map<string, File>, path: string): File {
    if path in ds then ds[path] else NEW_FILE
  }

  function ApplyOpen(st: State, a: Action): (o: Outcome)
    requires Wf(st) && a.Open?
    ensures o.Done? ==> Wf(o.st)
  {
    if a.sid !in st.db then Done(st, OpenReturn(-1, NOT_FOUND, -1), {}, {})
    else
      var s := st.db[a.sid];
      var fh := |s.paths|;
      match OpenFile(st.ds, a, fh)
      case None => Abort
      case Some(ds1) =>
        var inum := FileAt(st.ds, a.path).instanceNum;
        WfOpened(st, a.sid, a.path, inum, ds1);
        Done(State(ds1, st.db[a.sid := Session(s.paths + [a.path], s.inums + [inum])], st.nextId),
             OpenReturn(0, "OK", fh), {}, {})
  }

  function AddName(dir: File, name: string): File {
    dir.(content := dir.content + ([Listing.NUL] + name))
  }

  /** One name taken out of one directory's content. */
  datatype Item = Item(dir: string, name: string)

  /** The files after an edit, and the listing entry it erased, if any. */
  datatype Edit = Edit(ds: map<string, File>, item: Option<Item>)

  datatype Closed = Closed(st: State, item: Option<Item>)

  /** Erase key's name from its parent's content. */
  function Unlist(ds: map<string, File>, key: string): (r: Edit)
    requires Parent(key) in ds
    ensures r.ds.Keys == ds.Keys
  {
    var dir := ds[Parent(key)];
    match Listing.EraseName(dir.content, Filename(key))
    case None => Edit(ds, None)
    case Some(rest) => Edit(ds[Parent(key) := dir.(content := rest)], Some(Item(Parent(key), Filename(key))))
  }

  /** close_file_delete_ephermeral: the new state and the listing entry it erased, if any. */
  function CloseFile(st: State, sid: int, fh: int): (r: Closed)
    requires Wf(st) && HasHandle(st, sid, fh)
    ensures Wf(r.st) && r.st.ds.Keys == st.ds.Keys && r.st.db.Keys == st.db.Keys
    ensures r.st.db[sid].paths == st.db[sid].paths
  {
    var s := st.db[sid];
    if s.inums[fh] == -1 then Closed(st, None)
    else
      var key := s.paths[fh];
      assert WfSession(st.ds, s) && key in st.ds;
      var db1 := st.db[sid := s.(inums := s.inums[fh := -1])];
      var e := Unsubscribe(st.ds, sid, key);
      WfKeep(st, State(e.ds, db1, st.nextId));
      Closed(State(e.ds, db1, st.nextId), e.item)
  }

  /** Drop the session's subscription; the last one to go removes an ephemeral file. */
  function Unsubscribe(ds: map<string, File>, sid: int, key: string): (r: Edit)
    requires key in ds && Parent(key) in ds
    ensures r.ds.Keys == ds.Keys
  {
    var f := ds[key];
    if sid !in f.subscribers then Edit(ds, None)
    else
      var f1 := f.(subscribers := f.subscribers - {sid});
      if f1.subscribers == map[] && f.isEphemeral then
        Unlist(ds[key := f1.(fileExists := false)], key)
      else Edit(ds[key := f1], None)
  }

  datatype Release = Release(st: State, rc: int, woken: set<string>)

  /** release_lock: -2 file not found, -1 lock not held by the session, 0 released. */
  function ReleaseLock(st: State, sid: int, fh: int): (r: Release)
    requires Wf(st) && (sid in st.db ==> HasHandle(st, sid, fh))
    ensures Wf(r.st) && r.st.ds.Keys == st.ds.Keys && r.st.db == st.db
    ensures -2 <= r.rc <= 0
  {
    if sid !in st.db then Release(st, -1, {})
    else
      var key := PathOf(st, sid, fh);
      var f := st.ds[key];
      if !f.fileExists then Release(st, -2, {})
      else
        var f1 := f.(lockOwners := f.lockOwners - {sid});
        Release(st.(ds := st.ds[key := f1]),
                if sid in f.lockOwners then 0 else -1,
                if f1.lockOwners == {} then {key} else {})
  }

  function ApplyClose(st: State, a: Action): (o: Outcome)
    requires Wf(st) && a.Close?
    ensures o.Done? ==> Wf(o.st)
  {
    if a.sid !in st.db then Done(st, CloseReturn(-1, NOT_FOUND, None), {}, {})
    else if !HasHandle(st, a.sid, a.fh) then Abort
    else
      var c := CloseFile(st, a.sid, a.fh);
      var rel := ReleaseLock(c.st, a.sid, a.fh);
      Done(rel.st, CloseReturn(0, "OK", if c.item.Some? then Some(c.item.value.dir) else None), rel.woken, {})
  }

  datatype Ended = Ended(st: State, items: seq<Item>, woken: set<string>)

  /** One turn of EndSession's loop, on top of what the earlier turns did. */
  function EndOne(done: Ended, sid: int, fh: nat): (r: Ended)
    requires Wf(done.st) && sid in done.st.db && fh < |done.st.db[sid].paths|
    ensures Wf(r.st) && r.st.ds.Keys == done.st.ds.Keys && r.st.db.Keys == done.st.db.Keys
    ensures r.st.db[sid].paths == done.st.db[sid].paths
  {
    var c := CloseFile(done.st, sid, fh);
    var rel := ReleaseLock(c.st, sid, fh);
    Ended(rel.st, if c.item.Some? then done.items + [c.item.value] else done.items, done.woken + rel.woken)
  }

  /** EndSession's loop after its first n turns. */
  function EndUpTo(st: State, sid: int, n: nat): (r: Ended)
    requires Wf(st) && sid in st.db && n <= |st.db[sid].paths|
    ensures Wf(r.st) && r.st.ds.Keys == st.ds.Keys && r.st.db.Keys == st.db.Keys
    ensures r.st.db[sid].paths == st.db[sid].paths
  {
    if n == 0 then Ended(st, [], {}) else EndOne(EndUpTo(st, sid, n - 1), sid, n - 1)
  }

  function Dirs(items: seq<Item>): (r: seq<string>)
    ensures |r| == |items| && forall i | 0 <= i < |r| :: r[i] == items[i].dir
  {
    seq(|items|, i requires 0 <= i < |items| => items[i].dir)
  }

  function ApplyEndSession(st: State, a: Action): (o: Outcome)
    requires Wf(st) && a.EndSession?
    ensures o.Done? ==> Wf(o.st)
  {
    if a.sid !in st.db then Done(st, Response(-1, NOT_FOUND), {}, {})
    else
      var r := EndUpTo(st, a.sid, |st.db[a.sid].paths|);
      Done(r.st.(db := r.st.db - {a.sid}), EndSessionReturn(0, "OK", Dirs(r.items)), r.woken, {})
  }

  function ApplyStartSession(st: State): (o: Outcome)
    requires Wf(st)
    ensures o.Done? && Wf(o.st)
  {
    Done(State(st.ds, st.db[st.nextId := Session([], [])], st.nextId + 1),
         StartSessionReturn(0, "OK", st.nextId), {}, {})
  }

  function ApplySetContent(st: State, a: Action): (o: Outcome)
    requires Wf(st) && a.SetContent?
    ensures o.Done? ==> Wf(o.st)
  {
    if a.sid !in st.db then Done(st, Response(-1, NOT_FOUND), {}, {})
    else if !HasHandle(st, a.sid, a.fh) then Abort
    else
      var key := PathOf(st, a.sid, a.fh);
      var f := st.ds[key];
      if InumOf(st, a.sid, a.fh) != f.instanceNum then Done(st, Response(-1, "Instance num mismatch"), {}, {})
      else if !f.fileExists then Done(st, Response(-1, "File does not exist"), {}, {})
      else Done(st.(ds := st.ds[key := f.(content := a.content)]), Response(0, "OK"), {}, {})
  }

  function ApplyAcq(st: State, a: Action): (o: Outcome)
    requires Wf(st) && a.Acq?
    ensures o.Done? ==> Wf(o.st)
  {
    if a.sid !in st.db then Done(st, Response(-1, NOT_FOUND), {}, {})
    else if !HasHandle(st, a.sid, a.fh) then Abort
    else
      var key := PathOf(st, a.sid, a.fh);
      var f := st.ds[key];
      var free := f.lockOwners == {};
      if free || (!a.ex && !f.isLockedEx) then
        var f1 := f.(lockOwners := f.lockOwners + {a.sid},
                     isLockedEx := if free then a.ex else f.isLockedEx,
                     lockGenNum := if free then f.lockGenNum + 1 else f.lockGenNum);
        Done(st.(ds := st.ds[key := f1]), Response(0, ""), {}, {})
      else Done(st, Response(1, "fail to acquire"), {}, {})
  }

  function ApplyRel(st: State, a: Action): (o: Outcome)
    requires Wf(st) && a.Rel?
    ensures o.Done? ==> Wf(o.st)
  {
    if a.sid in st.db && !HasHandle(st, a.sid, a.fh) then Abort
    else
      var r := ReleaseLock(st, a.sid, a.fh);
      var msg := if r.rc == -2 then "file not found"
                 else if r.rc == -1 then "the session does not hold this lock" else "";
      Done(r.st, Response(r.rc, msg), r.woken, {})
  }

  function ApplyDelete(st: State, a: Action): (o: Outcome)
    requires Wf(st) && a.Delete?
    ensures o.Done? ==> Wf(o.st)
  {
    if a.sid !in st.db then Done(st, Response(-1, NOT_FOUND), {}, {})
    else if !HasHandle(st, a.sid, a.fh) then Abort
    else
      var key := PathOf(st, a.sid, a.fh);
      var f := st.ds[key];
      if f.isDirectory && f.content != "" then Abort
      else
        Done(st.(ds := DeleteFile(st.ds, key)), Response(0, ""), {key}, f.lockOwners * st.db.Keys)
  }

  function DeleteFile(ds: map<string, File>, key: string): (r: map<string, File>)
    requires key in ds && Parent(key) in ds
    ensures r.Keys == ds.Keys
  {
    Unlist(ds[key := Deleted(ds[key])], key).ds
  }

  function Deleted(f: File): File {
    f.(content := "", fileExists := false, instanceNum := f.instanceNum + 1,
       contentGenNum := 0, lockGenNum := 0, lockOwners := {})
  }

  /** Apply one committed entry. */
  function Apply(st: State, a: Action): (o: Outcome)
    requires Wf(st)
    ensures o.Done? ==> Wf(o.st)
  {
    match a
    case Open(_, _, _, _) => ApplyOpen(st, a)
    case Close(_, _) => ApplyClose(st, a)
    case StartSession => ApplyStartSession(st)
    case EndSession(_) => ApplyEndSession(st, a)
    case SetContent(_, _, _) => ApplySetContent(st, a)
    case Acq(_, _, _) => ApplyAcq(st, a)
    case Rel(_, _) => ApplyRel(st, a)
    case Delete(_, _) => ApplyDelete(st, a)
  }

  // ----- runs -----

  /** a takes s to t without aborting. */
  predicate Step(s: State, a: Action, t: State) {
    Wf(s) && Apply(s, a).Done? && Apply(s, a).st == t
  }

  /** states are the states a replica goes through as it applies the log. */
  predicate Run(states: seq<State>, log: seq<Action>) {
    && |states| == |log| + 1
    && (forall i | 0 <= i <= |log| :: Wf(states[i]))
    && forall i | 0 <= i < |log| :: Step(states[i], log[i], states[i + 1])
  }

  predicate InitRun(states: seq<State>, log: seq<Action>) {
    Run(states, log) && states[0] == INIT
  }
}
