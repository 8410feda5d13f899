/**
 The replicated state machine as the server holds it: a file table and session entries
 that every apply method updates in place.  Each method is proved to do exactly what
 the functions of module Store say.
 */
module StateMachines {
  import opened Prelude
  import Listing
  import opened Paths
  import opened Store

  /** session::Entry: the append-only handle vectors of one session. */
  class Entry {
    const id: int
    var v: seq<string>
    var inum: seq<int>

    constructor (id: int)
      ensures this.id == id && v == [] && inum == []
    {
      this.id := id;
      v, inum := [], [];
    }

    function AsSession(): Session
      reads this
    {
      Session(v, inum)
    }

    method AddNewHandle(path: string, instanceNum: int) returns (fh: int)
      modifies this
      ensures AsSession() == Session(old(v) + [path], old(inum) + [instanceNum])
      ensures fh == |old(v)|
    {
      v := v + [path];
      inum := inum + [instanceNum];
      fh := |v| - 1;
    }

    method CloseHandle(fh: int)
      requires 0 <= fh < |inum|
      modifies this
      ensures AsSession() == old(AsSession()).(inums := old(inum)[fh := -1])
    {
      inum := inum[fh := -1];
    }
  }

  class StateMachine {
    var ds: map<string, File>
    var sdb: map<int, Entry>
    var nextId: nat

    ghost function Table(): map<int, Session>
      reads this`sdb, sdb.Values
    {
      map sid | sid in sdb :: sdb[sid].AsSession()
    }

    ghost function Abs(): State
      reads this, sdb.Values
    {
      State(ds, Table(), nextId)
    }

    /** Entries are filed under their own ids, and the look-ups are safe. */
    ghost predicate Valid()
      reads this, sdb.Values
    {
      (forall sid | sid in sdb :: sdb[sid].id == sid) && Wf(Abs())
    }

    /** The server's start: an empty session table and the root directory. */
    constructor ()
      ensures Valid() && Abs() == INIT && sdb == map[]
    {
      ds := map["/" := NEW_FILE.(fileExists := true, isDirectory := true)];
      sdb := map[];
      nextId := 0;
    }

    method ApplyOpen(a: Action) returns (aborted: bool, reply: Reply)
      requires Valid() && a.Open?
      modifies this, sdb.Values
      ensures aborted == Store.ApplyOpen(old(Abs()), a).Abort?
      ensures !aborted ==> sdb == old(sdb) && Valid()
      ensures !aborted ==> Store.ApplyOpen(old(Abs()), a) == Done(Abs(), reply, {}, {})
    {
      hide Store.OpenFile;
      ghost var st := Abs();
      if a.sid !in sdb {
        return false, OpenReturn(-1, NOT_FOUND, -1);
      }
      var session := sdb[a.sid];
      var ok, inum := OpenFile(a, |session.v|);
      if !ok {
        return true, OpenReturn(-1, "", -1);
      }
      var fh := session.AddNewHandle(a.path, inum);
      OneEntryChanged(st.db, session);
      return false, OpenReturn(0, "OK", fh);
    }

    /** The file side of opening: create or revive the file, list it in its parent, subscribe the session. */
    method OpenFile(a: Action, fh: int) returns (ok: bool, inum: int)
      requires a.Open?
      modifies this`ds
      ensures ok == Store.OpenFile(old(ds), a, fh).Some?
      ensures ok ==> Store.OpenFile(old(ds), a, fh) == Some(ds)
      ensures inum == FileAt(old(ds), a.path).instanceNum
    {
      hide Parent, Filename;
      if a.path !in ds {
        ds := ds[a.path := NEW_FILE];
      }
      var f := ds[a.path];
      inum := f.instanceNum;
      var existed := f.fileExists;
      if !existed {
        f := f.(isDirectory := a.isDirectory);
      }
      f := f.(isEphemeral := a.isEphemeral);
      ds := ds[a.path := f];
      assert ds == old(ds)[a.path := f];
      assert f == FileAt(old(ds), a.path).(isDirectory := f.isDirectory, isEphemeral := a.isEphemeral);
      var parent := Parent(a.path);
      if parent !in ds || !ds[parent].isDirectory {
        return false, inum;
      }
      if a.path != "/" && !existed {
        ds := ds[parent := AddName(ds[parent], Filename(a.path))];
      }
      f := ds[a.path].(fileExists := true);
      ds := ds[a.path := f.(subscribers := f.subscribers[a.sid := fh])];
      ok := true;
    }

    /** Changing one entry changes one row of the session table. */
    lemma OneEntryChanged(was: map<int, Session>, session: Entry)
      requires forall sid | sid in sdb :: sdb[sid].id == sid
      requires session.id in sdb && sdb[session.id] == session && was.Keys == sdb.Keys
      requires forall sid | sid in sdb && sdb[sid] != session :: sdb[sid].AsSession() == was[sid]
      ensures Table() == was[session.id := session.AsSession()]
    {
      var now, then_ := Table(), was[session.id := session.AsSession()];
      assert now.Keys == then_.Keys;
      assert forall sid | sid in now :: now[sid] == then_[sid];
    }

    /** Erase key's name from its parent's content, where the search finds it. */
    method Unlist(key: string) returns (item: Option<Item>)
      requires Parent(key) in ds
      modifies this`ds
      ensures Edit(ds, item) == Store.Unlist(old(ds), key)
    {
      var parent := Parent(key);
      var name := Filename(key);
      var content := ds[parent].content;
      var pos := Listing.Find(content, [Listing.NUL] + name);
      if pos.Some? {
        ds := ds[parent := ds[parent].(content := content[..pos.value] + content[pos.value + |name| + 1..])];
        return Some(Item(parent, name));
      }
      return None;
    }

    method CloseFileDeleteEphemeral(session: Entry, fh: int) returns (item: Option<Item>)
      requires Valid() && session.id in sdb && sdb[session.id] == session
      requires HasHandle(Abs(), session.id, fh)
      modifies this`ds, session
      ensures Valid() && Closed(Abs(), item) == CloseFile(old(Abs()), session.id, fh)
    {
      hide Store.Unsubscribe;
      ghost var st := Abs();
      assert WfSession(st.ds, st.db[session.id]);
      if session.inum[fh] == -1 {
        return None;
      }
      session.CloseHandle(fh);
      OneEntryChanged(st.db, session);
      item := Unsubscribe(session.id, session.v[fh]);
    }

    /** The session's subscription goes; with the last one goes an ephemeral file. */
    method Unsubscribe(sid: int, key: string) returns (item: Option<Item>)
      requires key in ds && Parent(key) in ds
      modifies this`ds
      ensures Edit(ds, item) == Store.Unsubscribe(old(ds), sid, key)
    {
      var f := ds[key];
      if sid !in f.subscribers {
        return None;
      }
      f := f.(subscribers := f.subscribers - {sid});
      if f.subscribers == map[] && f.isEphemeral {
        f := f.(fileExists := false);
        ds := ds[key := f];
        item := Unlist(key);
      } else {
        ds := ds[key := f];
        item := None;
      }
    }

    method ReleaseLock(sid: int, fh: int) returns (rc: int, ghost woken: set<string>)
      requires Valid() && (sid in sdb ==> HasHandle(Abs(), sid, fh))
      modifies this`ds
      ensures Valid() && Release(Abs(), rc, woken) == Store.ReleaseLock(old(Abs()), sid, fh)
    {
      woken := {};
      if sid !in sdb {
        return -1, {};
      }
      assert WfSession(ds, Abs().db[sid]);
      var key := sdb[sid].v[fh];
      var f := ds[key];
      if !f.fileExists {
        return -2, {};
      }
      var released := sid in f.lockOwners;
      ds := ds[key := f.(lockOwners := f.lockOwners - {sid})];
      if ds[key].lockOwners == {} {
        woken := {key};   // cv.notify_all()
      }
      return if released then 0 else -1, woken;
    }

    method ApplyClose(a: Action) returns (aborted: bool, reply: Reply, ghost woken: set<string>)
      requires Valid() && a.Close?
      modifies this, sdb.Values
      ensures aborted == Store.ApplyClose(old(Abs()), a).Abort?
      ensures !aborted ==> sdb == old(sdb) && Valid()
      ensures !aborted ==> Store.ApplyClose(old(Abs()), a) == Done(Abs(), reply, woken, {})
    {
      hide Store.CloseFile, Store.ReleaseLock;
      if a.sid !in sdb {
        return false, CloseReturn(-1, NOT_FOUND, None), {};
      }
      var session := sdb[a.sid];
      if !(0 <= a.fh < |session.v|) {
        return true, CloseReturn(-1, "", None), {};
      }
      var item := CloseFileDeleteEphemeral(session, a.fh);
      var rc;
      rc, woken := ReleaseLock(a.sid, a.fh);
      return false, CloseReturn(0, "OK", if item.Some? then Some(item.value.dir) else None), woken;
    }

    method ApplyStartSession() returns (reply: Reply)
      requires Valid()
      modifies this
      ensures Valid() && fresh(sdb.Values - old(sdb.Values))
      ensures Store.ApplyStartSession(old(Abs())) == Done(Abs(), reply, {}, {})
    {
      ghost var st := Abs();
      var session := new Entry(nextId);
      nextId := nextId + 1;
      sdb := sdb[session.id := session];
      assert Abs().db == st.db[st.nextId := Session([], [])];
      return StartSessionReturn(0, "OK", session.id);
    }

    method ApplyEndSession(a: Action) returns (reply: Reply, ghost woken: set<string>)
      requires Valid() && a.EndSession?
      modifies this, sdb.Values
      ensures Valid() && sdb.Values <= old(sdb.Values)
      ensures Store.ApplyEndSession(old(Abs()), a) == Done(Abs(), reply, woken, {})
    {
      hide Store.EndUpTo;
      if a.sid !in sdb {
        return Response(-1, NOT_FOUND), {};
      }
      var session := sdb[a.sid];
      var items;
      items, woken := EndHandles(session);
      ghost var table := Table();
      sdb := sdb - {a.sid};
      assert Table() == table - {a.sid};
      return EndSessionReturn(0, "OK", Dirs(items)), woken;
    }

    /** One turn of EndSession's loop. */
    method EndOne(session: Entry, fh: nat, items: seq<Item>, ghost was: set<string>)
      returns (items': seq<Item>, ghost woken: set<string>)
      requires Valid() && session.id in sdb && sdb[session.id] == session && fh < |session.v|
      modifies this`ds, session
      ensures Valid() && session.v == old(session.v)
      ensures Ended(Abs(), items', woken) == Store.EndOne(Ended(old(Abs()), items, was), session.id, fh)
    {
      hide Store.CloseFile, Store.ReleaseLock;
      var item := CloseFileDeleteEphemeral(session, fh);
      var rc;
      rc, woken := ReleaseLock(session.id, fh);
      woken := was + woken;
      items' := if item.Some? then items + [item.value] else items;
    }

    method EndHandles(session: Entry) returns (items: seq<Item>, ghost woken: set<string>)
      requires Valid() && session.id in sdb && sdb[session.id] == session
      modifies this`ds, session
      ensures Valid() && session.v == old(session.v)
      ensures Ended(Abs(), items, woken) == EndUpTo(old(Abs()), session.id, |session.v|)
    {
      hide Store.EndOne;
      items, woken := [], {};
      for i := 0 to |session.v|
        invariant session.v == old(session.v)
        invariant Ended(Abs(), items, woken) == EndUpTo(old(Abs()), session.id, i)
      {
        items, woken := EndOne(session, i, items, woken);
      }
    }

    method ApplySetContent(a: Action) returns (aborted: bool, reply: Reply)
      requires Valid() && a.SetContent?
      modifies this`ds
      ensures aborted == Store.ApplySetContent(old(Abs()), a).Abort?
      ensures !aborted ==> Valid() && Store.ApplySetContent(old(Abs()), a) == Done(Abs(), reply, {}, {})
    {
      if a.sid !in sdb {
        return false, Response(-1, NOT_FOUND);
      }
      var session := sdb[a.sid];
      if !(0 <= a.fh < |session.v|) {
        return true, Response(-1, "");
      }
      assert WfSession(ds, Abs().db[a.sid]);
      var key := session.v[a.fh];
      if session.inum[a.fh] != ds[key].instanceNum {
        return false, Response(-1, "Instance num mismatch");
      }
      if !ds[key].fileExists {
        return false, Response(-1, "File does not exist");
      }
      ds := ds[key := ds[key].(content := a.content)];
      return false, Response(0, "OK");
    }

    method ApplyAcq(a: Action) returns (aborted: bool, reply: Reply)
      requires Valid() && a.Acq?
      modifies this`ds
      ensures aborted == Store.ApplyAcq(old(Abs()), a).Abort?
      ensures !aborted ==> Valid() && Store.ApplyAcq(old(Abs()), a) == Done(Abs(), reply, {}, {})
    {
      if a.sid !in sdb {
        return false, Response(-1, NOT_FOUND);
      }
      var session := sdb[a.sid];
      if !(0 <= a.fh < |session.v|) {
        return true, Response(-1, "");
      }
      assert WfSession(ds, Abs().db[a.sid]) && session.id == a.sid;
      var key := session.v[a.fh];
      var f := ds[key];
      if a.ex {
        if f.lockOwners != {} {
          return false, Response(1, "fail to acquire");
        }
        f := f.(lockOwners := f.lockOwners + {session.id}, isLockedEx := true, lockGenNum := f.lockGenNum + 1);
      } else {
        if f.lockOwners != {} && f.isLockedEx {
          return false, Response(1, "fail to acquire");
        }
        if f.lockOwners == {} {
          f := f.(isLockedEx := false, lockGenNum := f.lockGenNum + 1);
        }
        f := f.(lockOwners := f.lockOwners + {session.id});
      }
      ds := ds[key := f];
      return false, Response(0, "");
    }

    method ApplyRel(a: Action) returns (aborted: bool, reply: Reply, ghost woken: set<string>)
      requires Valid() && a.Rel?
      modifies this`ds
      ensures aborted == Store.ApplyRel(old(Abs()), a).Abort?
      ensures !aborted ==> Valid() && Store.ApplyRel(old(Abs()), a) == Done(Abs(), reply, woken, {})
    {
      hide Store.ReleaseLock;
      if a.sid in sdb && !(0 <= a.fh < |sdb[a.sid].v|) {
        return true, Response(-1, ""), {};
      }
      var rc;
      rc, woken := ReleaseLock(a.sid, a.fh);
      if rc == -2 {
        reply := Response(-2, "file not found");
      } else if rc == -1 {
        reply := Response(-1, "the session does not hold this lock");
      } else {
        reply := Response(0, "");
      }
      aborted := false;
    }

    method ApplyDelete(a: Action)
      returns (aborted: bool, reply: Reply, ghost woken: set<string>, alerted: set<int>)
      requires Valid() && a.Delete?
      modifies this`ds
      ensures aborted == Store.ApplyDelete(old(Abs()), a).Abort?
      ensures !aborted ==> Valid() && Store.ApplyDelete(old(Abs()), a) == Done(Abs(), reply, woken, alerted)
    {
      hide Store.DeleteFile;
      ghost var st := Abs();
      if a.sid !in sdb {
        return false, Response(-1, NOT_FOUND), {}, {};
      }
      var session := sdb[a.sid];
      if !(0 <= a.fh < |session.v|) {
        return true, Response(-1, ""), {}, {};
      }
      assert WfSession(ds, Abs().db[a.sid]);
      var key := session.v[a.fh];
      if ds[key].isDirectory && ds[key].content != "" {
        return true, Response(-1, ""), {}, {};
      }
      alerted := AlertOwners(ds[key].lockOwners);
      DeleteFile(key);
      return false, Response(0, ""), {key}, alerted;
    }

    /** The file side of deleting: clear the file, wake its waiters, take it off its parent's listing. */
    method DeleteFile(key: string)
      requires key in ds && Parent(key) in ds
      modifies this`ds
      ensures ds == Store.DeleteFile(old(ds), key)
    {
      var f := ds[key].(content := "");
      f := f.(fileExists := false, instanceNum := f.instanceNum + 1, contentGenNum := 0, lockGenNum := 0);
      f := f.(lockOwners := {});
      assert f == Deleted(ds[key]);
      ds := ds[key := f];
      var item := Unlist(key);
    }

    /** The owners whose session is still there: each is sent an event. */
    method AlertOwners(lockOwners: set<int>) returns (alerted: set<int>)
      ensures alerted == lockOwners * sdb.Keys
    {
      alerted := {};
      var todo := lockOwners;
      while todo != {}
        invariant todo <= lockOwners
        invariant alerted == (lockOwners - todo) * sdb.Keys
        decreases todo
      {
        Inhabited(todo);
        var o :| o in todo;
        if o in sdb {
          alerted := alerted + {o};
        }
        todo := todo - {o};
      }
    }
  }
}
