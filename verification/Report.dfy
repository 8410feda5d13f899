/** EndSession's reply lists exactly the directories whose content its loop changed. */
module Report {
  import opened Prelude
  import Listing
  import opened Paths
  import opened Store

  /** The characters these erasures took from directory d: a name and its separator each. */
  function Dropped(items: seq<Item>, d: string): nat {
    if items == [] then 0
    else
      var last := items[|items| - 1];
      Dropped(items[..|items| - 1], d) + if last.dir == d then |last.name| + 1 else 0
  }

  /** f's content went to g's by the erasure, if it was in this directory. */
  predicate ContentStep(d: string, f: File, g: File, item: Option<Item>) {
    if item.Some? && item.value.dir == d
    then Listing.EraseName(f.content, item.value.name) == Some(g.content)
    else g.content == f.content
  }

  lemma UnlistContent(ds: map<string, File>, key: string, d: string)
    requires Parent(key) in ds && d in ds
    ensures var e := Unlist(ds, key); ContentStep(d, ds[d], e.ds[d], e.item)
  {
    hide Listing.EraseName;
  }

  lemma UnsubscribeContent(ds: map<string, File>, sid: int, key: string, d: string)
    requires key in ds && Parent(key) in ds && d in ds
    ensures var e := Unsubscribe(ds, sid, key);
            ContentStep(d, ds[d], e.ds[d], e.item)
  {
    hide Unlist, Listing.EraseName;
    var f := ds[key];
    UnlistContent(ds[key := f.(subscribers := f.subscribers - {sid}, fileExists := false)], key, d);
  }

  lemma EndOneContent(done: Ended, sid: int, fh: nat, d: string)
    requires Wf(done.st) && sid in done.st.db && fh < |done.st.db[sid].paths| && d in done.st.ds
    ensures var c := CloseFile(done.st, sid, fh);
            && ContentStep(d, done.st.ds[d], EndOne(done, sid, fh).st.ds[d], c.item)
            && EndOne(done, sid, fh).items == if c.item.Some? then done.items + [c.item.value] else done.items
  {
    hide Unsubscribe, Listing.EraseName;
    assert WfSession(done.st.ds, done.st.db[sid]);
    UnsubscribeContent(done.st.ds, sid, done.st.db[sid].paths[fh], d);
    ReleaseContent(CloseFile(done.st, sid, fh).st, sid, fh, d);
  }

  lemma ReleaseContent(s: State, sid: int, fh: int, d: string)
    requires Wf(s) && HasHandle(s, sid, fh) && d in s.ds
    ensures ReleaseLock(s, sid, fh).st.ds[d].content == s.ds[d].content
  {
    assert WfSession(s.ds, s.db[sid]);
  }

  /** The content and the erasures add up to the original length; unreported content is unchanged. */
  predicate Accounted(d: string, f: File, g: File, items: seq<Item>) {
    && |g.content| + Dropped(items, d) == |f.content|
    && (d !in Dirs(items) ==> g.content == f.content)
    && (d in Dirs(items) ==> Dropped(items, d) > 0)
  }

  lemma NothingErased(d: string, f: File)
    ensures Accounted(d, f, f, [])
  {
  }

  lemma AccountStep(d: string, f: File, g: File, h: File, items: seq<Item>, item: Option<Item>)
    requires Accounted(d, f, g, items) && ContentStep(d, g, h, item)
    ensures Accounted(d, f, h, if item.Some? then items + [item.value] else items)
  {
    hide Dirs, Listing.EraseName;
    if item.Some? {
      AppendItem(items, item.value, d);
      Listing.EraseLength(g.content, item.value.name);
    }
  }

  lemma {:induction false} EndContent(s: State, sid: int, n: nat, d: string)
    requires Wf(s) && sid in s.db && n <= |s.db[sid].paths| && d in s.ds
    ensures Accounted(d, s.ds[d], EndUpTo(s, sid, n).st.ds[d], EndUpTo(s, sid, n).items)
  {
    hide EndOne, CloseFile, Accounted, ContentStep;
    if n == 0 {
      NothingErased(d, s.ds[d]);
    } else {
      EndContent(s, sid, n - 1, d);
      var r := EndUpTo(s, sid, n - 1);
      EndOneContent(r, sid, n - 1, d);
      AccountStep(d, s.ds[d], r.st.ds[d], EndUpTo(s, sid, n).st.ds[d], r.items, CloseFile(r.st, sid, n - 1).item);
    }
  }

  lemma AppendItem(items: seq<Item>, item: Item, d: string)
    ensures var more := items + [item];
            && Dropped(more, d) == Dropped(items, d) + (if item.dir == d then |item.name| + 1 else 0)
            && (d in Dirs(more) <==> d in Dirs(items) || item.dir == d)
  {
    var more := items + [item];
    assert more[..|more| - 1] == items && more[|more| - 1] == item;
    assert Dirs(more) == Dirs(items) + [item.dir];
  }

  /**
   A live session's EndSession answers with one directory per erased listing entry: a
   directory's content changes exactly if it is named there, and shrinks by the erased
   names and their separators.
   */
  lemma EndSessionReports(s: State, sid: int, d: string)
    requires Wf(s) && sid in s.db && d in s.ds
    ensures var items := EndUpTo(s, sid, |s.db[sid].paths|).items;
            var o := Apply(s, EndSession(sid));
            && o.Done? && d in o.st.ds
            && o.reply == EndSessionReturn(0, "OK", Dirs(items))
            && |o.st.ds[d].content| + Dropped(items, d) == |s.ds[d].content|
            && (o.st.ds[d].content != s.ds[d].content <==> d in o.reply.parents)
  {
    hide EndUpTo;
    EndContent(s, sid, |s.db[sid].paths|, d);
  }
}
