/**
 What is generated for each message of the schema: a serializer into an allocated buffer, a
 constructor from a buffer, and the dispatch on the action tag.
 */
module Messages {
  import opened Prelude
  import opened Codec

  datatype Message = Message(name: string, fields: seq<Kind>)

  /** The messages of protos/raft.proto, in order. */
  const ACTIONS: seq<Message> := [
    Message("OpenAction", [I64, Str, I32, I32]),
    Message("CloseAction", [I64, I32]),
    Message("StartSessionAction", []),
    Message("EndSessionAction", [I64]),
    Message("AcqAction", [I64, I32, I32]),
    Message("RelAction", [I64, I32]),
    Message("SetContentAction", [I64, I32, Str]),
    Message("DeleteAction", [I64, I32])
  ]

  const RESPONSE: seq<Kind> := [I32, Str]

  const REPLIES: seq<Message> := [
    Message("Response", RESPONSE),
    Message("OpenReturn", [I32, Str, I32]),
    Message("StartSessionReturn", [I32, Str, I64]),
    Message("CloseReturn", [I32, Str, I32, Str])
  ]

  predicate IsAction(m: Message) {
    var n := |m.name|;
    n >= 6 && m.name[n - 6..] == "Action"
  }

  /** The tag of an action is its position here. */
  function Actions(file: seq<Message>): seq<Message> {
    if file == [] then []
    else
      var last := file[|file| - 1];
      Actions(file[..|file| - 1]) + if IsAction(last) then [last] else []
  }

  method CollectActions(file: seq<Message>) returns (actions: seq<Message>)
    ensures actions == Actions(file)
  {
    actions := [];
    for i := 0 to |file|
      invariant actions == Actions(file[..i])
    {
      assert file[..i + 1][..i] == file[..i];
      if IsAction(file[i]) {
        actions := actions + [file[i]];
      }
    }
    assert file[..|file|] == file;
  }

  // ----- bytes of a message -----

  /** The tag is written as an unsigned byte and read back as a signed one. */
  function TagByte(k: nat): byte {
    k % 256
  }

  function TagRead(b: byte): int {
    if b < 128 then b else b - 256
  }

  function Header(tag: Option<nat>): seq<byte> {
    if tag.None? then [] else [TagByte(tag.value)]
  }

  function Serialized(f: Format, tag: Option<nat>, fields: seq<Kind>, vs: seq<Value>): seq<byte>
    requires AllFit(f, fields, vs)
  {
    Header(tag) + Encode(f, fields, vs)
  }

  /** The constructor from a buffer, which asserts that the tag is its own. */
  function Constructed(f: Format, tag: Option<nat>, fields: seq<Kind>, b: seq<byte>): Option<seq<Value>> {
    if tag.Some? && (b == [] || TagRead(b[0]) != TagRead(TagByte(tag.value))) then None
    else
      match Decode(f, fields, if tag.Some? then b[1..] else b)
      case None => None
      case Some(r) => Some(r.vs)
  }

  datatype Dispatched = Dispatched(k: nat, vs: seq<Value>)

  /** create_action_from_buf. */
  function Dispatch(f: Format, actions: seq<Message>, b: seq<byte>): Option<Dispatched> {
    if b == [] then None
    else
      var t := TagRead(b[0]);
      if !(0 <= t < |actions|) then None
      else match Constructed(f, Some(t), actions[t].fields, b)
           case None => None
           case Some(vs) => Some(Dispatched(t, vs))
  }

  lemma SerializedParts(f: Format, tag: Option<nat>, fields: seq<Kind>, vs: seq<Value>, tail: seq<byte>)
    requires AllFit(f, fields, vs)
    ensures var b := Serialized(f, tag, fields, vs) + tail;
            if tag.None? then b == Encode(f, fields, vs) + tail
            else b != [] && b[0] == TagByte(tag.value) && b[1..] == Encode(f, fields, vs) + tail
  {
    var e := Encode(f, fields, vs);
    assert Serialized(f, tag, fields, vs) == Header(tag) + e;
    hide AllFit, Encode, Serialized, TagByte;
    if tag.Some? {
      assert [TagByte(tag.value)] + e + tail == [TagByte(tag.value)] + (e + tail);
    } else {
      assert [] + e == e;
    }
  }

  /** Every message is read back from its own bytes, whatever its tag. */
  lemma ConstructorInverts(f: Format, tag: Option<nat>, fields: seq<Kind>, vs: seq<Value>, tail: seq<byte>)
    requires AllFit(f, fields, vs)
    ensures Constructed(f, tag, fields, Serialized(f, tag, fields, vs) + tail) == Some(vs)
  {
    hide AllFit, Encode, Decode, Serialized;
    RoundTrip(f, fields, vs, tail);
    SerializedParts(f, tag, fields, vs, tail);
  }

  lemma DispatchByTag(f: Format, actions: seq<Message>, k: nat, vs: seq<Value>, b: seq<byte>)
    requires k < |actions| && b != [] && b[0] == TagByte(k)
    requires Constructed(f, Some(k), actions[k].fields, b) == Some(vs)
    ensures Dispatch(f, actions, b) == Some(Dispatched(k, vs)) <==> k < 128
  {
    hide Constructed;
  }

  /** The dispatch selects the action that was written if and only if its tag is a signed byte. */
  lemma DispatchSelectsIff(f: Format, actions: seq<Message>, k: nat, vs: seq<Value>, tail: seq<byte>)
    requires k < |actions| && AllFit(f, actions[k].fields, vs)
    ensures Dispatch(f, actions, Serialized(f, Some(k), actions[k].fields, vs) + tail) == Some(Dispatched(k, vs))
            <==> k < 128
  {
    hide AllFit, Encode, Constructed, Serialized, Dispatch, TagByte;
    SerializedParts(f, Some(k), actions[k].fields, vs, tail);
    ConstructorInverts(f, Some(k), actions[k].fields, vs, tail);
    DispatchByTag(f, actions, k, vs, Serialized(f, Some(k), actions[k].fields, vs) + tail);
  }

  /**
   The tag on the wire is the action's number without what exceeds a byte; from 128 on no
   action is selected, and a number over a byte is taken for the one it was cut down to.
   */
  lemma TagOnTheWire(f: Format, actions: seq<Message>, k: nat, vs: seq<Value>, tail: seq<byte>)
    requires k < |actions| && AllFit(f, actions[k].fields, vs)
    ensures var b := Serialized(f, Some(k), actions[k].fields, vs) + tail;
            && b != [] && b[0] == k % 256
            && (128 <= k % 256 ==> Dispatch(f, actions, b) == None)
            && (Dispatch(f, actions, b).Some? ==> Dispatch(f, actions, b).value.k == k % 256)
  {
    SerializedParts(f, Some(k), actions[k].fields, vs, tail);
    SelectedTag(f, actions, Serialized(f, Some(k), actions[k].fields, vs) + tail);
    hide AllFit, Encode, Constructed, Serialized, Dispatch;
  }

  lemma SelectedTag(f: Format, actions: seq<Message>, b: seq<byte>)
    requires b != []
    ensures 128 <= b[0] ==> Dispatch(f, actions, b) == None
    ensures Dispatch(f, actions, b).Some? ==> Dispatch(f, actions, b).value.k == b[0]
  {
    hide Constructed;
  }

  lemma {:induction false} ActionsOfActions(a: seq<Message>)
    requires forall m | m in a :: IsAction(m)
    ensures Actions(a) == a
  {
    hide IsAction;
    if a != [] {
      ActionsOfActions(a[..|a| - 1]);
      assert a == a[..|a| - 1] + [a[|a| - 1]];
    }
  }

  lemma {:induction false} ActionsOfJoined(a: seq<Message>, b: seq<Message>)
    requires forall m | m in a :: IsAction(m)
    requires forall m | m in b :: !IsAction(m)
    ensures Actions(a + b) == a
  {
    if b == [] {
      assert a + b == a;
      ActionsOfActions(a);
    } else {
      hide IsAction;
      var all, most := a + b, b[..|b| - 1];
      ActionsOfJoined(a, most);
      assert all[|all| - 1] == b[|b| - 1] && all[..|all| - 1] == a + most;
      assert a + [] == a;
    }
  }

  lemma EndsInAction(stem: string, m: Message)
    requires m.name == stem + "Action"
    ensures IsAction(m)
  {
    assert m.name[|stem|..] == "Action";
  }

  lemma NamedAction(k: nat)
    requires k < |ACTIONS|
    ensures IsAction(ACTIONS[k])
  {
    hide IsAction;
    var m := ACTIONS[k];
    match k
    case 0 => EndsInAction("Open", m);
    case 1 => EndsInAction("Close", m);
    case 2 => EndsInAction("StartSession", m);
    case 3 => EndsInAction("EndSession", m);
    case 4 => EndsInAction("Acq", m);
    case 5 => EndsInAction("Rel", m);
    case 6 => EndsInAction("SetContent", m);
    case _ => EndsInAction("Delete", m);
  }

  lemma NamedReply(m: Message)
    requires m in REPLIES
    ensures !IsAction(m)
  {
    var n := |m.name|;
    assert m.name[n - 6] != 'A';
    assert m.name[n - 6..][0] != "Action"[0];
  }

  /** Every command of the log is dispatched to its own apply function. */
  lemma LogEntriesDispatch(f: Format, k: nat, vs: seq<Value>)
    requires k < |ACTIONS| && AllFit(f, ACTIONS[k].fields, vs)
    ensures Actions(ACTIONS + REPLIES) == ACTIONS
    ensures Dispatch(f, Actions(ACTIONS + REPLIES), Serialized(f, Some(k), ACTIONS[k].fields, vs))
         == Some(Dispatched(k, vs))
  {
    hide IsAction, Dispatch, Serialized, Fits;
    forall i | 0 <= i < |ACTIONS| ensures IsAction(ACTIONS[i]) { NamedAction(i); }
    forall m | m in REPLIES ensures !IsAction(m) { NamedReply(m); }
    ActionsOfJoined(ACTIONS, REPLIES);
    var b := Serialized(f, Some(k), ACTIONS[k].fields, vs);
    assert b + [] == b;
    DispatchSelectsIff(f, ACTIONS, k, vs, []);
  }

  /** A reply that starts with a Response reads as one: its result code and its message. */
  lemma ReadsAsResponse(f: Format, fields: seq<Kind>, vs: seq<Value>)
    requires RESPONSE <= fields && AllFit(f, fields, vs)
    ensures Constructed(f, None, RESPONSE, Serialized(f, None, fields, vs)) == Some(vs[..2])
  {
    hide Fits, Encode, Decode;
    assert fields == RESPONSE + fields[2..];
    PrefixDecoding(f, RESPONSE, fields[2..], vs);
    assert Serialized(f, None, fields, vs) == Encode(f, fields, vs);
  }

  /** parse_raft_result may read every reply of the schema as a Response. */
  lemma RepliesReadAsResponse(f: Format, m: Message, vs: seq<Value>)
    requires m in REPLIES && AllFit(f, m.fields, vs)
    ensures Constructed(f, None, RESPONSE, Serialized(f, None, m.fields, vs)) == Some(vs[..2])
  {
    hide Fits, Constructed, Serialized;
    ReadsAsResponse(f, m.fields, vs);
  }

  // ----- buffers -----

  /** gen_size: a string's length counts as eight bytes whatever the serializer writes for it. */
  function FieldSize(k: Kind, v: Value): nat {
    match k
    case I32 => 4
    case I64 => 8
    case Str => 8 + if v.Text? then |v.s| else 0
  }

  function Size(fields: seq<Kind>, vs: seq<Value>): nat
    requires |vs| == |fields|
  {
    if fields == [] then 0 else FieldSize(fields[0], vs[0]) + Size(fields[1..], vs[1..])
  }

  function AllocSize(tag: Option<nat>, fields: seq<Kind>, vs: seq<Value>): nat
    requires |vs| == |fields|
  {
    (if tag.Some? then 1 else 0) + Size(fields, vs)
  }

  function Strings(fields: seq<Kind>): nat {
    if fields == [] then 0 else (if fields[0].Str? then 1 else 0) + Strings(fields[1..])
  }

  lemma ValueLength(f: Format, k: Kind, v: Value)
    requires Fits(f, k, v)
    ensures |EncodeValue(f, k, v)| == FieldSize(k, v) + if k.Str? then f.w - 8 else 0
  {
    hide ToBytes, Pow256;
  }

  lemma {:induction false} EncodedLength(f: Format, fields: seq<Kind>, vs: seq<Value>)
    requires AllFit(f, fields, vs)
    ensures |Encode(f, fields, vs)| == Size(fields, vs) + (f.w - 8) * Strings(fields)
  {
    hide Fits, EncodeValue, FieldSize;
    if fields != [] {
      ValueLength(f, fields[0], vs[0]);
      EncodedLength(f, fields[1..], vs[1..]);
      Distribute(f.w - 8, Strings(fields[1..]));
    }
  }

  lemma Distribute(a: int, n: nat)
    ensures a * (1 + n) == a + a * n
    ensures n > 0 ==> (a * n > 0 <==> a > 0)
  {
  }

  /** A message fits the buffer allocated for it exactly when no string length needs more than eight bytes. */
  lemma WritesFitIff(f: Format, tag: Option<nat>, fields: seq<Kind>, vs: seq<Value>)
    requires AllFit(f, fields, vs)
    ensures |Serialized(f, tag, fields, vs)| <= AllocSize(tag, fields, vs) <==> f.w <= 8 || Str !in fields
  {
    EncodedLength(f, fields, vs);
    StringsCount(fields);
    Distribute(f.w - 8, Strings(fields));
    hide Fits, Encode, Size, Strings;
  }

  lemma {:induction false} StringsCount(fields: seq<Kind>)
    ensures Strings(fields) > 0 <==> Str in fields
  {
    if fields != [] {
      StringsCount(fields[1..]);
      assert fields == [fields[0]] + fields[1..];
    }
  }

  /** A buffer with the position of the next byte. */
  class Cursor {
    const buf: array<byte>
    var pos: nat

    constructor (buf: array<byte>)
      ensures this.buf == buf && pos == 0
    {
      this.buf := buf;
      pos := 0;
    }

    method Put(bytes: seq<byte>)
      requires pos + |bytes| <= buf.Length
      modifies this, buf
      ensures pos == old(pos) + |bytes|
      ensures buf[..pos] == old(buf[..pos]) + bytes
    {
      ghost var written := buf[..pos];
      for i := 0 to |bytes|
        invariant pos == old(pos) + i && buf[..pos] == written + bytes[..i]
      {
        buf[pos] := bytes[i];
        pos := pos + 1;
      }
    }

    function Rest(): seq<byte>
      requires pos <= buf.Length
      reads this, buf
    {
      buf[pos..]
    }

    method Take(n: nat) returns (bytes: Option<seq<byte>>)
      requires pos <= buf.Length
      modifies this
      ensures pos <= buf.Length
      ensures |old(Rest())| < n ==> bytes.None?
      ensures n <= |old(Rest())| ==> bytes == Some(old(Rest())[..n]) && Rest() == old(Rest())[n..]
    {
      if buf.Length - pos < n {
        return None;
      }
      assert buf[pos..][..n] == buf[pos..pos + n];
      bytes := Some(buf[pos..pos + n]);
      pos := pos + n;
    }

    /** get_i32 and get_i64. */
    method GetInt(f: Format, k: Kind) returns (v: Option<Value>)
      requires pos <= buf.Length && !k.Str?
      modifies this
      ensures pos <= buf.Length
      ensures match DecodeValue(f, k, old(Rest()))
              case None => v == None
              case Some(r) => v == Some(r.v) && Rest() == r.rest
    {
      hide FromBytes, Pow256, Signed;
      var w := Width(k);
      var word := Take(w);
      v := if word.None? then None else Some(Num(Signed(FromBytes(f, word.value), Pow256(w))));
    }

    method GetStr(f: Format) returns (v: Option<Value>)
      requires pos <= buf.Length
      modifies this
      ensures pos <= buf.Length
      ensures match DecodeValue(f, Str, old(Rest()))
              case None => v == None
              case Some(r) => v == Some(r.v) && Rest() == r.rest
    {
      hide FromBytes;
      ghost var b := Rest();
      var len := Take(f.w);
      if len.None? {
        return None;
      }
      var n := FromBytes(f, len.value);
      var s := Take(n);
      if s.None? {
        return None;
      }
      Slices(b, f.w, n);
      v := Some(Text(s.value));
    }

    method Get(f: Format, k: Kind) returns (v: Option<Value>)
      requires pos <= buf.Length
      modifies this
      ensures pos <= buf.Length
      ensures match DecodeValue(f, k, old(Rest()))
              case None => v == None
              case Some(r) => v == Some(r.v) && Rest() == r.rest
    {
      hide DecodeValue;
      if k.Str? {
        v := GetStr(f);
      } else {
        v := GetInt(f, k);
      }
    }
  }

  lemma Slices(b: seq<byte>, w: nat, n: nat)
    requires w + n <= |b|
    ensures b[w..][..n] == b[w..w + n] && b[w..][n..] == b[w + n..]
  {
  }

  lemma EncodeNext(f: Format, fields: seq<Kind>, vs: seq<Value>, i: nat)
    requires AllFit(f, fields, vs) && i < |fields|
    ensures Fits(f, fields[i], vs[i]) && AllFit(f, fields[..i], vs[..i]) && AllFit(f, fields[..i + 1], vs[..i + 1])
    ensures Encode(f, fields[..i + 1], vs[..i + 1])
         == Encode(f, fields[..i], vs[..i]) + EncodeValue(f, fields[i], vs[i])
    ensures |Encode(f, fields[..i + 1], vs[..i + 1])| <= |Encode(f, fields, vs)|
  {
    hide Fits, EncodeValue;
    EncodeAppend(f, fields[..i], [fields[i]], vs[..i], [vs[i]]);
    assert fields[..i + 1] == fields[..i] + [fields[i]] && vs[..i + 1] == vs[..i] + [vs[i]];
    EncodeAppend(f, fields[..i + 1], fields[i + 1..], vs[..i + 1], vs[i + 1..]);
    assert fields == fields[..i + 1] + fields[i + 1..] && vs == vs[..i + 1] + vs[i + 1..];
    assert Encode(f, [fields[i]], [vs[i]]) == EncodeValue(f, fields[i], vs[i]) + [];
  }

  lemma Regroup(a: seq<byte>, b: seq<byte>, c: seq<byte>)
    ensures a + (b + c) == a + b + c && a + [] == a
  {
  }

  method WriteFields(f: Format, fields: seq<Kind>, vs: seq<Value>, c: Cursor)
    requires AllFit(f, fields, vs) && c.pos + |Encode(f, fields, vs)| <= c.buf.Length
    modifies c, c.buf
    ensures c.pos == old(c.pos) + |Encode(f, fields, vs)|
    ensures c.buf[..c.pos] == old(c.buf[..c.pos]) + Encode(f, fields, vs)
  {
    ghost var before := c.buf[..c.pos];
    ghost var done: seq<byte> := [];
    assert AllFit(f, fields[..0], vs[..0]) && done == Encode(f, fields[..0], vs[..0]);
    Regroup(before, done, done);
    hide AllFit, Fits, EncodeValue, Encode;
    for i := 0 to |fields|
      invariant AllFit(f, fields[..i], vs[..i]) && done == Encode(f, fields[..i], vs[..i])
      invariant c.pos == |before| + |done| <= c.buf.Length && c.buf[..c.pos] == before + done
    {
      EncodeNext(f, fields, vs, i);
      var bytes := EncodeValue(f, fields[i], vs[i]);
      Regroup(before, done, bytes);
      done := Encode(f, fields[..i + 1], vs[..i + 1]);
      c.Put(bytes);
    }
    assert fields[..|fields|] == fields && vs[..|vs|] == vs;
  }

  /** The generated serialize: no write leaves the buffer that was allocated. */
  method Serialize(f: Format, tag: Option<nat>, fields: seq<Kind>, vs: seq<Value>) returns (buf: array<byte>)
    requires f.w <= 8 && AllFit(f, fields, vs)
    ensures fresh(buf) && buf.Length == AllocSize(tag, fields, vs)
    ensures Serialized(f, tag, fields, vs) <= buf[..]
  {
    WritesFitIff(f, tag, fields, vs);
    buf := new byte[AllocSize(tag, fields, vs)];
    var c := new Cursor(buf);
    assert Serialized(f, tag, fields, vs) == Header(tag) + Encode(f, fields, vs);
    hide AllocSize, AllFit, Encode, Header, Serialized;
    c.Put(Header(tag));
    assert buf[..c.pos] == Header(tag);
    WriteFields(f, fields, vs, c);
  }

  /** The values read so far followed by what is still to read. */
  function Resume(got: seq<Value>, more: Option<Fields>): Option<seq<Value>> {
    if more.None? then None else Some(got + more.value.vs)
  }

  lemma ResumeAtStart(all: Option<Fields>)
    ensures Resume([], all) == if all.None? then None else Some(all.value.vs)
  {
    if all.Some? {
      assert [] + all.value.vs == all.value.vs;
    }
  }

  lemma ResumeStep(f: Format, got: seq<Value>, fields: seq<Kind>, b: seq<byte>)
    requires fields != []
    ensures Resume(got, Decode(f, fields, b)) ==
              match DecodeValue(f, fields[0], b)
              case None => None
              case Some(r) => Resume(got + [r.v], Decode(f, fields[1..], r.rest))
  {
    hide DecodeValue;
    var r := DecodeValue(f, fields[0], b);
    if r.Some? && Decode(f, fields[1..], r.value.rest).Some? {
      var more := Decode(f, fields[1..], r.value.rest).value.vs;
      assert got + ([r.value.v] + more) == got + [r.value.v] + more;
    }
  }

  method ReadFields(f: Format, fields: seq<Kind>, c: Cursor) returns (vs: Option<seq<Value>>)
    requires c.pos <= c.buf.Length
    modifies c
    ensures vs == Resume([], Decode(f, fields, old(c.Rest())))
  {
    ghost var goal := Resume([], Decode(f, fields, c.Rest()));
    var got: seq<Value> := [];
    assert fields[0..] == fields;
    hide DecodeValue, Decode;
    for i := 0 to |fields|
      invariant c.pos <= c.buf.Length
      invariant Resume(got, Decode(f, fields[i..], c.Rest())) == goal
    {
      ResumeStep(f, got, fields[i..], c.Rest());
      assert fields[i..][1..] == fields[i + 1..];
      var v := c.Get(f, fields[i]);
      if v.None? {
        return None;
      }
      got := got + [v.value];
    }
    vs := Some(got);
    DecodeNothing(f, got, c.Rest());
  }

  lemma DecodeNothing(f: Format, got: seq<Value>, b: seq<byte>)
    ensures Resume(got, Decode(f, [], b)) == Some(got)
  {
    assert got + [] == got;
  }

  /** The generated constructor from a buffer. */
  method Construct(f: Format, tag: Option<nat>, fields: seq<Kind>, buf: array<byte>) returns (vs: Option<seq<Value>>)
    ensures vs == Constructed(f, tag, fields, buf[..])
  {
    var c := new Cursor(buf);
    if tag.Some? {
      var b := c.Take(1);
      if b.None? || TagRead(b.value[0]) != TagRead(TagByte(tag.value)) {
        return None;
      }
    }
    assert c.Rest() == if tag.Some? then buf[..][1..] else buf[..];
    vs := ReadFields(f, fields, c);
    ResumeAtStart(Decode(f, fields, if tag.Some? then buf[..][1..] else buf[..]));
  }

  /** The generated create_action_from_buf. */
  method CreateAction(f: Format, actions: seq<Message>, buf: array<byte>) returns (a: Option<Dispatched>)
    ensures a == Dispatch(f, actions, buf[..])
  {
    var c := new Cursor(buf);
    var b := c.Take(1);
    if b.None? {
      return None;
    }
    var t := TagRead(b.value[0]);
    if !(0 <= t < |actions|) {
      return None;
    }
    var vs := Construct(f, Some(t), actions[t].fields, buf);
    a := if vs.None? then None else Some(Dispatched(t, vs.value));
  }
}
