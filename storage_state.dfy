/** The older write-ahead-log actor state of `actorlib/storage.py`: an
    in-memory image of the log items `begin`, `send`, `ack`, `retry` and
    `done`, which can be dumped back to log items and compacted by dropping
    the oldest `done` items. Unlike `actorlib/state.py` it checks almost
    nothing: a missing key raises `KeyError`. The statuses, the children and
    their registration are those of `StateV1`. */
module StorageState {
  import opened Wrappers
  import opened OrderedDict
  import V1 = StateV1

  type MessageId = string
  type Status = V1.Status
  type SendMessage = V1.SendMessage
  type SendState = V1.SendState

  /** One value of `_state`: `status`, `src_node` (absent in an entry that
      `apply_done` created) and `send_messages` (absent unless sent and not
      done yet). */
  datatype Entry = Entry(status: Status, srcNode: Option<string>, sends: Option<seq<(MessageId, SendState)>>)

  /** `_state`, `_send_messages` (child id to parent id and child) and
      `_done_message_ids`. */
  datatype W = W(
    state: seq<(MessageId, Entry)>,
    sendMessages: seq<(MessageId, (MessageId, SendMessage))>,
    doneIds: seq<MessageId>)

  const Empty := W([], [], [])

  /** `DuplicateMessageError`, the `KeyError` of a lookup that finds nothing,
      the `AssertionError` of `_dump` on a child neither BEGIN nor done, and
      the `UnboundLocalError` of `compact` on an empty log. */
  datatype WalError = DuplicateMessage | KeyMissing | UnknownAckStatus | UnboundIndex

  /** The state after a call and the exception it raised, if any: a raise
      can come after part of the update. */
  datatype Applied = Applied(w: W, error: Option<WalError>)

  // ---- the operations -------------------------------------------------------------------

  /** `apply_begin`: a duplicate is recorded among the done ids before the
      raise. */
  function BeginSpec(w: W, id: MessageId, srcNode: string): Applied {
    var found := Lookup(w.state, id);
    if found.Some? && found.value.status != V1.Error && found.value.status != V1.ErrorNotry then
      Applied(w.(doneIds := w.doneIds + [id]), Some(DuplicateMessage))
    else Applied(w.(state := Assign(w.state, id, Entry(V1.Begin, Some(srcNode), None))), None)
  }

  /** The children an entry lists, none when it has no `send_messages`. */
  function Children(e: Entry): seq<MessageId> {
    if e.sends.Some? then KeyList(e.sends.value) else []
  }

  /** `apply_done`: the entry, made empty when missing, takes the status and
      loses its children, which leave `_send_messages`. */
  function DoneSpec(w: W, id: MessageId, status: Status): W {
    var e := Lookup(w.state, id).GetOr(Entry(status, None, None));
    W(Assign(w.state, id, e.(status := status, sends := None)),
      RemoveAll(w.sendMessages, Children(e)),
      w.doneIds + [id])
  }

  /** `apply_send`: the children are registered before the parent is read,
      so an unknown parent raises after the registration. */
  function SendSpec(w: W, id: MessageId, msgs: seq<SendMessage>): Applied {
    var registered := w.(sendMessages := V1.Register(w.sendMessages, id, msgs));
    match Lookup(w.state, id)
    case None => Applied(registered, Some(KeyMissing))
    case Some(e) =>
      Applied(registered.(state := Assign(w.state, id, e.(status := V1.Send, sends := Some(V1.FreshSends(msgs))))), None)
  }

  /** A registered child found through its parent. */
  datatype Child = Child(parent: MessageId, entry: Entry, sends: seq<(MessageId, SendState)>, st: SendState)

  /** The lookups `apply_ack` and `apply_retry` share. */
  function ChildOf(w: W, cid: MessageId): Result<Child, WalError> {
    match Lookup(w.sendMessages, cid)
    case None => Err(KeyMissing)
    case Some(reg) =>
      match Lookup(w.state, reg.0)
      case None => Err(KeyMissing)
      case Some(e) =>
        if e.sends.None? then Err(KeyMissing)
        else match Lookup(e.sends.value, cid)
          case None => Err(KeyMissing)
          case Some(st) => Ok(Child(reg.0, e, e.sends.value, st))
  }

  /** The state with one child's state replaced. */
  function SetChild(w: W, cid: MessageId, c: Child, st: SendState): W {
    w.(state := Assign(w.state, c.parent, c.entry.(sends := Some(Assign(c.sends, cid, st)))))
  }

  /** `apply_ack`: ERROR_NOTRY finishes the parent; OK finishes it when every
      sibling is OK, and otherwise unregisters the child. */
  function AckSpec(w: W, cid: MessageId, status: Status): Applied {
    match ChildOf(w, cid)
    case Err(x) => Applied(w, Some(x))
    case Ok(c) =>
      var w1 := SetChild(w, cid, c, c.st.(status := status));
      if status == V1.ErrorNotry then Applied(DoneSpec(w1, c.parent, V1.ErrorNotry), None)
      else if status == V1.Success && V1.AllOk(Assign(c.sends, cid, c.st.(status := status))) then
        Applied(DoneSpec(w1, c.parent, V1.Success), None)
      else if status == V1.Success then Applied(w1.(sendMessages := Remove(w1.sendMessages, cid)), None)
      else Applied(w1, None)
  }

  /** `apply_retry`. */
  function RetrySpec(w: W, cid: MessageId): Applied {
    match ChildOf(w, cid)
    case Err(x) => Applied(w, Some(x))
    case Ok(c) => Applied(SetChild(w, cid, c, c.st.(count := c.st.count + 1)), None)
  }

  /** What `pop_done_messages` returns for one id. */
  datatype DoneRecord = DoneRecord(status: Status, srcNode: string)

  /** The dict `pop_done_messages` builds from the first `n` done ids: a
      repeated id keeps its first position; an entry without `src_node`
      raises. */
  function DoneRecords(w: W, n: nat): Result<seq<(MessageId, DoneRecord)>, WalError>
    requires n <= |w.doneIds|
  {
    if n == 0 then Ok([])
    else
      var acc :- DoneRecords(w, n - 1);
      var id := w.doneIds[n - 1];
      match Lookup(w.state, id)
      case None => Err(KeyMissing)
      case Some(e) =>
        if e.srcNode.None? then Err(KeyMissing)
        else Ok(Assign(acc, id, DoneRecord(e.status, e.srcNode.value)))
  }

  /** One write-ahead-log item, as `apply` dispatches it. */
  datatype Item =
    | BeginItem(id: MessageId, srcNode: string)
    | DoneItem(id: MessageId, status: Status)
    | SendItem(id: MessageId, msgs: seq<SendMessage>)
    | AckItem(ackId: MessageId, status: Status)
    | RetryItem(ackId: MessageId)

  function Apply(w: W, item: Item): Applied {
    match item
    case BeginItem(id, node) => BeginSpec(w, id, node)
    case DoneItem(id, status) => Applied(DoneSpec(w, id, status), None)
    case SendItem(id, msgs) => SendSpec(w, id, msgs)
    case AckItem(cid, status) => AckSpec(w, cid, status)
    case RetryItem(cid) => RetrySpec(w, cid)
  }

  /** `load`: the items applied in order, stopping at the first raise. */
  function Load(w: W, items: seq<Item>): Applied
    decreases |items|
  {
    if items == [] then Applied(w, None)
    else
      var a := Apply(w, items[0]);
      if a.error.Some? then a else Load(a.w, items[1..])
  }

  // ---- dump and compact ------------------------------------------------------------------

  /** A dict that `_dump` yields. */
  datatype DumpItem =
    | DDone(id: MessageId, status: Status)
    | DBegin(id: MessageId)
    | DSend(id: MessageId, sendMessages: seq<(MessageId, SendMessage)>)
    | DRetry(id: MessageId, ackId: MessageId)
    | DAck(id: MessageId, ackId: MessageId, status: Status)

  /** `[self._send_messages[k] for k in ids]`. */
  function Registered(w: W, ids: seq<MessageId>): Result<seq<(MessageId, SendMessage)>, WalError>
    decreases |ids|
  {
    if ids == [] then Ok([])
    else
      var rest :- Registered(w, ids[1..]);
      match Lookup(w.sendMessages, ids[0])
      case None => Err(KeyMissing)
      case Some(reg) => Ok([reg] + rest)
  }

  /** `count` retry items. */
  function Retries(id: MessageId, cid: MessageId, count: nat): seq<DumpItem> {
    seq(count, _ => DRetry(id, cid))
  }

  /** The retry and ack items of the children of a SEND message. */
  function AckItems(id: MessageId, sends: seq<(MessageId, SendState)>): Result<seq<DumpItem>, WalError>
    decreases |sends|
  {
    if sends == [] then Ok([])
    else
      var (cid, st) := sends[0];
      var rest :- AckItems(id, sends[1..]);
      if V1.IsDone(st.status) then Ok(Retries(id, cid, st.count) + [DAck(id, cid, st.status)] + rest)
      else if st.status == V1.Begin then Ok(Retries(id, cid, st.count) + rest)
      else Err(UnknownAckStatus)
  }

  /** The items `_dump` yields for one entry. */
  function EntryDump(w: W, id: MessageId, e: Entry): Result<seq<DumpItem>, WalError> {
    if V1.IsDone(e.status) then Ok([DDone(id, e.status)])
    else if e.status == V1.Begin then Ok([DBegin(id)])
    else if e.sends.None? then Err(KeyMissing)
    else
      var regs :- Registered(w, KeyList(e.sends.value));
      var acks :- AckItems(id, e.sends.value);
      Ok([DBegin(id), DSend(id, regs)] + acks)
  }

  function EntriesDump(w: W, es: seq<(MessageId, Entry)>): Result<seq<DumpItem>, WalError>
    decreases |es|
  {
    if es == [] then Ok([])
    else
      var first :- EntryDump(w, es[0].0, es[0].1);
      var rest :- EntriesDump(w, es[1..]);
      Ok(first + rest)
  }

  /** `dump()`: the items of every entry, in the order of `_state`. */
  function Dump(w: W): Result<seq<DumpItem>, WalError> {
    EntriesDump(w, w.state)
  }

  /** The first `k` done items go, everything else stays in order. */
  function DropDone(items: seq<DumpItem>, k: int): seq<DumpItem>
    decreases |items|
  {
    if items == [] || k <= 0 then items
    else if items[0].DDone? then DropDone(items[1..], k - 1)
    else [items[0]] + DropDone(items[1..], k)
  }

  /** One item more of `DropDone`, from position `i`. */
  lemma {:induction false} DropDoneAt(items: seq<DumpItem>, i: nat, k: int)
    requires i < |items| && k > 0
    ensures items[i].DDone? ==> DropDone(items[i..], k) == DropDone(items[i + 1..], k - 1)
    ensures items[i].DDone? && k == 1 ==> DropDone(items[i..], k) == items[i + 1..]
    ensures !items[i].DDone? ==> DropDone(items[i..], k) == [items[i]] + DropDone(items[i + 1..], k)
  {
    assert items[i..][0] == items[i];
    assert items[i..][1..] == items[i + 1..];
  }

  /** `compact(limit)` on the dumped items. */
  function CompactSpec(items: seq<DumpItem>, limit: Option<int>): Result<seq<DumpItem>, WalError> {
    if limit.None? || limit.value >= |items| then Ok(items)
    else if items == [] then Err(UnboundIndex)
    else Ok(DropDone(items, |items| - limit.value))
  }

  // ---- what the operations promise -------------------------------------------------------

  function DoneOf(items: seq<DumpItem>): seq<DumpItem>
    decreases |items|
  {
    if items == [] then [] else (if items[0].DDone? then [items[0]] else []) + DoneOf(items[1..])
  }

  function OthersOf(items: seq<DumpItem>): seq<DumpItem>
    decreases |items|
  {
    if items == [] then [] else (if items[0].DDone? then [] else [items[0]]) + OthersOf(items[1..])
  }

  /** Dropping done items keeps every other item, in order. */
  lemma {:induction false} DropKeepsOthers(items: seq<DumpItem>, k: int)
    ensures OthersOf(DropDone(items, k)) == OthersOf(items)
    decreases |items|
  {
    if items != [] && k > 0 {
      if items[0].DDone? {
        DropKeepsOthers(items[1..], k - 1);
        assert OthersOf(items) == OthersOf(items[1..]);
      } else {
        var r := DropDone(items[1..], k);
        DropKeepsOthers(items[1..], k);
        assert ([items[0]] + r)[1..] == r;
        assert OthersOf([items[0]] + r) == [items[0]] + OthersOf(r);
      }
    }
  }

  /** Dropping done items removes the earliest ones, as many as asked for
      or all of them. */
  lemma {:induction false} DropRemovesEarliest(items: seq<DumpItem>, k: int)
    ensures var drop := if k <= 0 then 0 else if k < |DoneOf(items)| then k else |DoneOf(items)|;
      DoneOf(DropDone(items, k)) == DoneOf(items)[drop..]
    decreases |items|
  {
    if items != [] && k > 0 {
      DropRemovesEarliest(items[1..], k - (if items[0].DDone? then 1 else 0));
      if !items[0].DDone? {
        assert ([items[0]] + DropDone(items[1..], k))[1..] == DropDone(items[1..], k);
      }
    }
  }

  /** Every item is either done or not. */
  lemma {:induction false} SplitCount(items: seq<DumpItem>)
    ensures |items| == |DoneOf(items)| + |OthersOf(items)|
    decreases |items|
  {
    if items != [] {
      SplitCount(items[1..]);
    }
  }

  /** `compact(limit)` returns the dump itself when there is no limit or the
      dump fits; otherwise it removes only `done` items, earliest first,
      keeps the order of the rest, and has `max(limit, #non-done)` items. */
  lemma {:induction false} CompactKeeps(items: seq<DumpItem>, limit: Option<int>)
    requires CompactSpec(items, limit).Ok?
    ensures var r := CompactSpec(items, limit).value;
      (limit.None? || limit.value >= |items| ==> r == items) &&
      OthersOf(r) == OthersOf(items) &&
      (limit.Some? && 0 <= limit.value < |items| ==>
        var k := |items| - limit.value;
        |r| == (if limit.value < |OthersOf(items)| then |OthersOf(items)| else limit.value) &&
        DoneOf(r) == DoneOf(items)[(if k < |DoneOf(items)| then k else |DoneOf(items)|)..])
  {
    if limit.Some? && limit.value < |items| {
      var r := DropDone(items, |items| - limit.value);
      DropKeepsOthers(items, |items| - limit.value);
      DropRemovesEarliest(items, |items| - limit.value);
      SplitCount(items);
      SplitCount(r);
    }
  }

  /** `apply_done` records the status, unregisters every child of the
      message, keeps every other registration and entry, and appends the id
      to the done ids. */
  lemma {:induction false} DoneOutcome(w: W, id: MessageId, status: Status, k: MessageId, cid: MessageId)
    ensures var w1 := DoneSpec(w, id, status);
      Lookup(w1.state, id).Some? && Lookup(w1.state, id).value.status == status &&
      Lookup(w1.state, id).value.sends.None? &&
      (k != id ==> Lookup(w1.state, k) == Lookup(w.state, k)) &&
      w1.doneIds == w.doneIds + [id] &&
      Lookup(w1.sendMessages, cid) ==
        (if Lookup(w.state, id).Some? && cid in Children(Lookup(w.state, id).value) then None
         else Lookup(w.sendMessages, cid))
  {
    var e := Lookup(w.state, id).GetOr(Entry(status, None, None));
    AssignLookup(w.state, id, e.(status := status, sends := None), id);
    AssignLookup(w.state, id, e.(status := status, sends := None), k);
    RemoveAllLookup(w.sendMessages, Children(e), cid);
  }

  /** `apply_retry` raises the child's count by one and changes nothing
      else: not the child's status, not the other children, not the other
      entries, not the registrations, not the done ids. */
  lemma {:induction false} RetryOutcome(w: W, cid: MessageId, k: MessageId, other: MessageId)
    requires ChildOf(w, cid).Ok?
    ensures var c := ChildOf(w, cid).value;
      var a := RetrySpec(w, cid);
      a.error.None? && a.w.sendMessages == w.sendMessages && a.w.doneIds == w.doneIds &&
      (k != c.parent ==> Lookup(a.w.state, k) == Lookup(w.state, k)) &&
      Lookup(a.w.state, c.parent).Some? &&
      Lookup(a.w.state, c.parent).value.status == c.entry.status &&
      Lookup(a.w.state, c.parent).value.srcNode == c.entry.srcNode &&
      Lookup(Lookup(a.w.state, c.parent).value.sends.GetOr([]), cid) == Some(V1.SendState(c.st.status, c.st.count + 1)) &&
      (other != cid ==> Lookup(Lookup(a.w.state, c.parent).value.sends.GetOr([]), other) == Lookup(c.sends, other))
  {
    var c := ChildOf(w, cid).value;
    var st := c.st.(count := c.st.count + 1);
    var e1 := c.entry.(sends := Some(Assign(c.sends, cid, st)));
    AssignLookup(w.state, c.parent, e1, k);
    AssignLookup(w.state, c.parent, e1, c.parent);
    AssignLookup(c.sends, cid, st, cid);
    AssignLookup(c.sends, cid, st, other);
  }

  /** Every sibling other than `cid` is acked OK. */
  predicate OthersOk(sends: seq<(MessageId, SendState)>, cid: MessageId) {
    forall i :: 0 <= i < |sends| && sends[i].0 != cid ==> sends[i].1.status == V1.Success
  }

  /** An ERROR_NOTRY ack, or an OK ack when every sibling is OK already,
      finishes the parent with that status and unregisters all of its
      children; an OK ack while a sibling is not OK unregisters only the
      acked child and leaves the parent in SEND. */
  lemma {:induction false} AckOutcome(w: W, cid: MessageId, status: Status, sid: MessageId)
    requires ChildOf(w, cid).Ok? && DistinctKeys(ChildOf(w, cid).value.sends)
    requires status == V1.Success || status == V1.ErrorNotry
    ensures var c := ChildOf(w, cid).value;
      var a := AckSpec(w, cid, status);
      var finished := status == V1.ErrorNotry || OthersOk(c.sends, cid);
      a.error.None? &&
      (finished ==>
        Lookup(a.w.state, c.parent).Some? && Lookup(a.w.state, c.parent).value.status == status &&
        a.w.doneIds == w.doneIds + [c.parent] &&
        (Lookup(c.sends, sid).Some? ==> Lookup(a.w.sendMessages, sid).None?)) &&
      (!finished ==>
        Lookup(a.w.state, c.parent).Some? && Lookup(a.w.state, c.parent).value.status == c.entry.status &&
        a.w.doneIds == w.doneIds &&
        Lookup(a.w.sendMessages, sid) == (if sid == cid then None else Lookup(w.sendMessages, sid)))
  {
    var c := ChildOf(w, cid).value;
    var st := c.st.(status := status);
    var sends1 := Assign(c.sends, cid, st);
    var w1 := SetChild(w, cid, c, st);
    AssignLookup(w.state, c.parent, c.entry.(sends := Some(sends1)), c.parent);
    if status == V1.Success {
      AllOkIff(c.sends, cid, st);
    }
    if status == V1.ErrorNotry || OthersOk(c.sends, cid) {
      DoneOutcome(w1, c.parent, status, c.parent, sid);
      if Lookup(c.sends, sid).Some? {
        AssignLookup(c.sends, cid, st, sid);
        LookupKeyList(sends1, sid);
      }
    } else {
      RemoveLookup(w1.sendMessages, cid, sid);
    }
  }

  lemma {:induction false} AllOkCons(x: (MessageId, SendState), a: seq<(MessageId, SendState)>)
    ensures V1.AllOk([x] + a) <==> x.1.status == V1.Success && V1.AllOk(a)
  {
    var b := [x] + a;
    assert b[0] == x;
    assert forall i :: 0 <= i < |a| ==> b[i + 1] == a[i];
    if x.1.status == V1.Success && V1.AllOk(a) {
      forall i | 0 <= i < |b| ensures b[i].1.status == V1.Success {
        if i > 0 {
          assert b[i] == a[i - 1];
        }
      }
    }
  }

  lemma {:induction false} OthersOkCons(x: (MessageId, SendState), t: seq<(MessageId, SendState)>, cid: MessageId)
    ensures OthersOk([x] + t, cid) <==> (x.0 != cid ==> x.1.status == V1.Success) && OthersOk(t, cid)
  {
    var b := [x] + t;
    assert b[0] == x;
    assert forall i :: 0 <= i < |t| ==> b[i + 1] == t[i];
    if (x.0 != cid ==> x.1.status == V1.Success) && OthersOk(t, cid) {
      forall i | 0 <= i < |b| && b[i].0 != cid ensures b[i].1.status == V1.Success {
        if i > 0 {
          assert b[i] == t[i - 1];
        }
      }
    }
  }

  /** After an OK assignment to `cid`, every child is OK exactly when every
      other child was. */
  lemma {:induction false} AllOkIff(sends: seq<(MessageId, SendState)>, cid: MessageId, st: SendState)
    requires DistinctKeys(sends) && st.status == V1.Success
    ensures V1.AllOk(Assign(sends, cid, st)) <==> OthersOk(sends, cid)
    decreases |sends|
  {
    if sends != [] {
      var t := sends[1..];
      assert sends == [sends[0]] + t;
      OthersOkCons(sends[0], t, cid);
      DistinctKeysCons(sends);
      if sends[0].0 == cid {
        assert Assign(sends, cid, st) == [(cid, st)] + t;
        AllOkCons((cid, st), t);
        LookupNone(t, cid);
        assert OthersOk(t, cid) <==> V1.AllOk(t);
      } else {
        AllOkIff(t, cid, st);
        var a := Assign(t, cid, st);
        assert Assign(sends, cid, st) == [sends[0]] + a;
        AllOkCons(sends[0], a);
      }
    }
  }

  /** `pop_done_messages` reports, for exactly the ids marked done since the
      last pop, the status and the source node of the message. */
  lemma {:induction false} DoneRecordsFacts(w: W, n: nat, k: MessageId)
    requires n <= |w.doneIds| && DoneRecords(w, n).Ok?
    ensures var r := DoneRecords(w, n).value;
      DistinctKeys(r) &&
      (Lookup(r, k).Some? <==> k in w.doneIds[..n]) &&
      (Lookup(r, k).Some? ==>
        Lookup(w.state, k).Some? && Lookup(w.state, k).value.srcNode.Some? &&
        Lookup(r, k).value == DoneRecord(Lookup(w.state, k).value.status, Lookup(w.state, k).value.srcNode.value))
  {
    if n > 0 {
      var acc := DoneRecords(w, n - 1).value;
      var id := w.doneIds[n - 1];
      var e := Lookup(w.state, id).value;
      DoneRecordsFacts(w, n - 1, k);
      AssignLookup(acc, id, DoneRecord(e.status, e.srcNode.value), k);
      AssignDistinct(acc, id, DoneRecord(e.status, e.srcNode.value));
      assert w.doneIds[..n] == w.doneIds[..n - 1] + [id];
    }
  }

  /** `load` of two logs one after the other is `load` of the first and
      then, unless it raised, of the second. */
  lemma {:induction false} LoadConcat(w: W, a: seq<Item>, b: seq<Item>)
    ensures Load(w, a + b) == (var x := Load(w, a); if x.error.Some? then x else Load(x.w, b))
    decreases |a|
  {
    if a != [] {
      assert (a + b)[0] == a[0] && (a + b)[1..] == a[1..] + b;
      var x := Apply(w, a[0]);
      if x.error.None? {
        LoadConcat(x.w, a[1..], b);
      }
    } else {
      assert a + b == b;
    }
  }

  /** `_dump` cannot dump a message one of whose children was acked OK
      while a sibling was still pending: that ack unregistered the child,
      and `_dump` looks every child up in `_send_messages`. */
  lemma {:induction false} PartialAckBreaksDump(p: MessageId, a: MessageId, b: MessageId, node: string)
    requires p != a && p != b && a != b
    ensures var items := [BeginItem(p, node), SendItem(p, [V1.SendMessage(a, ""), V1.SendMessage(b, "")]), AckItem(a, V1.Success)];
      var l := Load(Empty, items);
      l.error.None? && Dump(l.w) == Err(KeyMissing)
  {
    var msgs := [V1.SendMessage(a, ""), V1.SendMessage(b, "")];
    var w1 := BeginSpec(Empty, p, node).w;
    assert w1.state == [(p, Entry(V1.Begin, Some(node), None))];
    assert msgs[..|msgs| - 1] == [msgs[0]] && [msgs[0]][..0] == [];
    assert V1.Register([], p, [msgs[0]][..0]) == [];
    assert V1.FreshSends([msgs[0]][..0]) == [];
    var reg1 := V1.Register([], p, [msgs[0]]);
    assert reg1 == [(a, (p, msgs[0]))];
    var reg := V1.Register([], p, msgs);
    assert reg == Assign(reg1, b, (p, msgs[1]));
    assert reg == [(a, (p, msgs[0])), (b, (p, msgs[1]))];
    var initial1 := V1.FreshSends([msgs[0]]);
    assert initial1 == [(a, V1.SendState(V1.Begin, 0))];
    var initial := V1.FreshSends(msgs);
    assert initial == Assign(initial1, b, V1.SendState(V1.Begin, 0));
    assert initial == [(a, V1.SendState(V1.Begin, 0)), (b, V1.SendState(V1.Begin, 0))];
    var w2 := SendSpec(w1, p, msgs).w;
    var e2 := Entry(V1.Send, Some(node), Some(initial));
    assert SendSpec(w1, p, msgs) == Applied(W([(p, e2)], reg, []), None);
    assert ChildOf(w2, a) == Ok(Child(p, e2, initial, V1.SendState(V1.Begin, 0)));
    var sends3 := [(a, V1.SendState(V1.Success, 0)), (b, V1.SendState(V1.Begin, 0))];
    assert Assign(initial, a, V1.SendState(V1.Success, 0)) == sends3;
    assert !V1.AllOk(sends3) by {
      assert sends3[1].1.status != V1.Success;
    }
    var w3 := W([(p, e2.(sends := Some(sends3)))], Remove(reg, a), []);
    assert Remove(reg, a) == [(b, (p, msgs[1]))];
    assert AckSpec(w2, a, V1.Success) == Applied(w3, None);
    var items := [BeginItem(p, node), SendItem(p, msgs), AckItem(a, V1.Success)];
    assert Load(Empty, items) == Applied(w3, None) by {
      assert Apply(Empty, items[0]) == Applied(w1, None);
      assert Apply(w1, items[1]) == Applied(w2, None);
      assert Apply(w2, items[2]) == Applied(w3, None);
      assert items[1..] == [SendItem(p, msgs), AckItem(a, V1.Success)];
      assert items[1..][1..] == [AckItem(a, V1.Success)];
      assert items[1..][1..][1..] == [];
      assert Load(w3, []) == Applied(w3, None);
      assert Load(w2, items[1..][1..]) == Applied(w3, None);
      assert Load(w1, items[1..]) == Applied(w3, None);
    }
    assert KeyList(sends3) == [a, b];
    assert Lookup(w3.sendMessages, a).None?;
    assert Registered(w3, [a, b]) == Err(KeyMissing) by {
      assert [a, b][1..] == [b];
      assert [b][1..] == [];
      assert Registered(w3, [b][1..]) == Ok([]);
      assert Lookup(w3.sendMessages, b) == Some((p, msgs[1]));
      assert [(p, msgs[1])] + [] == [(p, msgs[1])];
      assert [b][0] == b;
      assert Registered(w3, [b]) == Ok([(p, msgs[1])]);
    }
    assert EntryDump(w3, p, e2.(sends := Some(sends3))) == Err(KeyMissing);
  }

  // ---- an ack that keeps the state dumpable ---------------------------------------------

  /** `apply_ack` without unregistering a child acked OK while a sibling is
      still pending: the child stays in `_send_messages` until `apply_done`
      finishes its parent, as it does for every other status. */
  function AckFixed(w: W, cid: MessageId, status: Status): Applied {
    match ChildOf(w, cid)
    case Err(x) => Applied(w, Some(x))
    case Ok(c) =>
      var w1 := SetChild(w, cid, c, c.st.(status := status));
      if status == V1.ErrorNotry then Applied(DoneSpec(w1, c.parent, V1.ErrorNotry), None)
      else if status == V1.Success && V1.AllOk(Assign(c.sends, cid, c.st.(status := status))) then
        Applied(DoneSpec(w1, c.parent, V1.Success), None)
      else Applied(w1, None)
  }

  /** A child `_dump` can write: registered, and BEGIN or done. */
  predicate ChildOk(reg: seq<(MessageId, (MessageId, SendMessage))>, s: (MessageId, SendState)) {
    Lookup(reg, s.0).Some? && (s.1.status == V1.Begin || V1.IsDone(s.1.status))
  }

  /** An entry `_dump` can write: done, BEGIN, or SEND with its children,
      and every child it lists can be written. */
  predicate EntryOk(reg: seq<(MessageId, (MessageId, SendMessage))>, e: Entry) {
    (V1.IsDone(e.status) || e.status == V1.Begin || (e.status == V1.Send && e.sends.Some?)) &&
    (e.sends.Some? ==> forall k :: 0 <= k < |e.sends.value| ==> ChildOk(reg, e.sends.value[k]))
  }

  /** No child of `a` is a child of `b`. */
  predicate Disjoint(a: Entry, b: Entry) {
    forall t :: t in Children(a) ==> t !in Children(b)
  }

  /** The state `_dump` can dump: every entry can be written, and no child
      belongs to two messages, so finishing one message unregisters no
      child of another. */
  predicate Dumpable(w: W) {
    DistinctKeys(w.state) &&
    (forall i :: 0 <= i < |w.state| ==> EntryOk(w.sendMessages, w.state[i].1)) &&
    (forall i, j :: 0 <= i < |w.state| && 0 <= j < |w.state| && i != j ==> Disjoint(w.state[i].1, w.state[j].1))
  }

  lemma {:induction false} RegisteredOk(w: W, ids: seq<MessageId>)
    requires forall t :: t in ids ==> Lookup(w.sendMessages, t).Some?
    ensures Registered(w, ids).Ok?
    decreases |ids|
  {
    if ids != [] {
      RegisteredOk(w, ids[1..]);
    }
  }

  lemma {:induction false} AckItemsOk(id: MessageId, sends: seq<(MessageId, SendState)>)
    requires forall k :: 0 <= k < |sends| ==> sends[k].1.status == V1.Begin || V1.IsDone(sends[k].1.status)
    ensures AckItems(id, sends).Ok?
    decreases |sends|
  {
    if sends != [] {
      assert forall k :: 0 <= k < |sends[1..]| ==> sends[1..][k] == sends[k + 1];
      AckItemsOk(id, sends[1..]);
    }
  }

  lemma {:induction false} EntriesDumpOk(w: W, es: seq<(MessageId, Entry)>)
    requires forall i :: 0 <= i < |es| ==> EntryOk(w.sendMessages, es[i].1)
    ensures EntriesDump(w, es).Ok?
    decreases |es|
  {
    if es != [] {
      var e := es[0].1;
      assert EntryOk(w.sendMessages, e);
      if e.sends.Some? {
        forall t | t in KeyList(e.sends.value) ensures Lookup(w.sendMessages, t).Some? {
          var k :| 0 <= k < |e.sends.value| && KeyList(e.sends.value)[k] == t;
          assert ChildOk(w.sendMessages, e.sends.value[k]);
        }
        RegisteredOk(w, KeyList(e.sends.value));
        AckItemsOk(es[0].0, e.sends.value);
      }
      assert forall i :: 0 <= i < |es[1..]| ==> es[1..][i] == es[i + 1];
      EntriesDumpOk(w, es[1..]);
    }
  }

  /** `_dump` raises nothing on a dumpable state. */
  lemma {:induction false} DumpableDumps(w: W)
    requires Dumpable(w)
    ensures Dump(w).Ok?
  {
    EntriesDumpOk(w, w.state);
  }

  /** A new state is dumpable. */
  lemma {:induction false} EmptyDumpable()
    ensures Dumpable(Empty)
  {
  }

  /** `apply_begin` keeps the state dumpable. */
  lemma {:induction false} BeginKeeps(w: W, id: MessageId, srcNode: string)
    requires Dumpable(w)
    ensures Dumpable(BeginSpec(w, id, srcNode).w)
  {
    var found := Lookup(w.state, id);
    if !(found.Some? && found.value.status != V1.Error && found.value.status != V1.ErrorNotry) {
      var e1 := Entry(V1.Begin, Some(srcNode), None);
      var ns := Assign(w.state, id, e1);
      var j := AssignIndex(w.state, id, e1);
      AssignDistinct(w.state, id, e1);
      forall i | 0 <= i < |ns| && i != j ensures ns[i] == w.state[i] {
      }
      assert forall i :: 0 <= i < |ns| ==> EntryOk(w.sendMessages, ns[i].1);
      forall i, i' | 0 <= i < |ns| && 0 <= i' < |ns| && i != i' ensures Disjoint(ns[i].1, ns[i'].1) {
        if i != j && i' != j {
          assert Disjoint(w.state[i].1, w.state[i'].1);
        }
      }
    }
  }

  /** `apply_done` with a done status keeps the state dumpable: the children
      it unregisters belong to no other message. */
  lemma {:induction false} DoneKeeps(w: W, id: MessageId, status: Status)
    requires Dumpable(w) && V1.IsDone(status)
    ensures Dumpable(DoneSpec(w, id, status))
  {
    var e := Lookup(w.state, id).GetOr(Entry(status, None, None));
    var e1 := e.(status := status, sends := None);
    var reg := RemoveAll(w.sendMessages, Children(e));
    var ns := Assign(w.state, id, e1);
    var j := AssignIndex(w.state, id, e1);
    AssignDistinct(w.state, id, e1);
    forall i | 0 <= i < |ns| && i != j ensures ns[i] == w.state[i] {
    }
    forall i | 0 <= i < |ns| ensures EntryOk(reg, ns[i].1) {
      if i != j {
        var x := w.state[i].1;
        assert EntryOk(w.sendMessages, x);
        if x.sends.Some? {
          forall k | 0 <= k < |x.sends.value| ensures ChildOk(reg, x.sends.value[k]) {
            var t := x.sends.value[k].0;
            assert t in Children(x) by {
              assert KeyList(x.sends.value)[k] == t;
            }
            if j < |w.state| {
              assert Disjoint(x, w.state[j].1);
            }
            RemoveAllLookup(w.sendMessages, Children(e), t);
            assert ChildOk(w.sendMessages, x.sends.value[k]);
          }
        }
      }
    }
    forall i, i' | 0 <= i < |ns| && 0 <= i' < |ns| && i != i' ensures Disjoint(ns[i].1, ns[i'].1) {
      if i != j && i' != j {
        assert Disjoint(w.state[i].1, w.state[i'].1);
      }
    }
  }

  /** The children of a `send` are new: no other message lists them. */
  predicate FreshChildren(w: W, id: MessageId, msgs: seq<SendMessage>) {
    forall i :: 0 <= i < |w.state| && w.state[i].0 != id ==>
      forall t :: t in V1.MsgIds(msgs) ==> t !in Children(w.state[i].1)
  }

  /** More registrations keep an entry writable. */
  lemma {:induction false} EntryOkGrows(reg: seq<(MessageId, (MessageId, SendMessage))>,
                                        reg': seq<(MessageId, (MessageId, SendMessage))>, e: Entry)
    requires EntryOk(reg, e)
    requires forall t :: Lookup(reg, t).Some? ==> Lookup(reg', t).Some?
    ensures EntryOk(reg', e)
  {
    if e.sends.Some? {
      forall k | 0 <= k < |e.sends.value| ensures ChildOk(reg', e.sends.value[k]) {
        assert ChildOk(reg, e.sends.value[k]);
      }
    }
  }

  /** `apply_send` of new children keeps the state dumpable, whether or not
      the parent is known. */
  lemma {:induction false} SendKeeps(w: W, id: MessageId, msgs: seq<SendMessage>)
    requires Dumpable(w) && FreshChildren(w, id, msgs)
    ensures Dumpable(SendSpec(w, id, msgs).w)
  {
    var reg := V1.Register(w.sendMessages, id, msgs);
    forall t | Lookup(w.sendMessages, t).Some? ensures Lookup(reg, t).Some? {
      V1.RegisterLookup(w.sendMessages, id, msgs, t);
    }
    forall i | 0 <= i < |w.state| ensures EntryOk(reg, w.state[i].1) {
      EntryOkGrows(w.sendMessages, reg, w.state[i].1);
    }
    if Lookup(w.state, id).Some? {
      var initial := V1.FreshSends(msgs);
      var e1 := Lookup(w.state, id).value.(status := V1.Send, sends := Some(initial));
      V1.FreshDistinct(msgs);
      forall k | 0 <= k < |initial| ensures ChildOk(reg, initial[k]) && initial[k].0 in V1.MsgIds(msgs) {
        AssignAt(initial, k, initial[k].1);
        V1.FreshLookup(msgs, initial[k].0);
        V1.RegisterLookup(w.sendMessages, id, msgs, initial[k].0);
      }
      forall t | t in Children(e1) ensures t in V1.MsgIds(msgs) {
        var k :| 0 <= k < |initial| && KeyList(initial)[k] == t;
      }
      var ns := Assign(w.state, id, e1);
      var j := AssignIndex(w.state, id, e1);
      AssignDistinct(w.state, id, e1);
      forall i | 0 <= i < |ns| && i != j ensures ns[i] == w.state[i] && w.state[i].0 != id {
      }
      assert forall i :: 0 <= i < |ns| ==> EntryOk(reg, ns[i].1);
      forall i, i' | 0 <= i < |ns| && 0 <= i' < |ns| && i != i' ensures Disjoint(ns[i].1, ns[i'].1) {
        if i != j && i' != j {
          assert Disjoint(w.state[i].1, w.state[i'].1);
        }
      }
    }
  }

  /** A registered child found through a dumpable parent is BEGIN or done. */
  lemma {:induction false} ChildStatusOk(w: W, cid: MessageId)
    requires Dumpable(w) && ChildOf(w, cid).Ok?
    ensures var s := ChildOf(w, cid).value.st.status; s == V1.Begin || V1.IsDone(s)
  {
    var c := ChildOf(w, cid).value;
    var jp := AssignIndex(w.state, c.parent, c.entry);
    var jc := AssignIndex(c.sends, cid, c.st);
    assert EntryOk(w.sendMessages, w.state[jp].1);
    assert ChildOk(w.sendMessages, c.sends[jc]);
  }

  /** Replacing a child's state by one `_dump` can write keeps the state
      dumpable: the parent lists the same children as before. */
  lemma {:induction false} SetChildKeeps(w: W, cid: MessageId, st: SendState)
    requires Dumpable(w) && ChildOf(w, cid).Ok?
    requires st.status == V1.Begin || V1.IsDone(st.status)
    ensures Dumpable(SetChild(w, cid, ChildOf(w, cid).value, st))
  {
    var c := ChildOf(w, cid).value;
    var sends1 := Assign(c.sends, cid, st);
    var e1 := c.entry.(sends := Some(sends1));
    var jp := AssignIndex(w.state, c.parent, e1);
    var jc := AssignIndex(c.sends, cid, st);
    assert KeyList(sends1) == KeyList(c.sends);
    var ns := Assign(w.state, c.parent, e1);
    AssignDistinct(w.state, c.parent, e1);
    assert forall i :: 0 <= i < |ns| ==> Children(ns[i].1) == Children(w.state[i].1);
    assert EntryOk(w.sendMessages, w.state[jp].1);
    forall k | 0 <= k < |sends1| ensures ChildOk(w.sendMessages, sends1[k]) {
      if k != jc {
        assert ChildOk(w.sendMessages, c.sends[k]);
      }
    }
    assert EntryOk(w.sendMessages, e1);
    forall i, i' | 0 <= i < |ns| && 0 <= i' < |ns| && i != i' ensures Disjoint(ns[i].1, ns[i'].1) {
      assert Disjoint(w.state[i].1, w.state[i'].1);
    }
  }

  /** `apply_retry` keeps the state dumpable. */
  lemma {:induction false} RetryKeeps(w: W, cid: MessageId)
    requires Dumpable(w)
    ensures Dumpable(RetrySpec(w, cid).w)
  {
    if ChildOf(w, cid).Ok? {
      var c := ChildOf(w, cid).value;
      ChildStatusOk(w, cid);
      SetChildKeeps(w, cid, c.st.(count := c.st.count + 1));
    }
  }

  /** The corrected ack with a done status keeps the state dumpable. */
  lemma {:induction false} AckFixedKeeps(w: W, cid: MessageId, status: Status)
    requires Dumpable(w) && V1.IsDone(status)
    ensures Dumpable(AckFixed(w, cid, status).w)
  {
    if ChildOf(w, cid).Ok? {
      var c := ChildOf(w, cid).value;
      var w1 := SetChild(w, cid, c, c.st.(status := status));
      SetChildKeeps(w, cid, c.st.(status := status));
      if status == V1.ErrorNotry {
        DoneKeeps(w1, c.parent, V1.ErrorNotry);
      } else if status == V1.Success && V1.AllOk(Assign(c.sends, cid, c.st.(status := status))) {
        DoneKeeps(w1, c.parent, V1.Success);
      }
    }
  }

  /** `apply` with the corrected ack. */
  function ApplyFixed(w: W, item: Item): Applied {
    if item.AckItem? then AckFixed(w, item.ackId, item.status) else Apply(w, item)
  }

  /** `load` with the corrected ack. */
  function LoadFixed(w: W, items: seq<Item>): Applied
    decreases |items|
  {
    if items == [] then Applied(w, None)
    else
      var a := ApplyFixed(w, items[0]);
      if a.error.Some? then a else LoadFixed(a.w, items[1..])
  }

  /** What the log's writers guarantee of one item: `done` and `ack` carry
      a done status, and a `send` lists new children. */
  predicate ItemOk(w: W, item: Item) {
    match item
    case BeginItem(_, _) => true
    case DoneItem(_, status) => V1.IsDone(status)
    case SendItem(id, msgs) => FreshChildren(w, id, msgs)
    case AckItem(_, status) => V1.IsDone(status)
    case RetryItem(_) => true
  }

  /** Every item of the log is well formed in the state it is applied to. */
  predicate LogOk(w: W, items: seq<Item>)
    decreases |items|
  {
    items != [] ==> ItemOk(w, items[0]) && LogOk(ApplyFixed(w, items[0]).w, items[1..])
  }

  /** Every item keeps the state dumpable. */
  lemma {:induction false} ApplyFixedKeeps(w: W, item: Item)
    requires Dumpable(w) && ItemOk(w, item)
    ensures Dumpable(ApplyFixed(w, item).w)
  {
    match item
    case BeginItem(id, node) => BeginKeeps(w, id, node);
    case DoneItem(id, status) => DoneKeeps(w, id, status);
    case SendItem(id, msgs) => SendKeeps(w, id, msgs);
    case AckItem(cid, status) => AckFixedKeeps(w, cid, status);
    case RetryItem(cid) => RetryKeeps(w, cid);
  }

  /** With the corrected ack, `_dump` raises nothing after any well-formed
      log, however far its load got. */
  lemma {:induction false} LoadFixedDumps(w: W, items: seq<Item>)
    requires Dumpable(w) && LogOk(w, items)
    ensures Dumpable(LoadFixed(w, items).w) && Dump(LoadFixed(w, items).w).Ok?
    decreases |items|
  {
    if items == [] {
      DumpableDumps(w);
    } else {
      ApplyFixedKeeps(w, items[0]);
      var a := ApplyFixed(w, items[0]);
      if a.error.Some? {
        DumpableDumps(a.w);
      } else {
        LoadFixedDumps(a.w, items[1..]);
      }
    }
  }

  /** The log of `PartialAckBreaksDump` loads without a raise under the
      corrected ack, and `_dump` then raises nothing. */
  lemma {:induction false} PartialAckDumpsFixed(p: MessageId, a: MessageId, b: MessageId, node: string)
    requires p != a && p != b && a != b
    ensures var items := [BeginItem(p, node), SendItem(p, [V1.SendMessage(a, ""), V1.SendMessage(b, "")]), AckItem(a, V1.Success)];
      var l := LoadFixed(Empty, items);
      l.error.None? && Dump(l.w).Ok?
  {
    var msgs := [V1.SendMessage(a, ""), V1.SendMessage(b, "")];
    var items := [BeginItem(p, node), SendItem(p, msgs), AckItem(a, V1.Success)];
    var w1 := BeginSpec(Empty, p, node).w;
    assert w1.state == [(p, Entry(V1.Begin, Some(node), None))];
    var a2 := SendSpec(w1, p, msgs);
    var w2 := a2.w;
    assert a2.error.None?;
    V1.FreshLookup(msgs, a);
    assert a in V1.MsgIds(msgs) by {
      assert V1.MsgIds(msgs)[0] == a;
    }
    V1.RegisterLookup([], p, msgs, a);
    AssignLookup(w1.state, p, Entry(V1.Send, Some(node), Some(V1.FreshSends(msgs))), p);
    assert ChildOf(w2, a).Ok?;
    var a3 := AckFixed(w2, a, V1.Success);
    assert a3.error.None?;
    assert ApplyFixed(Empty, items[0]) == Applied(w1, None);
    assert ApplyFixed(w1, items[1]) == a2;
    assert ApplyFixed(w2, items[2]) == a3;
    assert items[1..] == [SendItem(p, msgs), AckItem(a, V1.Success)];
    assert items[1..][1..] == [AckItem(a, V1.Success)];
    assert items[1..][1..][1..] == [];
    assert LoadFixed(Empty, items) == a3 by {
      assert LoadFixed(a3.w, []) == a3;
      assert LoadFixed(w2, items[1..][1..]) == a3;
      assert LoadFixed(w1, items[1..]) == a3;
    }
    assert LogOk(Empty, items) by {
      assert LogOk(w2, items[1..][1..]);
      assert FreshChildren(w1, p, msgs);
      assert LogOk(w1, items[1..]);
    }
    EmptyDumpable();
    LoadFixedDumps(Empty, items);
  }

  /** Once a done id has no record, no longer prefix has one either. */
  lemma {:induction false} DoneRecordsStuck(w: W, j: nat, n: nat)
    requires j <= n <= |w.doneIds| && DoneRecords(w, j) == Err(KeyMissing)
    ensures DoneRecords(w, n) == Err(KeyMissing)
    decreases n - j
  {
    if j < n {
      DoneRecordsStuck(w, j + 1, n);
    }
  }

  // ---- the object -------------------------------------------------------------------------

  /** The in-memory `ActorState` of `actorlib/storage.py`. */
  class ActorState {
    var state: seq<(MessageId, Entry)>
    var sendMessages: seq<(MessageId, (MessageId, SendMessage))>
    var doneIds: seq<MessageId>

    function Current(): W
      reads this
    {
      W(state, sendMessages, doneIds)
    }

    constructor()
      ensures Current() == Empty
    {
      state := [];
      sendMessages := [];
      doneIds := [];
    }

    /** `apply_begin`. */
    method ApplyBegin(id: MessageId, srcNode: string) returns (err: Option<WalError>)
      modifies this
      ensures Applied(Current(), err) == BeginSpec(old(Current()), id, srcNode)
    {
      var found := Lookup(state, id);
      if found.Some? && found.value.status != V1.Error && found.value.status != V1.ErrorNotry {
        doneIds := doneIds + [id];
        return Some(DuplicateMessage);
      }
      state := Assign(state, id, Entry(V1.Begin, Some(srcNode), None));
      return None;
    }

    /** `apply_done`: the children are popped from `_send_messages` one by
        one. */
    method ApplyDone(id: MessageId, status: Status)
      modifies this
      ensures Current() == DoneSpec(old(Current()), id, status)
    {
      var e := Lookup(state, id).GetOr(Entry(status, None, None));
      state := Assign(state, id, e.(status := status, sends := None));
      var children := Children(e);
      for i := 0 to |children|
        invariant RemoveAll(sendMessages, children[i..]) == RemoveAll(old(sendMessages), children)
        invariant state == Assign(old(state), id, e.(status := status, sends := None)) && doneIds == old(doneIds)
      {
        assert children[i..][1..] == children[i + 1..];
        sendMessages := Remove(sendMessages, children[i]);
      }
      assert children[|children|..] == [];
      doneIds := doneIds + [id];
    }

    /** `apply_send`. */
    method ApplySend(id: MessageId, msgs: seq<SendMessage>) returns (err: Option<WalError>)
      modifies this
      ensures Applied(Current(), err) == SendSpec(old(Current()), id, msgs)
    {
      var sends: seq<(MessageId, SendState)> := [];
      for i := 0 to |msgs|
        invariant sendMessages == V1.Register(old(sendMessages), id, msgs[..i])
        invariant sends == V1.FreshSends(msgs[..i])
        invariant state == old(state) && doneIds == old(doneIds)
      {
        assert msgs[..i + 1][..i] == msgs[..i];
        sendMessages := Assign(sendMessages, msgs[i].id, (id, msgs[i]));
        sends := Assign(sends, msgs[i].id, V1.SendState(V1.Begin, 0));
      }
      assert msgs[..|msgs|] == msgs;
      var found := Lookup(state, id);
      if found.None? {
        return Some(KeyMissing);
      }
      state := Assign(state, id, found.value.(status := V1.Send, sends := Some(sends)));
      return None;
    }

    /** `apply_ack`. */
    method ApplyAck(cid: MessageId, status: Status) returns (err: Option<WalError>)
      modifies this
      ensures Applied(Current(), err) == AckSpec(old(Current()), cid, status)
    {
      var r := ChildOf(Current(), cid);
      if r.Err? {
        return Some(r.error);
      }
      var c := r.value;
      var sends := Assign(c.sends, cid, c.st.(status := status));
      state := Assign(state, c.parent, c.entry.(sends := Some(sends)));
      if status == V1.ErrorNotry {
        ApplyDone(c.parent, V1.ErrorNotry);
      } else if status == V1.Success {
        if V1.AllOk(sends) {
          ApplyDone(c.parent, V1.Success);
        } else {
          sendMessages := Remove(sendMessages, cid);
        }
      }
      return None;
    }

    /** `apply_retry`. */
    method ApplyRetry(cid: MessageId) returns (err: Option<WalError>)
      modifies this
      ensures Applied(Current(), err) == RetrySpec(old(Current()), cid)
    {
      var r := ChildOf(Current(), cid);
      if r.Err? {
        return Some(r.error);
      }
      var c := r.value;
      state := Assign(state, c.parent, c.entry.(sends := Some(Assign(c.sends, cid, c.st.(count := c.st.count + 1)))));
      return None;
    }

    /** `pop_done_messages`: the records of the done ids, after which the
        list is empty; a raise leaves the list as it was. */
    method PopDoneMessages() returns (r: Result<seq<(MessageId, DoneRecord)>, WalError>)
      modifies this
      ensures r == DoneRecords(old(Current()), |old(doneIds)|)
      ensures Current() == if r.Ok? then old(Current()).(doneIds := []) else old(Current())
    {
      var acc: seq<(MessageId, DoneRecord)> := [];
      for i := 0 to |doneIds|
        invariant DoneRecords(Current(), i) == Ok(acc)
      {
        var id := doneIds[i];
        var found := Lookup(state, id);
        if found.None? || found.value.srcNode.None? {
          DoneRecordsStuck(Current(), i + 1, |doneIds|);
          return Err(KeyMissing);
        }
        acc := Assign(acc, id, DoneRecord(found.value.status, found.value.srcNode.value));
      }
      r := Ok(acc);
      doneIds := [];
    }

    /** `apply(item)`. */
    method Apply1(item: Item) returns (err: Option<WalError>)
      modifies this
      ensures Applied(Current(), err) == Apply(old(Current()), item)
    {
      match item {
        case BeginItem(id, node) => err := ApplyBegin(id, node);
        case DoneItem(id, status) =>
          ApplyDone(id, status);
          err := None;
        case SendItem(id, msgs) => err := ApplySend(id, msgs);
        case AckItem(cid, status) => err := ApplyAck(cid, status);
        case RetryItem(cid) => err := ApplyRetry(cid);
      }
    }

    /** `load(wal_items)`. */
    method LoadItems(items: seq<Item>) returns (err: Option<WalError>)
      modifies this
      ensures Applied(Current(), err) == Load(old(Current()), items)
    {
      for i := 0 to |items|
        invariant Load(old(Current()), items) == Load(Current(), items[i..])
      {
        assert items[i..][1..] == items[i + 1..];
        err := Apply1(items[i]);
        if err.Some? {
          return;
        }
      }
      assert items[|items|..] == [];
      return None;
    }

    /** `compact(limit)`: the dump, with done items skipped while
        `skip_cnt` lasts and the rest copied after the last one skipped. */
    method Compact(limit: Option<int>) returns (r: Result<seq<DumpItem>, WalError>)
      ensures r == (var d := Dump(Current()); if d.Err? then Err(d.error) else CompactSpec(d.value, limit))
    {
      var d := Dump(Current());
      if d.Err? {
        return Err(d.error);
      }
      var items := d.value;
      if limit.None? || limit.value >= |items| {
        return Ok(items);
      }
      var ret: seq<DumpItem> := [];
      var skip := |items| - limit.value;
      var i := 0;
      while i < |items|
        invariant 0 <= i <= |items| && skip > 0
        invariant ret + DropDone(items[i..], skip) == DropDone(items, |items| - limit.value)
      {
        DropDoneAt(items, i, skip);
        if items[i].DDone? {
          skip := skip - 1;
          if skip <= 0 {
            return Ok(ret + items[i + 1..]);
          }
        } else {
          assert (ret + [items[i]]) + DropDone(items[i + 1..], skip) == ret + ([items[i]] + DropDone(items[i + 1..], skip));
          ret := ret + [items[i]];
        }
        i := i + 1;
      }
      if items == [] {
        return Err(UnboundIndex);
      }
      assert items[i..] == [];
      assert ret == DropDone(items, |items| - limit.value);
      return Ok(ret);
    }
  }
}
