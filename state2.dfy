/** The second-generation actor message state of `actorlib/state2.py`: a
    message goes INBOX -> EXECUTE -> (OUTBOX ->) OK / ERROR / ERROR_NOTRY,
    each of its outbox messages goes OUTBOX -> EXPORT -> acked, and a done
    message is completed (acked upstream) once. Every `apply_*` either
    succeeds or raises; a raise is an `Applied` value whose `error` is set
    and whose state is the state at the moment of the raise. */
module StateV2 {
  import opened Wrappers
  import opened OrderedDict

  type MessageId = string

  datatype Status = Inbox | Execute | Outbox | Export | Success | Error | ErrorNotry

  /** OK, ERROR and ERROR_NOTRY: the statuses a message can be done with. */
  predicate IsFinal(s: Status) {
    s == Success || s == Error || s == ErrorNotry
  }

  /** The fields of an `ActorMessage` the state and the queue look at.
      `hasContent` is false once the message was reduced by `meta()`. */
  datatype Message = Message(
    id: MessageId,
    src: string,
    srcNode: string,
    dst: string,
    dstNode: Option<string>,
    priority: int,
    requireAck: bool,
    parentId: Option<MessageId>,
    hasContent: bool)

  /** `message.meta()`: the message without its content. */
  function Meta(msg: Message): Message {
    msg.(hasContent := false)
  }

  /** `{status, executed_count, retry_at}` of one outbox message; a key the
      dict lacks reads as `None`. */
  datatype OutboxState = OutboxState(status: Status, executedCount: Option<int>, retryAt: Option<int>)

  /** `{status, is_acked, outbox_states}` of one message. */
  datatype MsgState = MsgState(status: Status, isAcked: bool, outbox: Option<seq<(MessageId, OutboxState)>>)

  /** `done_message_ids`: dst -> src_node -> ids. */
  type DoneIds = map<string, map<string, set<MessageId>>>

  /** The four attributes of the Python object. A Python set is a sequence
      without repeats here, so that `dump` can list it. */
  datatype S2 = S2(
    state: seq<(MessageId, MsgState)>,
    objects: map<MessageId, Message>,
    doneIds: DoneIds,
    upstream: seq<(string, seq<string>)>)

  const Fresh := S2([], map[], map[], [])

  /** The exceptions `apply_*` raise: the three subclasses of
      `ActorStateError`, its plain uses, and the `KeyError` of a dictionary
      read that finds nothing. */
  datatype StateError =
    | DuplicateMessage
    | MessageNotExists
    | InvalidStatus
    | EmptyOutbox
    | InvalidParent
    | WrongStatus
    | AlreadyAcked
    | OutboxNotExists
    | KeyMissing

  /** The state after a call and the exception it raised, if any. */
  datatype Applied = Applied(s: S2, error: Option<StateError>)

  function Succeeded(m: S2): Applied {
    Applied(m, None)
  }

  function Failed(m: S2, e: StateError): Applied {
    Applied(m, Some(e))
  }

  /** The status of a message, `None` when the state does not know it. */
  function StatusOf(m: S2, id: MessageId): Option<Status> {
    match Lookup(m.state, id)
    case None => None
    case Some(e) => Some(e.status)
  }

  // ---- sets and nested defaultdicts --------------------------------------------------------

  function Members(xs: seq<string>): set<string> {
    set x | x in xs
  }

  /** `s.add(x)`. */
  function AddMember(xs: seq<string>, x: string): (r: seq<string>)
    ensures Members(r) == Members(xs) + {x}
  {
    if x in xs then xs else xs + [x]
  }

  /** `s.discard(x)`. */
  function DiscardMember(xs: seq<string>, x: string): (r: seq<string>)
    ensures Members(r) == Members(xs) - {x}
    decreases |xs|
  {
    if xs == [] then []
    else
      var rest := DiscardMember(xs[1..], x);
      assert Members(xs) == {xs[0]} + Members(xs[1..]);
      if xs[0] == x then rest
      else
        assert Members([xs[0]] + rest) == {xs[0]} + Members(rest);
        [xs[0]] + rest
  }

  /** `upstream[dst]`, empty for a dst not seen yet. */
  function UpstreamOf(m: S2, dst: string): seq<string> {
    Lookup(m.upstream, dst).GetOr([])
  }

  /** `done_message_ids[dst][src_node]`. */
  function DoneAt(d: DoneIds, dst: string, node: string): set<MessageId> {
    if dst in d && node in d[dst] then d[dst][node] else {}
  }

  /** `done_message_ids[dst][src_node] = s`; the inner dict is created on
      first access. */
  function WithDone(d: DoneIds, dst: string, node: string, s: set<MessageId>): (r: DoneIds)
    ensures DoneAt(r, dst, node) == s
    ensures forall dst', node' :: (dst', node') != (dst, node) ==> DoneAt(r, dst', node') == DoneAt(d, dst', node')
  {
    d[dst := (if dst in d then d[dst] else map[])[node := s]]
  }

  /** The ids an outbox-states dict has. */
  function KeySet<V>(m: seq<(MessageId, V)>): set<MessageId> {
    set i | 0 <= i < |m| :: m[i].0
  }

  // ---- the operations -------------------------------------------------------------------------

  /** `apply_notify`. */
  function NotifySpec(m: S2, dst: string, node: string, available: bool): S2 {
    var cur := UpstreamOf(m, dst);
    m.(upstream := Assign(m.upstream, dst, if available then AddMember(cur, node) else DiscardMember(cur, node)))
  }

  /** `apply_inbox`. */
  function InboxSpec(m: S2, msg: Message): Applied {
    var found := StatusOf(m, msg.id);
    if found.Some? && found.value != Error && found.value != ErrorNotry then Failed(m, DuplicateMessage)
    else Succeeded(m.(state := Assign(m.state, msg.id, MsgState(Inbox, false, None)),
                      objects := m.objects[msg.id := msg]))
  }

  /** `apply_execute`. The status is written before the message object is
      read, so a missing object raises after the update. */
  function ExecuteSpec(m: S2, id: MessageId): Applied {
    match Lookup(m.state, id)
    case None => Failed(m, MessageNotExists)
    case Some(e) =>
      if e.status != Inbox then Failed(m, InvalidStatus)
      else
        var m1 := m.(state := Assign(m.state, id, e.(status := Execute)));
        if id !in m.objects then Failed(m1, KeyMissing)
        else Succeeded(m1.(objects := m.objects[id := Meta(m.objects[id])]))
  }

  /** The outbox states `apply_outbox` builds: one fresh entry per message,
      in order. */
  function FreshOutbox(msgs: seq<Message>): seq<(MessageId, OutboxState)>
    decreases |msgs|
  {
    if msgs == [] then []
    else Assign(FreshOutbox(msgs[..|msgs| - 1]), msgs[|msgs| - 1].id, OutboxState(Outbox, Some(0), None))
  }

  /** `message_objects[x.id] = x` for each message in turn. */
  function AddObjects(objects: map<MessageId, Message>, msgs: seq<Message>): map<MessageId, Message>
    decreases |msgs|
  {
    if msgs == [] then objects
    else AddObjects(objects, msgs[..|msgs| - 1])[msgs[|msgs| - 1].id := msgs[|msgs| - 1]]
  }

  predicate ParentsAre(msgs: seq<Message>, id: MessageId) {
    forall i :: 0 <= i < |msgs| ==> msgs[i].parentId == Some(id)
  }

  /** `apply_outbox`. */
  function OutboxSpec(m: S2, id: MessageId, msgs: seq<Message>): Applied {
    if msgs == [] then Failed(m, EmptyOutbox)
    else match Lookup(m.state, id)
      case None => Failed(m, MessageNotExists)
      case Some(e) =>
        if e.status != Execute then Failed(m, InvalidStatus)
        else if !ParentsAre(msgs, id) then Failed(m, InvalidParent)
        else Succeeded(m.(state := Assign(m.state, id, e.(status := Outbox, outbox := Some(FreshOutbox(msgs)))),
                          objects := AddObjects(m.objects, msgs)))
  }

  /** `apply_complete`: an unknown id is recorded as completed with the
      given status; a known one must be INBOX or done and not acked yet. */
  function CompleteSpec(m: S2, id: MessageId, status: Option<Status>): Applied {
    match Lookup(m.state, id)
    case Some(e) =>
      if e.status != Inbox && !IsFinal(e.status) then Failed(m, WrongStatus)
      else if e.isAcked then Failed(m, AlreadyAcked)
      else if id !in m.objects then Failed(m, KeyMissing)
      else
        var msg := m.objects[id];
        var e1 := e.(isAcked := true, status := status.GetOr(e.status));
        Succeeded(m.(state := Assign(m.state, id, e1),
                     doneIds := WithDone(m.doneIds, msg.dst, msg.srcNode, DoneAt(m.doneIds, msg.dst, msg.srcNode) - {id})))
    case None =>
      if status.None? || !IsFinal(status.value) then Failed(m, InvalidStatus)
      else Succeeded(m.(state := Assign(m.state, id, MsgState(status.value, true, None))))
  }

  /** `apply_done`: the outbox states go, with their message objects; the
      id is recorded as done for its upstream, and a message that needs no
      ack is completed at once. */
  function DoneSpec(m: S2, id: MessageId, status: Status): Applied {
    if !IsFinal(status) then Failed(m, InvalidStatus)
    else match Lookup(m.state, id)
      case None => Failed(m, MessageNotExists)
      case Some(e) =>
        if e.status != Execute && e.status != Outbox then Failed(m, WrongStatus)
        else if id !in m.objects then Failed(m, KeyMissing)
        else
          var msg := m.objects[id];
          var objects := if e.outbox.Some? then m.objects - KeySet(e.outbox.value) else m.objects;
          var m1 := m.(state := Assign(m.state, id, MsgState(status, false, None)),
                       objects := objects,
                       doneIds := WithDone(m.doneIds, msg.dst, msg.srcNode, DoneAt(m.doneIds, msg.dst, msg.srcNode) + {id}));
          if !msg.requireAck then CompleteSpec(m1, id, None) else Succeeded(m1)
  }

  /** An outbox message found through its parent. */
  datatype Child = Child(msg: Message, parent: MessageId, entry: MsgState, outs: seq<(MessageId, OutboxState)>, state: OutboxState)

  /** The lookups `apply_export`, `apply_acked` and `apply_retry` share: the
      message object, its parent's state, which must be OUTBOX, and its own
      outbox state. */
  function ChildOf(m: S2, cid: MessageId): Result<Child, StateError>
  {
    if cid !in m.objects then Err(OutboxNotExists)
    else
      var msg := m.objects[cid];
      if msg.parentId.None? then Err(MessageNotExists)
      else match Lookup(m.state, msg.parentId.value)
        case None => Err(MessageNotExists)
        case Some(e) =>
          if e.status != Outbox then Err(WrongStatus)
          else if e.outbox.None? then Err(KeyMissing)
          else match Lookup(e.outbox.value, msg.id)
            case None => Err(KeyMissing)
            case Some(os) => Ok(Child(msg, msg.parentId.value, e, e.outbox.value, os))
  }

  /** The outbox state of `cid` under the parent `pid`, if there is one. */
  function ChildStateOf(m: S2, pid: MessageId, cid: MessageId): Option<OutboxState> {
    match Lookup(m.state, pid)
    case None => None
    case Some(e) => if e.outbox.None? then None else Lookup(e.outbox.value, cid)
  }

  /** The state with one outbox state replaced. */
  function SetChild(m: S2, c: Child, os: OutboxState): S2 {
    m.(state := Assign(m.state, c.parent, c.entry.(outbox := Some(Assign(c.outs, c.msg.id, os)))))
  }

  function AllOk(outs: seq<(MessageId, OutboxState)>): bool {
    forall i :: 0 <= i < |outs| ==> outs[i].1.status == Success
  }

  /** `apply_acked`. */
  function AckedSpec(m: S2, cid: MessageId, status: Status): Applied {
    if cid !in m.objects then Failed(m, OutboxNotExists)
    else if !IsFinal(status) then Failed(m, InvalidStatus)
    else match ChildOf(m, cid)
      case Err(err) => Failed(m, err)
      case Ok(c) =>
        if c.state.status != Export then Failed(m, WrongStatus)
        else
          var m1 := SetChild(m, c, c.state.(status := status, retryAt := None));
          if status == ErrorNotry then DoneSpec(m1, c.parent, ErrorNotry)
          else if status == Success && AllOk(Assign(c.outs, c.msg.id, c.state.(status := status, retryAt := None))) then
            DoneSpec(m1, c.parent, Success)
          else if status == Success then
            Succeeded(SetChild(m, c, OutboxState(Success, None, None)).(objects := m.objects[c.msg.id := Meta(c.msg)]))
          else Succeeded(m1)
  }

  /** `apply_export`: OUTBOX -> EXPORT; a message that needs no ack is
      acked OK at once. */
  function ExportSpec(m: S2, cid: MessageId, retryAt: Option<int>): Applied {
    match ChildOf(m, cid)
    case Err(err) => Failed(m, err)
    case Ok(c) =>
      if c.state.status != Outbox then Failed(m, WrongStatus)
      else if c.msg.requireAck then Succeeded(SetChild(m, c, c.state.(status := Export, retryAt := retryAt)))
      else AckedSpec(SetChild(m, c, c.state.(status := Export)), c.msg.id, Success)
  }

  /** `apply_retry`: without a count, from ERROR or EXPORT with the count
      raised by one; with a count (a replayed retry), from OUTBOX. */
  function RetrySpec(m: S2, cid: MessageId, count: Option<int>): Applied {
    match ChildOf(m, cid)
    case Err(err) => Failed(m, err)
    case Ok(c) =>
      if count.None? then
        if c.state.status != Error && c.state.status != Export then Failed(m, WrongStatus)
        else if c.state.executedCount.None? then Failed(m, KeyMissing)
        else Succeeded(SetChild(m, c, OutboxState(Outbox, Some(c.state.executedCount.value + 1), None)))
      else if c.state.status != Outbox then Failed(m, WrongStatus)
      else Succeeded(SetChild(m, c, OutboxState(Outbox, count, None)))
  }

  predicate IsExecuteEntry(e: MsgState) {
    e.status == Execute
  }

  /** `apply_done(id, ERROR)` for each id in turn, stopping at the first
      raise. */
  function DoneEach(m: S2, ids: seq<MessageId>): Applied
    decreases |ids|
  {
    if ids == [] then Succeeded(m)
    else
      var a := DoneSpec(m, ids[0], Error);
      if a.error.Some? then a else DoneEach(a.s, ids[1..])
  }

  /** `apply_restart`: every message still executing is done as ERROR. */
  function RestartSpec(m: S2): Applied {
    DoneEach(m, KeysWhere(m.state, IsExecuteEntry))
  }

  /** One write-ahead-log item, as `apply(type, **kwargs)` receives it. */
  datatype Item =
    | NotifyItem(dst: string, srcNode: string, available: bool)
    | InboxItem(message: Message)
    | ExecuteItem(id: MessageId)
    | OutboxItem(id: MessageId, messages: seq<Message>)
    | DoneItem(id: MessageId, status: Status)
    | CompleteItem(id: MessageId, completeStatus: Option<Status>)
    | ExportItem(outboxId: MessageId, retryAt: Option<int>)
    | AckedItem(outboxId: MessageId, status: Status)
    | RetryItem(outboxId: MessageId, count: Option<int>)
    | RestartItem

  /** `apply(type, **kwargs)`. */
  function Apply(m: S2, item: Item): Applied {
    match item
    case NotifyItem(dst, node, available) => Succeeded(NotifySpec(m, dst, node, available))
    case InboxItem(msg) => InboxSpec(m, msg)
    case ExecuteItem(id) => ExecuteSpec(m, id)
    case OutboxItem(id, msgs) => OutboxSpec(m, id, msgs)
    case DoneItem(id, status) => DoneSpec(m, id, status)
    case CompleteItem(id, status) => CompleteSpec(m, id, status)
    case ExportItem(cid, retryAt) => ExportSpec(m, cid, retryAt)
    case AckedItem(cid, status) => AckedSpec(m, cid, status)
    case RetryItem(cid, count) => RetrySpec(m, cid, count)
    case RestartItem => RestartSpec(m)
  }

  /** `for item in items: state.apply(**item)`, stopping at the first
      raise. */
  function Replay(m: S2, items: seq<Item>): Applied
    decreases |items|
  {
    if items == [] then Succeeded(m)
    else
      var a := Apply(m, items[0]);
      if a.error.Some? then a else Replay(a.s, items[1..])
  }

  // ---- what each operation does ------------------------------------------------------------

  /** `apply_notify` adds `src_node` to `upstream[dst]` or discards it, and
      changes nothing else. */
  lemma {:induction false} NotifyOutcome(m: S2, dst: string, node: string, available: bool, d: string)
    ensures var r := NotifySpec(m, dst, node, available);
      r.state == m.state && r.objects == m.objects && r.doneIds == m.doneIds &&
      Members(UpstreamOf(r, dst)) == (if available then Members(UpstreamOf(m, dst)) + {node} else Members(UpstreamOf(m, dst)) - {node}) &&
      (d != dst ==> UpstreamOf(r, d) == UpstreamOf(m, d))
  {
    var cur := UpstreamOf(m, dst);
    var v := if available then AddMember(cur, node) else DiscardMember(cur, node);
    AssignLookup(m.upstream, dst, v, dst);
    AssignLookup(m.upstream, dst, v, d);
  }

  /** `apply_inbox` raises `DuplicateMessageError` exactly when the id is
      known with a status other than ERROR and ERROR_NOTRY; otherwise the
      message is recorded as INBOX, not acked, and nothing else changes. */
  lemma {:induction false} InboxOutcome(m: S2, msg: Message, k: MessageId)
    ensures var a := InboxSpec(m, msg);
      (a.error.Some? <==> StatusOf(m, msg.id).Some? && StatusOf(m, msg.id).value != Error && StatusOf(m, msg.id).value != ErrorNotry) &&
      (a.error.Some? ==> a.error == Some(DuplicateMessage) && a.s == m) &&
      (a.error.None? ==>
        Lookup(a.s.state, msg.id) == Some(MsgState(Inbox, false, None)) &&
        a.s.objects == m.objects[msg.id := msg] &&
        a.s.doneIds == m.doneIds && a.s.upstream == m.upstream &&
        (k != msg.id ==> Lookup(a.s.state, k) == Lookup(m.state, k)))
  {
    AssignLookup(m.state, msg.id, MsgState(Inbox, false, None), k);
    AssignLookup(m.state, msg.id, MsgState(Inbox, false, None), msg.id);
  }

  /** `apply_execute`: an unknown id raises `MessageNotExistsError`, a status
      other than INBOX raises `InvalidStatusError`, both with no change;
      otherwise the message becomes EXECUTE and its object loses its
      content. */
  lemma {:induction false} ExecuteOutcome(m: S2, id: MessageId, k: MessageId)
    ensures var a := ExecuteSpec(m, id);
      (StatusOf(m, id).None? ==> a == Failed(m, MessageNotExists)) &&
      (StatusOf(m, id).Some? && StatusOf(m, id).value != Inbox ==> a == Failed(m, InvalidStatus)) &&
      (StatusOf(m, id) == Some(Inbox) ==>
        StatusOf(a.s, id) == Some(Execute) &&
        (a.error.None? <==> id in m.objects) &&
        (a.error.Some? ==> a.error == Some(KeyMissing)) &&
        (id in m.objects ==> a.s.objects == m.objects[id := Meta(m.objects[id])]) &&
        (k != id ==> Lookup(a.s.state, k) == Lookup(m.state, k)))
  {
    var e := Lookup(m.state, id);
    if e.Some? {
      AssignLookup(m.state, id, e.value.(status := Execute), k);
      AssignLookup(m.state, id, e.value.(status := Execute), id);
    }
  }

  /** Every outbox message gets a fresh `{OUTBOX, 0, None}` entry, and no
      other id gets one. */
  lemma {:induction false} FreshOutboxLookup(msgs: seq<Message>, k: MessageId)
    ensures Lookup(FreshOutbox(msgs), k) ==
      if exists i :: 0 <= i < |msgs| && msgs[i].id == k then Some(OutboxState(Outbox, Some(0), None)) else None
    decreases |msgs|
  {
    if msgs != [] {
      var init := msgs[..|msgs| - 1];
      FreshOutboxLookup(init, k);
      AssignLookup(FreshOutbox(init), msgs[|msgs| - 1].id, OutboxState(Outbox, Some(0), None), k);
      if exists i :: 0 <= i < |msgs| && msgs[i].id == k {
        var i :| 0 <= i < |msgs| && msgs[i].id == k;
        if i < |msgs| - 1 {
          assert init[i].id == k;
        }
      } else {
        assert forall i :: 0 <= i < |init| ==> init[i] == msgs[i];
      }
    }
  }

  /** After `message_objects[x.id] = x` for each x, an id none of them has
      keeps its object. */
  lemma {:induction false} AddObjectsOther(objects: map<MessageId, Message>, msgs: seq<Message>, k: MessageId)
    requires forall i :: 0 <= i < |msgs| ==> msgs[i].id != k
    ensures k in AddObjects(objects, msgs) <==> k in objects
    ensures k in objects ==> AddObjects(objects, msgs)[k] == objects[k]
    decreases |msgs|
  {
    if msgs != [] {
      var init := msgs[..|msgs| - 1];
      assert forall i :: 0 <= i < |init| ==> init[i] == msgs[i];
      AddObjectsOther(objects, init, k);
    }
  }

  /** ... and an id holds the last message with that id. */
  lemma {:induction false} AddObjectsLast(objects: map<MessageId, Message>, msgs: seq<Message>, i: nat)
    requires i < |msgs|
    requires forall j :: i < j < |msgs| ==> msgs[j].id != msgs[i].id
    ensures msgs[i].id in AddObjects(objects, msgs) && AddObjects(objects, msgs)[msgs[i].id] == msgs[i]
    decreases |msgs|
  {
    if i < |msgs| - 1 {
      var init := msgs[..|msgs| - 1];
      assert forall j :: 0 <= j < |init| ==> init[j] == msgs[j];
      AddObjectsLast(objects, init, i);
    }
  }

  /** `apply_outbox` checks, in order, that the list is non-empty, that the
      id is known, that it is EXECUTE and that every outbox message names it
      as parent; then the message becomes OUTBOX with one fresh state per
      outbox message and the objects recorded. */
  lemma {:induction false} OutboxOutcome(m: S2, id: MessageId, msgs: seq<Message>, k: MessageId)
    ensures var a := OutboxSpec(m, id, msgs);
      (msgs == [] ==> a == Failed(m, EmptyOutbox)) &&
      (msgs != [] && StatusOf(m, id).None? ==> a == Failed(m, MessageNotExists)) &&
      (msgs != [] && StatusOf(m, id).Some? && StatusOf(m, id).value != Execute ==> a == Failed(m, InvalidStatus)) &&
      (msgs != [] && StatusOf(m, id) == Some(Execute) && !ParentsAre(msgs, id) ==> a == Failed(m, InvalidParent)) &&
      (msgs != [] && StatusOf(m, id) == Some(Execute) && ParentsAre(msgs, id) ==>
        a.error.None? &&
        StatusOf(a.s, id) == Some(Outbox) &&
        Lookup(a.s.state, id).value.isAcked == Lookup(m.state, id).value.isAcked &&
        Lookup(a.s.state, id).value.outbox.Some? &&
        (Lookup(Lookup(a.s.state, id).value.outbox.value, k).Some? <==> exists i :: 0 <= i < |msgs| && msgs[i].id == k) &&
        (forall i :: 0 <= i < |msgs| ==>
          Lookup(Lookup(a.s.state, id).value.outbox.value, msgs[i].id) == Some(OutboxState(Outbox, Some(0), None))) &&
        (k != id ==> Lookup(a.s.state, k) == Lookup(m.state, k)) &&
        a.s.doneIds == m.doneIds && a.s.upstream == m.upstream)
  {
    var e := Lookup(m.state, id);
    if msgs != [] && e.Some? && e.value.status == Execute && ParentsAre(msgs, id) {
      var e1 := e.value.(status := Outbox, outbox := Some(FreshOutbox(msgs)));
      AssignLookup(m.state, id, e1, k);
      AssignLookup(m.state, id, e1, id);
      FreshOutboxLookup(msgs, k);
      forall i | 0 <= i < |msgs| ensures Lookup(FreshOutbox(msgs), msgs[i].id) == Some(OutboxState(Outbox, Some(0), None)) {
        FreshOutboxLookup(msgs, msgs[i].id);
      }
    }
  }

  /** `apply_complete`. For an unknown id: a status outside OK / ERROR /
      ERROR_NOTRY raises, otherwise the id is recorded as completed. For a
      known id: it must be INBOX or done and not yet acked; then it is acked,
      takes the given status if any, and leaves its upstream's done set. */
  lemma {:induction false} CompleteOutcome(m: S2, id: MessageId, status: Option<Status>, k: MessageId)
    ensures var a := CompleteSpec(m, id, status);
      (StatusOf(m, id).None? ==>
        (a.error.Some? <==> status.None? || !IsFinal(status.value)) &&
        (a.error.Some? ==> a == Failed(m, InvalidStatus)) &&
        (a.error.None? ==> Lookup(a.s.state, id) == Some(MsgState(status.value, true, None)) && a.s.doneIds == m.doneIds)) &&
      (StatusOf(m, id).Some? && StatusOf(m, id).value != Inbox && !IsFinal(StatusOf(m, id).value) ==> a == Failed(m, WrongStatus)) &&
      (StatusOf(m, id).Some? && (StatusOf(m, id).value == Inbox || IsFinal(StatusOf(m, id).value)) ==>
        (Lookup(m.state, id).value.isAcked ==> a == Failed(m, AlreadyAcked)) &&
        (!Lookup(m.state, id).value.isAcked && id !in m.objects ==> a == Failed(m, KeyMissing)) &&
        (!Lookup(m.state, id).value.isAcked && id in m.objects ==>
          a.error.None? &&
          Lookup(a.s.state, id) == Some(Lookup(m.state, id).value.(isAcked := true, status := status.GetOr(Lookup(m.state, id).value.status))) &&
          id !in DoneAt(a.s.doneIds, m.objects[id].dst, m.objects[id].srcNode))) &&
      a.s.objects == m.objects && a.s.upstream == m.upstream &&
      (k != id ==> Lookup(a.s.state, k) == Lookup(m.state, k))
  {
    var e := Lookup(m.state, id);
    if e.Some? {
      var e1 := e.value.(isAcked := true, status := status.GetOr(e.value.status));
      AssignLookup(m.state, id, e1, k);
      AssignLookup(m.state, id, e1, id);
    } else if status.Some? {
      AssignLookup(m.state, id, MsgState(status.value, true, None), k);
      AssignLookup(m.state, id, MsgState(status.value, true, None), id);
    }
  }

  /** Completing a message a second time raises "already complete acked". */
  lemma {:induction false} CompleteTwice(m: S2, id: MessageId, first: Option<Status>, second: Option<Status>)
    requires first.None? || IsFinal(first.value)
    requires CompleteSpec(m, id, first).error.None?
    ensures CompleteSpec(CompleteSpec(m, id, first).s, id, second) == Failed(CompleteSpec(m, id, first).s, AlreadyAcked)
  {
    CompleteOutcome(m, id, first, id);
  }

  /** Replacing one outbox state touches nothing else. */
  lemma {:induction false} SetChildFacts(m: S2, c: Child, os: OutboxState, k: MessageId)
    requires Lookup(m.state, c.parent) == Some(c.entry) && c.entry.outbox == Some(c.outs)
    ensures var r := SetChild(m, c, os);
      r.objects == m.objects && r.doneIds == m.doneIds && r.upstream == m.upstream &&
      StatusOf(r, c.parent) == StatusOf(m, c.parent) &&
      Lookup(r.state, c.parent).Some? && Lookup(r.state, c.parent).value.isAcked == c.entry.isAcked &&
      ChildStateOf(r, c.parent, c.msg.id) == Some(os) &&
      (k != c.msg.id ==> ChildStateOf(r, c.parent, k) == ChildStateOf(m, c.parent, k)) &&
      (k != c.parent ==> Lookup(r.state, k) == Lookup(m.state, k))
  {
    var e1 := c.entry.(outbox := Some(Assign(c.outs, c.msg.id, os)));
    AssignLookup(m.state, c.parent, e1, k);
    AssignLookup(m.state, c.parent, e1, c.parent);
    AssignLookup(c.outs, c.msg.id, os, k);
    AssignLookup(c.outs, c.msg.id, os, c.msg.id);
  }

  /** `apply_done` checks, in order, the status, that the id is known, and
      that it is EXECUTE or OUTBOX. Then its outbox messages are forgotten
      and it is done with the given status: a message that needs an ack
      waits, not acked, in its upstream's done set; one that needs none is
      completed at once, unless it is one of its own outbox messages. */
  lemma {:induction false} DoneOutcome(m: S2, id: MessageId, status: Status, k: MessageId)
    ensures var a := DoneSpec(m, id, status);
      (!IsFinal(status) ==> a == Failed(m, InvalidStatus)) &&
      (IsFinal(status) && StatusOf(m, id).None? ==> a == Failed(m, MessageNotExists)) &&
      (IsFinal(status) && StatusOf(m, id).Some? && StatusOf(m, id).value != Execute && StatusOf(m, id).value != Outbox ==>
        a == Failed(m, WrongStatus)) &&
      (IsFinal(status) && (StatusOf(m, id) == Some(Execute) || StatusOf(m, id) == Some(Outbox)) && id !in m.objects ==>
        a == Failed(m, KeyMissing)) &&
      (IsFinal(status) && (StatusOf(m, id) == Some(Execute) || StatusOf(m, id) == Some(Outbox)) && id in m.objects ==>
        var msg := m.objects[id];
        var outs := Lookup(m.state, id).value.outbox;
        (forall c :: outs.Some? && c in KeySet(outs.value) ==> c !in a.s.objects) &&
        (msg.requireAck ==>
          a.error.None? && Lookup(a.s.state, id) == Some(MsgState(status, false, None)) &&
          id in DoneAt(a.s.doneIds, msg.dst, msg.srcNode)) &&
        (!msg.requireAck && (outs.None? || id !in KeySet(outs.value)) ==>
          a.error.None? && Lookup(a.s.state, id) == Some(MsgState(status, true, None)) &&
          id !in DoneAt(a.s.doneIds, msg.dst, msg.srcNode)) &&
        (outs.None? ==> a.s.objects == m.objects) &&
        (k != id ==> Lookup(a.s.state, k) == Lookup(m.state, k)) &&
        a.s.upstream == m.upstream)
  {
    var e := Lookup(m.state, id);
    if IsFinal(status) && e.Some? && (e.value.status == Execute || e.value.status == Outbox) && id in m.objects {
      var msg := m.objects[id];
      var objects := if e.value.outbox.Some? then m.objects - KeySet(e.value.outbox.value) else m.objects;
      var m1 := m.(state := Assign(m.state, id, MsgState(status, false, None)),
                   objects := objects,
                   doneIds := WithDone(m.doneIds, msg.dst, msg.srcNode, DoneAt(m.doneIds, msg.dst, msg.srcNode) + {id}));
      AssignLookup(m.state, id, MsgState(status, false, None), k);
      AssignLookup(m.state, id, MsgState(status, false, None), id);
      if !msg.requireAck {
        CompleteOutcome(m1, id, None, k);
        if e.value.outbox.Some? && id in KeySet(e.value.outbox.value) {
        } else {
          assert id in m1.objects && m1.objects[id] == msg;
        }
      }
    }
  }

  /** A successful `apply_done` leaves the message with that final status. */
  lemma {:induction false} DoneLeavesFinal(m: S2, id: MessageId, status: Status)
    requires DoneSpec(m, id, status).error.None?
    ensures StatusOf(DoneSpec(m, id, status).s, id) == Some(status) && IsFinal(status)
  {
    var e := Lookup(m.state, id).value;
    var msg := m.objects[id];
    var objects := if e.outbox.Some? then m.objects - KeySet(e.outbox.value) else m.objects;
    var m1 := m.(state := Assign(m.state, id, MsgState(status, false, None)),
                 objects := objects,
                 doneIds := WithDone(m.doneIds, msg.dst, msg.srcNode, DoneAt(m.doneIds, msg.dst, msg.srcNode) + {id}));
    AssignLookup(m.state, id, MsgState(status, false, None), id);
    if !msg.requireAck {
      CompleteOutcome(m1, id, None, id);
    }
  }

  /** A message cannot be done twice. */
  lemma {:induction false} DoneTwice(m: S2, id: MessageId, status: Status, again: Status)
    requires DoneSpec(m, id, status).error.None?
    ensures DoneSpec(DoneSpec(m, id, status).s, id, again) ==
      Failed(DoneSpec(m, id, status).s, if IsFinal(again) then WrongStatus else InvalidStatus)
  {
    DoneLeavesFinal(m, id, status);
  }

  /** `apply_export` moves an OUTBOX outbox message to EXPORT, recording
      `retry_at` when it needs an ack; one that needs no ack is acked OK
      straight away. Anything but OUTBOX raises. */
  lemma {:induction false} ExportOutcome(m: S2, cid: MessageId, retryAt: Option<int>, k: MessageId)
    ensures var a := ExportSpec(m, cid, retryAt);
      (ChildOf(m, cid).Err? ==> a == Failed(m, ChildOf(m, cid).error)) &&
      (ChildOf(m, cid).Ok? ==>
        var c := ChildOf(m, cid).value;
        (c.state.status != Outbox ==> a == Failed(m, WrongStatus)) &&
        (c.state.status == Outbox && c.msg.requireAck ==>
          a.error.None? &&
          ChildStateOf(a.s, c.parent, c.msg.id) == Some(c.state.(status := Export, retryAt := retryAt)) &&
          (k != c.msg.id ==> ChildStateOf(a.s, c.parent, k) == ChildStateOf(m, c.parent, k)) &&
          (k != c.parent ==> Lookup(a.s.state, k) == Lookup(m.state, k)) &&
          StatusOf(a.s, c.parent) == Some(Outbox) && a.s.objects == m.objects) &&
        (c.state.status == Outbox && !c.msg.requireAck ==>
          a == AckedSpec(SetChild(m, c, c.state.(status := Export)), c.msg.id, Success)))
  {
    var r := ChildOf(m, cid);
    if r.Ok? {
      SetChildFacts(m, r.value, r.value.state.(status := Export, retryAt := retryAt), k);
    }
  }

  /** Every outbox message other than `id` is OK. */
  predicate OthersOk(outs: seq<(MessageId, OutboxState)>, id: MessageId) {
    forall i :: 0 <= i < |outs| && outs[i].0 != id ==> outs[i].1.status == Success
  }

  lemma {:induction false} AllOkCons(e: (MessageId, OutboxState), t: seq<(MessageId, OutboxState)>, id: MessageId)
    ensures AllOk([e] + t) <==> e.1.status == Success && AllOk(t)
    ensures OthersOk([e] + t, id) <==> (e.0 != id ==> e.1.status == Success) && OthersOk(t, id)
  {
    var r := [e] + t;
    assert forall i :: 0 <= i < |t| ==> r[i + 1] == t[i];
    assert r[0] == e;
  }

  lemma {:induction false} AllOkAssign(outs: seq<(MessageId, OutboxState)>, id: MessageId, os: OutboxState)
    requires DistinctKeys(outs)
    ensures AllOk(Assign(outs, id, os)) <==> os.status == Success && OthersOk(outs, id)
  {
    if outs == [] {
      assert Assign(outs, id, os) == [(id, os)] + [];
      AllOkCons((id, os), [], id);
    } else {
      assert outs == [outs[0]] + outs[1..];
      AllOkCons(outs[0], outs[1..], id);
      if outs[0].0 != id {
        AllOkAssign(outs[1..], id, os);
        AllOkCons(outs[0], Assign(outs[1..], id, os), id);
      } else {
        AllOkCons((id, os), outs[1..], id);
        LookupNone(outs[1..], id);
      }
    }
  }

  /** `apply_acked` checks the object, then the status, then the parent,
      and that the outbox message is EXPORT. ERROR_NOTRY finishes the
      parent as ERROR_NOTRY; OK finishes it as OK when every other outbox
      message is OK already, and otherwise leaves a bare `{status: OK}` and
      the message reduced to its meta; ERROR is recorded and waits for a
      retry. */
  lemma {:induction false} AckedOutcome(m: S2, cid: MessageId, status: Status, k: MessageId)
    ensures var a := AckedSpec(m, cid, status);
      (cid !in m.objects ==> a == Failed(m, OutboxNotExists)) &&
      (cid in m.objects && !IsFinal(status) ==> a == Failed(m, InvalidStatus)) &&
      (cid in m.objects && IsFinal(status) && ChildOf(m, cid).Err? ==> a == Failed(m, ChildOf(m, cid).error)) &&
      (IsFinal(status) && ChildOf(m, cid).Ok? ==>
        var c := ChildOf(m, cid).value;
        var m1 := SetChild(m, c, c.state.(status := status, retryAt := None));
        (c.state.status != Export ==> a == Failed(m, WrongStatus)) &&
        (c.state.status == Export && status == ErrorNotry ==> a == DoneSpec(m1, c.parent, ErrorNotry)) &&
        (c.state.status == Export && status == Success && DistinctKeys(c.outs) && OthersOk(c.outs, c.msg.id) ==>
          a == DoneSpec(m1, c.parent, Success)) &&
        (c.state.status == Export && status == Success && DistinctKeys(c.outs) && !OthersOk(c.outs, c.msg.id) ==>
          a.error.None? && StatusOf(a.s, c.parent) == Some(Outbox) &&
          ChildStateOf(a.s, c.parent, c.msg.id) == Some(OutboxState(Success, None, None)) &&
          (k != c.msg.id ==> ChildStateOf(a.s, c.parent, k) == ChildStateOf(m, c.parent, k)) &&
          a.s.objects == m.objects[c.msg.id := Meta(c.msg)]) &&
        (c.state.status == Export && status == Error ==>
          a.error.None? && StatusOf(a.s, c.parent) == Some(Outbox) &&
          ChildStateOf(a.s, c.parent, c.msg.id) == Some(c.state.(status := Error, retryAt := None)) &&
          (k != c.msg.id ==> ChildStateOf(a.s, c.parent, k) == ChildStateOf(m, c.parent, k)) &&
          a.s.objects == m.objects))
  {
    var r := ChildOf(m, cid);
    if r.Ok? && IsFinal(status) {
      var c := r.value;
      SetChildFacts(m, c, c.state.(status := status, retryAt := None), k);
      SetChildFacts(m, c, OutboxState(Success, None, None), k);
      if DistinctKeys(c.outs) {
        AllOkAssign(c.outs, c.msg.id, c.state.(status := status, retryAt := None));
      }
    }
  }

  /** An ERROR_NOTRY ack, or the OK ack of the last outbox message that was
      not OK, finishes the parent with that status. */
  lemma {:induction false} AckedFinishes(m: S2, cid: MessageId, status: Status)
    requires ChildOf(m, cid).Ok? && ChildOf(m, cid).value.state.status == Export
    requires var c := ChildOf(m, cid).value;
      c.parent in m.objects && m.objects[c.parent].requireAck && DistinctKeys(c.outs)
    requires status == ErrorNotry || (status == Success && OthersOk(ChildOf(m, cid).value.outs, ChildOf(m, cid).value.msg.id))
    ensures var a := AckedSpec(m, cid, status);
      a.error.None? && Lookup(a.s.state, ChildOf(m, cid).value.parent) == Some(MsgState(status, false, None))
  {
    var c := ChildOf(m, cid).value;
    var m1 := SetChild(m, c, c.state.(status := status, retryAt := None));
    AckedOutcome(m, cid, status, cid);
    SetChildFacts(m, c, c.state.(status := status, retryAt := None), cid);
    DoneOutcome(m1, c.parent, status, cid);
  }

  /** `apply_retry` puts an ERROR or EXPORT outbox message back to OUTBOX
      with its count raised by one, or, given a count, an OUTBOX one with
      that count; nothing else changes. */
  lemma {:induction false} RetryOutcome(m: S2, cid: MessageId, count: Option<int>, k: MessageId)
    ensures var a := RetrySpec(m, cid, count);
      (ChildOf(m, cid).Err? ==> a == Failed(m, ChildOf(m, cid).error)) &&
      (ChildOf(m, cid).Ok? ==>
        var c := ChildOf(m, cid).value;
        (count.None? && c.state.status != Error && c.state.status != Export ==> a == Failed(m, WrongStatus)) &&
        (count.None? && (c.state.status == Error || c.state.status == Export) && c.state.executedCount.None? ==>
          a == Failed(m, KeyMissing)) &&
        (count.None? && (c.state.status == Error || c.state.status == Export) && c.state.executedCount.Some? ==>
          a.error.None? &&
          ChildStateOf(a.s, c.parent, c.msg.id) == Some(OutboxState(Outbox, Some(c.state.executedCount.value + 1), None))) &&
        (count.Some? && c.state.status != Outbox ==> a == Failed(m, WrongStatus)) &&
        (count.Some? && c.state.status == Outbox ==>
          a.error.None? && ChildStateOf(a.s, c.parent, c.msg.id) == Some(OutboxState(Outbox, count, None))) &&
        (a.error.None? ==>
          a.s.objects == m.objects && a.s.doneIds == m.doneIds && a.s.upstream == m.upstream &&
          StatusOf(a.s, c.parent) == Some(Outbox) &&
          (k != c.msg.id ==> ChildStateOf(a.s, c.parent, k) == ChildStateOf(m, c.parent, k)) &&
          (k != c.parent ==> Lookup(a.s.state, k) == Lookup(m.state, k))))
  {
    var r := ChildOf(m, cid);
    if r.Ok? {
      var c := r.value;
      if count.None? && c.state.executedCount.Some? {
        SetChildFacts(m, c, OutboxState(Outbox, Some(c.state.executedCount.value + 1), None), k);
      } else {
        SetChildFacts(m, c, OutboxState(Outbox, count, None), k);
      }
    }
  }

  /** `apply_done(id, ERROR)` over distinct executing messages: each is
      done as ERROR (and acked at once when it needs no ack), the rest
      stays. */
  lemma {:induction false} DoneEachOutcome(m: S2, ids: seq<MessageId>, k: MessageId)
    requires Unique(ids)
    requires forall j :: 0 <= j < |ids| ==>
      Lookup(m.state, ids[j]).Some? && Lookup(m.state, ids[j]).value.status == Execute &&
      Lookup(m.state, ids[j]).value.outbox.None? && ids[j] in m.objects
    ensures var a := DoneEach(m, ids);
      a.error.None? && a.s.objects == m.objects && a.s.upstream == m.upstream &&
      (k in ids ==> Lookup(a.s.state, k) == Some(MsgState(Error, !m.objects[k].requireAck, None))) &&
      (k !in ids ==> Lookup(a.s.state, k) == Lookup(m.state, k))
    decreases |ids|
  {
    if ids != [] {
      var id := ids[0];
      var a0 := DoneSpec(m, id, Error);
      DoneOutcome(m, id, Error, k);
      forall j | 1 <= j < |ids| ensures Lookup(a0.s.state, ids[j]) == Lookup(m.state, ids[j]) {
        DoneOutcome(m, id, Error, ids[j]);
      }
      var rest := ids[1..];
      assert forall j :: 0 <= j < |rest| ==> rest[j] == ids[j + 1];
      DoneEachOutcome(a0.s, rest, k);
      DoneEachOutcome(a0.s, rest, id);
      assert id !in rest;
    }
  }

  /** `apply_restart` turns every EXECUTE message into ERROR (acked at once
      when it needs no ack) and leaves every other message as it was,
      provided the executing messages have their objects and no outbox
      states, as `apply_execute` leaves them. */
  lemma {:induction false} RestartOutcome(m: S2, k: MessageId)
    requires DistinctKeys(m.state)
    requires forall x :: StatusOf(m, x) == Some(Execute) ==> x in m.objects && Lookup(m.state, x).value.outbox.None?
    ensures var a := RestartSpec(m);
      a.error.None? && a.s.objects == m.objects && a.s.upstream == m.upstream &&
      (StatusOf(m, k) == Some(Execute) ==> Lookup(a.s.state, k) == Some(MsgState(Error, !m.objects[k].requireAck, None))) &&
      (StatusOf(m, k) != Some(Execute) ==> Lookup(a.s.state, k) == Lookup(m.state, k))
  {
    var ids := KeysWhere(m.state, IsExecuteEntry);
    KeysWhereFacts(m.state, IsExecuteEntry);
    DoneEachOutcome(m, ids, k);
  }

  // ---- the life cycle of a message ---------------------------------------------------------

  /** Unchanged, or done with a final status. */
  predicate FinalOrSame(before: Option<Status>, after: Option<Status>) {
    after == before || (after.Some? && IsFinal(after.value))
  }

  /** The moves a message's status may make in one call: INBOX from nothing
      or from ERROR / ERROR_NOTRY, INBOX -> EXECUTE -> OUTBOX, and to a
      final status. */
  predicate Allowed(before: Option<Status>, after: Option<Status>) {
    FinalOrSame(before, after) ||
    (after == Some(Inbox) && (before.None? || before == Some(Error) || before == Some(ErrorNotry))) ||
    (before == Some(Inbox) && after == Some(Execute)) ||
    (before == Some(Execute) && after == Some(Outbox))
  }

  lemma {:induction false} CompleteMoves(m: S2, id: MessageId, status: Option<Status>, k: MessageId)
    requires status.None? || IsFinal(status.value)
    ensures FinalOrSame(StatusOf(m, k), StatusOf(CompleteSpec(m, id, status).s, k))
  {
    CompleteOutcome(m, id, status, k);
  }

  lemma {:induction false} DoneMoves(m: S2, id: MessageId, status: Status, k: MessageId)
    ensures FinalOrSame(StatusOf(m, k), StatusOf(DoneSpec(m, id, status).s, k))
  {
    var e := Lookup(m.state, id);
    if IsFinal(status) && e.Some? && (e.value.status == Execute || e.value.status == Outbox) && id in m.objects {
      var msg := m.objects[id];
      var objects := if e.value.outbox.Some? then m.objects - KeySet(e.value.outbox.value) else m.objects;
      var m1 := m.(state := Assign(m.state, id, MsgState(status, false, None)),
                   objects := objects,
                   doneIds := WithDone(m.doneIds, msg.dst, msg.srcNode, DoneAt(m.doneIds, msg.dst, msg.srcNode) + {id}));
      AssignLookup(m.state, id, MsgState(status, false, None), k);
      if !msg.requireAck {
        CompleteMoves(m1, id, None, k);
      }
    }
  }

  lemma {:induction false} AckedMoves(m: S2, cid: MessageId, status: Status, k: MessageId)
    ensures FinalOrSame(StatusOf(m, k), StatusOf(AckedSpec(m, cid, status).s, k))
  {
    var r := ChildOf(m, cid);
    if cid in m.objects && IsFinal(status) && r.Ok? && r.value.state.status == Export {
      var c := r.value;
      var m1 := SetChild(m, c, c.state.(status := status, retryAt := None));
      SetChildFacts(m, c, c.state.(status := status, retryAt := None), k);
      SetChildFacts(m, c, OutboxState(Success, None, None), k);
      DoneMoves(m1, c.parent, status, k);
    }
  }

  lemma {:induction false} ExportMoves(m: S2, cid: MessageId, retryAt: Option<int>, k: MessageId)
    ensures FinalOrSame(StatusOf(m, k), StatusOf(ExportSpec(m, cid, retryAt).s, k))
  {
    var r := ChildOf(m, cid);
    if r.Ok? && r.value.state.status == Outbox {
      var c := r.value;
      SetChildFacts(m, c, c.state.(status := Export, retryAt := retryAt), k);
      SetChildFacts(m, c, c.state.(status := Export), k);
      AckedMoves(SetChild(m, c, c.state.(status := Export)), c.msg.id, Success, k);
    }
  }

  lemma {:induction false} RetryMoves(m: S2, cid: MessageId, count: Option<int>, k: MessageId)
    ensures StatusOf(RetrySpec(m, cid, count).s, k) == StatusOf(m, k)
  {
    var r := ChildOf(m, cid);
    if r.Ok? {
      SetChildFacts(m, r.value, OutboxState(Outbox, count, None), k);
      if r.value.state.executedCount.Some? {
        SetChildFacts(m, r.value, OutboxState(Outbox, Some(r.value.state.executedCount.value + 1), None), k);
      }
    }
  }

  lemma {:induction false} DoneEachMoves(m: S2, ids: seq<MessageId>, k: MessageId)
    ensures FinalOrSame(StatusOf(m, k), StatusOf(DoneEach(m, ids).s, k))
    decreases |ids|
  {
    if ids != [] {
      var a := DoneSpec(m, ids[0], Error);
      DoneMoves(m, ids[0], Error, k);
      if a.error.None? {
        DoneEachMoves(a.s, ids[1..], k);
      }
    }
  }

  /** No call moves a message's status outside its life cycle, except
      `apply_complete` given a status that is not final for a known
      message, which it writes unchecked. */
  lemma {:induction false} StatusMoves(m: S2, item: Item, k: MessageId)
    requires item.CompleteItem? && item.completeStatus.Some? ==> IsFinal(item.completeStatus.value)
    ensures Allowed(StatusOf(m, k), StatusOf(Apply(m, item).s, k))
  {
    match item
    case NotifyItem(dst, node, available) =>
    case InboxItem(msg) => InboxOutcome(m, msg, k);
    case ExecuteItem(id) => ExecuteOutcome(m, id, k);
    case OutboxItem(id, msgs) => OutboxOutcome(m, id, msgs, k);
    case DoneItem(id, status) => DoneMoves(m, id, status, k);
    case CompleteItem(id, status) => CompleteMoves(m, id, status, k);
    case ExportItem(cid, retryAt) => ExportMoves(m, cid, retryAt, k);
    case AckedItem(cid, status) => AckedMoves(m, cid, status, k);
    case RetryItem(cid, count) => RetryMoves(m, cid, count, k);
    case RestartItem => DoneEachMoves(m, KeysWhere(m.state, IsExecuteEntry), k);
  }

  // ---- the Python object ----------------------------------------------------------------

  /** `ActorState` of `actorlib/state2.py`. Each `apply_*` returns the
      exception it raised, if any, and leaves the object as the Python code
      leaves it at that moment. */
  class ActorState2 {
    var state: seq<(MessageId, MsgState)>
    var objects: map<MessageId, Message>
    var doneIds: DoneIds
    var upstream: seq<(string, seq<string>)>

    function Current(): S2
      reads this
    {
      S2(state, objects, doneIds, upstream)
    }

    constructor()
      ensures Current() == Fresh
    {
      state := [];
      objects := map[];
      doneIds := map[];
      upstream := [];
    }

    /** `apply_notify`. */
    method ApplyNotify(dst: string, node: string, available: bool)
      modifies this
      ensures Current() == NotifySpec(old(Current()), dst, node, available)
    {
      var cur := Lookup(upstream, dst).GetOr([]);
      if available {
        cur := AddMember(cur, node);
      } else {
        cur := DiscardMember(cur, node);
      }
      upstream := Assign(upstream, dst, cur);
    }

    /** `apply_inbox`. */
    method ApplyInbox(msg: Message) returns (err: Option<StateError>)
      modifies this
      ensures Applied(Current(), err) == InboxSpec(old(Current()), msg)
    {
      var found := Lookup(state, msg.id);
      if found.Some? && found.value.status != Error && found.value.status != ErrorNotry {
        return Some(DuplicateMessage);
      }
      state := Assign(state, msg.id, MsgState(Inbox, false, None));
      objects := objects[msg.id := msg];
      return None;
    }

    /** `apply_execute`. */
    method ApplyExecute(id: MessageId) returns (err: Option<StateError>)
      modifies this
      ensures Applied(Current(), err) == ExecuteSpec(old(Current()), id)
    {
      var found := Lookup(state, id);
      if found.None? {
        return Some(MessageNotExists);
      }
      var e := found.value;
      if e.status != Inbox {
        return Some(InvalidStatus);
      }
      state := Assign(state, id, e.(status := Execute));
      if id !in objects {
        return Some(KeyMissing);
      }
      objects := objects[id := Meta(objects[id])];
      return None;
    }

    /** `apply_outbox`: the parents are checked in one loop, the outbox
        states built in a second. */
    method ApplyOutbox(id: MessageId, msgs: seq<Message>) returns (err: Option<StateError>)
      modifies this
      ensures Applied(Current(), err) == OutboxSpec(old(Current()), id, msgs)
    {
      if msgs == [] {
        return Some(EmptyOutbox);
      }
      var found := Lookup(state, id);
      if found.None? {
        return Some(MessageNotExists);
      }
      var e := found.value;
      if e.status != Execute {
        return Some(InvalidStatus);
      }
      for i := 0 to |msgs|
        invariant ParentsAre(msgs[..i], id)
        invariant Current() == old(Current())
      {
        if msgs[i].parentId != Some(id) {
          assert !ParentsAre(msgs, id);
          return Some(InvalidParent);
        }
      }
      assert msgs[..|msgs|] == msgs;
      ghost var objects0 := objects;
      var outs: seq<(MessageId, OutboxState)> := [];
      for i := 0 to |msgs|
        invariant outs == FreshOutbox(msgs[..i])
        invariant objects == AddObjects(objects0, msgs[..i])
        invariant state == old(state) && doneIds == old(doneIds) && upstream == old(upstream)
      {
        assert msgs[..i + 1][..i] == msgs[..i];
        assert FreshOutbox(msgs[..i + 1]) == Assign(FreshOutbox(msgs[..i]), msgs[i].id, OutboxState(Outbox, Some(0), None));
        assert AddObjects(objects0, msgs[..i + 1]) == AddObjects(objects0, msgs[..i])[msgs[i].id := msgs[i]];
        outs := Assign(outs, msgs[i].id, OutboxState(Outbox, Some(0), None));
        objects := objects[msgs[i].id := msgs[i]];
      }
      assert outs == FreshOutbox(msgs) && objects == AddObjects(objects0, msgs);
      state := Assign(state, id, e.(status := Outbox, outbox := Some(outs)));
      return None;
    }

    /** The pop loop of `apply_done`: every outbox message object goes. */
    method DropObjects(outs: seq<(MessageId, OutboxState)>)
      modifies this
      ensures Current() == old(Current()).(objects := old(objects) - KeySet(outs))
    {
      ghost var m := Current();
      for j := 0 to |outs|
        invariant objects == m.objects - (set i | 0 <= i < j :: outs[i].0)
        invariant state == m.state && doneIds == m.doneIds && upstream == m.upstream
      {
        assert (set i | 0 <= i < j + 1 :: outs[i].0) == (set i | 0 <= i < j :: outs[i].0) + {outs[j].0};
        objects := objects - {outs[j].0};
      }
    }

    /** `apply_done`. */
    method ApplyDone(id: MessageId, status: Status) returns (err: Option<StateError>)
      modifies this
      ensures Applied(Current(), err) == DoneSpec(old(Current()), id, status)
    {
      if !IsFinal(status) {
        return Some(InvalidStatus);
      }
      var found := Lookup(state, id);
      if found.None? {
        return Some(MessageNotExists);
      }
      var e := found.value;
      if e.status != Execute && e.status != Outbox {
        return Some(WrongStatus);
      }
      if id !in objects {
        return Some(KeyMissing);
      }
      var msg := objects[id];
      if e.outbox.Some? {
        DropObjects(e.outbox.value);
      }
      state := Assign(state, id, MsgState(status, false, None));
      doneIds := WithDone(doneIds, msg.dst, msg.srcNode, DoneAt(doneIds, msg.dst, msg.srcNode) + {id});
      if !msg.requireAck {
        err := ApplyComplete(id, None);
      } else {
        err := None;
      }
    }

    /** `apply_complete`. */
    method ApplyComplete(id: MessageId, status: Option<Status>) returns (err: Option<StateError>)
      modifies this
      ensures Applied(Current(), err) == CompleteSpec(old(Current()), id, status)
    {
      var found := Lookup(state, id);
      if found.Some? {
        var e := found.value;
        if e.status != Inbox && !IsFinal(e.status) {
          return Some(WrongStatus);
        }
        if e.isAcked {
          return Some(AlreadyAcked);
        }
        if id !in objects {
          return Some(KeyMissing);
        }
        var msg := objects[id];
        state := Assign(state, id, e.(isAcked := true, status := status.GetOr(e.status)));
        doneIds := WithDone(doneIds, msg.dst, msg.srcNode, DoneAt(doneIds, msg.dst, msg.srcNode) - {id});
        return None;
      }
      if status.None? || !IsFinal(status.value) {
        return Some(InvalidStatus);
      }
      state := Assign(state, id, MsgState(status.value, true, None));
      return None;
    }

    /** One outbox state written back through its parent. */
    method PutChild(c: Child, os: OutboxState)
      modifies this
      ensures Current() == SetChild(old(Current()), c, os)
    {
      state := Assign(state, c.parent, c.entry.(outbox := Some(Assign(c.outs, c.msg.id, os))));
    }

    /** `apply_export`. */
    method ApplyExport(cid: MessageId, retryAt: Option<int>) returns (err: Option<StateError>)
      modifies this
      ensures Applied(Current(), err) == ExportSpec(old(Current()), cid, retryAt)
    {
      var r := ChildOf(Current(), cid);
      match r {
        case Err(x) =>
          return Some(x);
        case Ok(c) =>
          if c.state.status != Outbox {
            return Some(WrongStatus);
          }
          if c.msg.requireAck {
            PutChild(c, c.state.(status := Export, retryAt := retryAt));
            return None;
          }
          PutChild(c, c.state.(status := Export));
          err := ApplyAcked(c.msg.id, Success);
      }
    }

    /** `apply_acked`. */
    method ApplyAcked(cid: MessageId, status: Status) returns (err: Option<StateError>)
      modifies this
      ensures Applied(Current(), err) == AckedSpec(old(Current()), cid, status)
    {
      if cid !in objects {
        return Some(OutboxNotExists);
      }
      if !IsFinal(status) {
        return Some(InvalidStatus);
      }
      var r := ChildOf(Current(), cid);
      match r {
        case Err(x) =>
          return Some(x);
        case Ok(c) =>
          if c.state.status != Export {
            return Some(WrongStatus);
          }
          var os := c.state.(status := status, retryAt := None);
          ghost var state0 := state;
          PutChild(c, os);
          if status == ErrorNotry {
            err := ApplyDone(c.parent, ErrorNotry);
          } else if status == Success && AllOk(Assign(c.outs, c.msg.id, os)) {
            err := ApplyDone(c.parent, Success);
          } else if status == Success {
            AssignTwice(state0, c.parent, c.entry.(outbox := Some(Assign(c.outs, c.msg.id, os))),
              c.entry.(outbox := Some(Assign(c.outs, c.msg.id, OutboxState(Success, None, None)))));
            PutChild(c, OutboxState(Success, None, None));
            objects := objects[c.msg.id := Meta(c.msg)];
            err := None;
          } else {
            err := None;
          }
      }
    }

    /** `apply_retry`. */
    method ApplyRetry(cid: MessageId, count: Option<int>) returns (err: Option<StateError>)
      modifies this
      ensures Applied(Current(), err) == RetrySpec(old(Current()), cid, count)
    {
      var r := ChildOf(Current(), cid);
      match r {
        case Err(x) =>
          return Some(x);
        case Ok(c) =>
          var n := count;
          if n.None? {
            if c.state.status != Error && c.state.status != Export {
              return Some(WrongStatus);
            }
            if c.state.executedCount.None? {
              return Some(KeyMissing);
            }
            n := Some(c.state.executedCount.value + 1);
          } else if c.state.status != Outbox {
            return Some(WrongStatus);
          }
          PutChild(c, OutboxState(Outbox, n, None));
          return None;
      }
    }

    /** The first loop of `apply_restart`: the ids still executing, in
        order. */
    method CollectExecuting() returns (ids: seq<MessageId>)
      ensures ids == KeysWhere(state, IsExecuteEntry)
    {
      ids := [];
      for i := 0 to |state|
        invariant ids == KeysWhere(state[..i], IsExecuteEntry)
      {
        KeysWhereConcat(state[..i], [state[i]], IsExecuteEntry);
        assert state[..i + 1] == state[..i] + [state[i]];
        if state[i].1.status == Execute {
          ids := ids + [state[i].0];
        }
      }
      assert state[..|state|] == state;
    }

    /** `apply_restart`. */
    method ApplyRestart() returns (err: Option<StateError>)
      modifies this
      ensures Applied(Current(), err) == RestartSpec(old(Current()))
    {
      ghost var m := Current();
      var ids := CollectExecuting();
      for j := 0 to |ids|
        invariant DoneEach(Current(), ids[j..]) == DoneEach(m, ids)
      {
        assert ids[j..][1..] == ids[j + 1..];
        err := ApplyDone(ids[j], Error);
        if err.Some? {
          return;
        }
      }
      assert ids[|ids|..] == [];
      return None;
    }

    /** `apply(type, **kwargs)`. */
    method ApplyItem(item: Item) returns (err: Option<StateError>)
      modifies this
      ensures Applied(Current(), err) == Apply(old(Current()), item)
    {
      match item {
        case NotifyItem(dst, node, available) =>
          ApplyNotify(dst, node, available);
          err := None;
        case InboxItem(msg) => err := ApplyInbox(msg);
        case ExecuteItem(id) => err := ApplyExecute(id);
        case OutboxItem(id, msgs) => err := ApplyOutbox(id, msgs);
        case DoneItem(id, status) => err := ApplyDone(id, status);
        case CompleteItem(id, status) => err := ApplyComplete(id, status);
        case ExportItem(cid, retryAt) => err := ApplyExport(cid, retryAt);
        case AckedItem(cid, status) => err := ApplyAcked(cid, status);
        case RetryItem(cid, count) => err := ApplyRetry(cid, count);
        case RestartItem => err := ApplyRestart();
      }
    }
  }
}
