/** The first generation of the actor message state (`actorlib/state.py`):
    a message begins, sends child messages, collects their acks and is
    done; done messages beyond a limit are evicted oldest first. The
    transitions are functions on a `Machine` value; the `ActorState` class
    below holds the same data in fields and applies them in place. */
module StateV1 {
  import opened Wrappers
  import opened OrderedDict

  type MessageId = string

  /** `BEGIN`, `SEND`, `OK`, `ERROR`, `ERROR_NOTRY`. */
  datatype Status = Begin | Send | Success | Error | ErrorNotry

  /** `_is_done(status)`. */
  predicate IsDone(s: Status) {
    s == Success || s == Error || s == ErrorNotry
  }

  /** The fields of a begun message that its state keeps. */
  datatype MessageInfo = MessageInfo(requireAck: bool, dst: string, src: string, srcNode: string)

  /** A child message: its id and the rest of its dict. */
  datatype SendMessage = SendMessage(id: MessageId, body: string)

  /** The state of one child: its ack status and its retry count. */
  datatype SendState = SendState(status: Status, count: nat)

  /** One entry of `_state`. An entry made by `apply_done` for an unknown id
      has no `message`; `sends` is empty unless the status is SEND. */
  datatype Entry = Entry(status: Status, message: Option<MessageInfo>, sends: seq<(MessageId, SendState)>)

  /** `_state`, `_send_messages` (child id to parent id and child) and the
      three counters. */
  datatype Machine = Machine(
    entries: seq<(MessageId, Entry)>,
    sends: seq<(MessageId, (MessageId, SendMessage))>,
    numBegin: int, numSend: int, numDone: int)

  datatype StateError =
    | DuplicateMessage
    | MessageNotExists
    | InvalidStatus
    | TooManyMessages
    | AlreadyDone
    | EmptySend
    | SendNotInBegin
      /** An internal `assert` or lookup that fails: the invariant rules it out. */
    | CheckFailed

  /** What `apply_done` returns: the id, the status and the message fields. */
  datatype DoneInfo = DoneInfo(id: MessageId, status: Status, message: Option<MessageInfo>)

  const Empty := Machine([], [], 0, 0, 0)

  function IsBeginEntry(e: Entry): bool { e.status == Begin }
  function IsSendEntry(e: Entry): bool { e.status == Send }
  function IsDoneEntry(e: Entry): bool { IsDone(e.status) }

  /** Child `sid` is registered under `parent`: the parent is in SEND and
      lists the child. */
  predicate SendCovered(entries: seq<(MessageId, Entry)>, sid: MessageId, parent: MessageId) {
    var pe := Lookup(entries, parent);
    pe.Some? && pe.value.status == Send && Lookup(pe.value.sends, sid).Some?
  }

  /** The invariant: dictionaries have distinct keys, every counter counts
      the entries in its status, and every registered child belongs to a
      parent in SEND. */
  ghost predicate Valid(m: Machine) {
    DistinctKeys(m.entries) && DistinctKeys(m.sends) &&
    m.numBegin == Count(m.entries, IsBeginEntry) &&
    m.numSend == Count(m.entries, IsSendEntry) &&
    m.numDone == Count(m.entries, IsDoneEntry) &&
    (forall k :: Lookup(m.entries, k).Some? ==> DistinctKeys(Lookup(m.entries, k).value.sends)) &&
    forall sid :: Lookup(m.sends, sid).Some? ==> SendCovered(m.entries, sid, Lookup(m.sends, sid).value.0)
  }

  // ---- transitions ----------------------------------------------------------------

  /** `apply_begin`. */
  function BeginSpec(m: Machine, maxPending: int, id: MessageId, info: MessageInfo): Result<Machine, StateError> {
    var found := Lookup(m.entries, id);
    if found.Some? && found.value.status != Error && found.value.status != ErrorNotry then Err(DuplicateMessage)
    else if m.numBegin + m.numSend > maxPending then Err(TooManyMessages)
    else Ok(m.(entries := Assign(m.entries, id, Entry(Begin, Some(info), [])),
               numBegin := m.numBegin + 1,
               numDone := if found.Some? then m.numDone - 1 else m.numDone))
  }

  /** `apply_done` up to the compaction: the entry, made empty when missing,
      takes the status and loses its children, which leave `_send_messages`. */
  function MarkDone(m: Machine, id: MessageId, status: Status): (Machine, DoneInfo) {
    var found := Lookup(m.entries, id);
    var e := if found.Some? then found.value else Entry(status, None, []);
    (m.(entries := Assign(m.entries, id, Entry(status, e.message, [])),
        sends := RemoveAll(m.sends, KeyList(e.sends)),
        numBegin := if found.Some? && found.value.status == Begin then m.numBegin - 1 else m.numBegin,
        numSend := if found.Some? && found.value.status == Send then m.numSend - 1 else m.numSend,
        numDone := m.numDone + 1),
     DoneInfo(id, status, e.message))
  }

  /** The `take` oldest done messages: `_compact_done_messages`' first loop. */
  function OldestDone(m: Machine, take: int): seq<MessageId> {
    var done := KeysWhere(m.entries, IsDoneEntry);
    if take >= |done| then done else if take <= 0 then [] else done[..take]
  }

  /** `_compact_done_messages`: the done messages beyond `maxDone` go,
      oldest first. */
  function Compact(m: Machine, maxDone: int): Machine {
    var skip := m.numDone - maxDone;
    if skip <= 0 then m
    else
      var ids := OldestDone(m, skip);
      m.(entries := RemoveAll(m.entries, ids), numDone := m.numDone - |ids|)
  }

  /** `apply_done`. */
  function DoneSpec(m: Machine, maxDone: int, id: MessageId, status: Status): Result<(Machine, DoneInfo), StateError> {
    var found := Lookup(m.entries, id);
    if !IsDone(status) then Err(InvalidStatus)
    else if found.Some? && found.value.status != Begin && found.value.status != Send then Err(AlreadyDone)
    else
      var (m1, info) := MarkDone(m, id, status);
      Ok((Compact(m1, maxDone), info))
  }

  /** `_send_messages[x['id']] = (message_id, x)` for each child in turn. */
  function Register(sends: seq<(MessageId, (MessageId, SendMessage))>, parent: MessageId, msgs: seq<SendMessage>):
    seq<(MessageId, (MessageId, SendMessage))>
    decreases |msgs|
  {
    if msgs == [] then sends
    else
      var x := msgs[|msgs| - 1];
      Assign(Register(sends, parent, msgs[..|msgs| - 1]), x.id, (parent, x))
  }

  /** `send_messages_state[x['id']] = dict(status=BEGIN, count=0)` for each
      child in turn. */
  function FreshSends(msgs: seq<SendMessage>): seq<(MessageId, SendState)>
    decreases |msgs|
  {
    if msgs == [] then []
    else Assign(FreshSends(msgs[..|msgs| - 1]), msgs[|msgs| - 1].id, SendState(Begin, 0))
  }

  /** `apply_send`. */
  function SendSpec(m: Machine, id: MessageId, msgs: seq<SendMessage>): Result<Machine, StateError> {
    var found := Lookup(m.entries, id);
    if msgs == [] then Err(EmptySend)
    else if found.None? then Err(MessageNotExists)
    else if found.value.status != Begin then Err(SendNotInBegin)
    else Ok(m.(entries := Assign(m.entries, id, found.value.(status := Send, sends := FreshSends(msgs))),
               sends := Register(m.sends, id, msgs),
               numBegin := m.numBegin - 1,
               numSend := m.numSend + 1))
  }

  /** Every child is acked OK. */
  predicate AllOk(sends: seq<(MessageId, SendState)>) {
    forall i :: 0 <= i < |sends| ==> sends[i].1.status == Success
  }

  /** The parent of a registered child, when `_check_parent_send_state` and
      the child lookup succeed. */
  function ParentOf(m: Machine, id: MessageId): Result<(MessageId, Entry, SendState), StateError> {
    var reg := Lookup(m.sends, id);
    if reg.None? then Err(MessageNotExists)
    else
      var parent := reg.value.0;
      var pe := Lookup(m.entries, parent);
      if pe.None? || pe.value.status != Send then Err(CheckFailed)
      else
        var ss := Lookup(pe.value.sends, id);
        if ss.None? then Err(CheckFailed) else Ok((parent, pe.value, ss.value))
  }

  /** `apply_ack`. */
  function AckSpec(m: Machine, maxDone: int, id: MessageId, status: Status): Result<(Machine, Option<DoneInfo>), StateError> {
    if !IsDone(status) then Err(InvalidStatus)
    else
      var (parent, pe, ss) :- ParentOf(m, id);
      var children := Assign(pe.sends, id, ss.(status := status));
      var m1 := m.(entries := Assign(m.entries, parent, pe.(sends := children)));
      if status == ErrorNotry || (status == Success && AllOk(children)) then
        var (m2, info) :- DoneSpec(m1, maxDone, parent, status);
        Ok((m2, Some(info)))
      else if status == Success then Ok((m1.(sends := Remove(m1.sends, id)), None))
      else Ok((m1, None))
  }

  /** `apply_retry`. */
  function RetrySpec(m: Machine, id: MessageId): Result<Machine, StateError> {
    var (parent, pe, ss) :- ParentOf(m, id);
    Ok(m.(entries := Assign(m.entries, parent, pe.(sends := Assign(pe.sends, id, ss.(count := ss.count + 1))))))
  }

  /** `apply_restart`. */
  function RestartSpec(m: Machine): Machine {
    m.(entries := RemoveAll(m.entries, KeysWhere(m.entries, IsBeginEntry)), numBegin := 0)
  }

  // ---- the invariant is kept ----------------------------------------------------------

  lemma {:induction false} CountsAssign(m: Machine, id: MessageId, e: Entry)
    requires DistinctKeys(m.entries)
    ensures var found := Lookup(m.entries, id);
      var es := Assign(m.entries, id, e);
      Count(es, IsBeginEntry) == Count(m.entries, IsBeginEntry) - (if found.Some? && IsBeginEntry(found.value) then 1 else 0) + (if IsBeginEntry(e) then 1 else 0) &&
      Count(es, IsSendEntry) == Count(m.entries, IsSendEntry) - (if found.Some? && IsSendEntry(found.value) then 1 else 0) + (if IsSendEntry(e) then 1 else 0) &&
      Count(es, IsDoneEntry) == Count(m.entries, IsDoneEntry) - (if found.Some? && IsDoneEntry(found.value) then 1 else 0) + (if IsDoneEntry(e) then 1 else 0) &&
      DistinctKeys(es)
  {
    CountAssign(m.entries, id, e, IsBeginEntry);
    CountAssign(m.entries, id, e, IsSendEntry);
    CountAssign(m.entries, id, e, IsDoneEntry);
    AssignDistinct(m.entries, id, e);
  }

  lemma {:induction false} BeginValid(m: Machine, maxPending: int, id: MessageId, info: MessageInfo)
    requires Valid(m) && BeginSpec(m, maxPending, id, info).Ok?
    ensures Valid(BeginSpec(m, maxPending, id, info).value)
  {
    var m' := BeginSpec(m, maxPending, id, info).value;
    CountsAssign(m, id, Entry(Begin, Some(info), []));
    forall k | Lookup(m'.entries, k).Some? ensures DistinctKeys(Lookup(m'.entries, k).value.sends) {
      AssignLookup(m.entries, id, Entry(Begin, Some(info), []), k);
    }
    forall sid | Lookup(m'.sends, sid).Some?
      ensures SendCovered(m'.entries, sid, Lookup(m'.sends, sid).value.0)
    {
      var p := Lookup(m.sends, sid).value.0;
      assert SendCovered(m.entries, sid, p);
      AssignLookup(m.entries, id, Entry(Begin, Some(info), []), p);
    }
  }

  lemma {:induction false} MarkDoneValid(m: Machine, id: MessageId, status: Status)
    requires Valid(m) && IsDone(status)
    requires Lookup(m.entries, id).None? || Lookup(m.entries, id).value.status in {Begin, Send}
    ensures Valid(MarkDone(m, id, status).0)
  {
    var found := Lookup(m.entries, id);
    var e := if found.Some? then found.value else Entry(status, None, []);
    var m' := MarkDone(m, id, status).0;
    CountsAssign(m, id, Entry(status, e.message, []));
    RemoveAllDistinct(m.sends, KeyList(e.sends));
    forall k | Lookup(m'.entries, k).Some? ensures DistinctKeys(Lookup(m'.entries, k).value.sends) {
      AssignLookup(m.entries, id, Entry(status, e.message, []), k);
    }
    forall sid | Lookup(m'.sends, sid).Some?
      ensures SendCovered(m'.entries, sid, Lookup(m'.sends, sid).value.0)
    {
      RemoveAllLookup(m.sends, KeyList(e.sends), sid);
      var p := Lookup(m.sends, sid).value.0;
      assert SendCovered(m.entries, sid, p);
      if p == id {
        LookupKeyList(e.sends, sid);
      }
      AssignLookup(m.entries, id, Entry(status, e.message, []), p);
    }
  }

  /** The oldest done messages are distinct done messages, at most `take`
      of them. */
  lemma {:induction false} OldestDoneFacts(m: Machine, take: int)
    requires DistinctKeys(m.entries)
    ensures var ids := OldestDone(m, take);
      Unique(ids) && |ids| == (if take >= Count(m.entries, IsDoneEntry) then Count(m.entries, IsDoneEntry) else if take <= 0 then 0 else take) &&
      (forall i :: 0 <= i < |ids| ==> Lookup(m.entries, ids[i]).Some? && IsDoneEntry(Lookup(m.entries, ids[i]).value)) &&
      ids == KeysWhere(m.entries, IsDoneEntry)[..|ids|]
  {
    KeysWhereFacts(m.entries, IsDoneEntry);
    var done := KeysWhere(m.entries, IsDoneEntry);
    assert done[..|done|] == done;
    if 0 < take < |done| {
      assert forall i :: 0 <= i < take ==> done[..take][i] == done[i];
    }
  }

  lemma {:induction false} CompactValid(m: Machine, maxDone: int)
    requires Valid(m)
    ensures Valid(Compact(m, maxDone))
  {
    var skip := m.numDone - maxDone;
    if skip > 0 {
      var ids := OldestDone(m, skip);
      OldestDoneFacts(m, skip);
      forall i | 0 <= i < |ids| ensures !IsBeginEntry(Lookup(m.entries, ids[i]).value) && !IsSendEntry(Lookup(m.entries, ids[i]).value) {
      }
      CountRemoveAll(m.entries, ids, IsDoneEntry, IsBeginEntry);
      CountRemoveAll(m.entries, ids, IsDoneEntry, IsSendEntry);
      RemoveAllDistinct(m.entries, ids);
      var m' := Compact(m, maxDone);
      forall k | Lookup(m'.entries, k).Some? ensures DistinctKeys(Lookup(m'.entries, k).value.sends) {
        RemoveAllLookup(m.entries, ids, k);
      }
      forall sid | Lookup(m'.sends, sid).Some?
        ensures SendCovered(m'.entries, sid, Lookup(m'.sends, sid).value.0)
      {
        var p := Lookup(m.sends, sid).value.0;
        assert SendCovered(m.entries, sid, p);
        RemoveAllLookup(m.entries, ids, p);
        assert p !in ids by {
          assert forall i :: 0 <= i < |ids| ==> ids[i] != p;
        }
      }
    }
  }

  lemma {:induction false} DoneValid(m: Machine, maxDone: int, id: MessageId, status: Status)
    requires Valid(m) && DoneSpec(m, maxDone, id, status).Ok?
    ensures Valid(DoneSpec(m, maxDone, id, status).value.0)
  {
    MarkDoneValid(m, id, status);
    CompactValid(MarkDone(m, id, status).0, maxDone);
  }

  /** The ids of the children, in order. */
  function MsgIds(msgs: seq<SendMessage>): (r: seq<MessageId>)
    ensures |r| == |msgs| && forall i :: 0 <= i < |msgs| ==> r[i] == msgs[i].id
  {
    seq(|msgs|, i requires 0 <= i < |msgs| => msgs[i].id)
  }

  /** Every child is registered under `parent`; other registrations stay. */
  lemma {:induction false} RegisterLookup(sends: seq<(MessageId, (MessageId, SendMessage))>, parent: MessageId,
                                          msgs: seq<SendMessage>, sid: MessageId)
    ensures var r := Lookup(Register(sends, parent, msgs), sid);
      if sid in MsgIds(msgs) then r.Some? && r.value.0 == parent && r.value.1.id == sid
      else r == Lookup(sends, sid)
    ensures DistinctKeys(sends) ==> DistinctKeys(Register(sends, parent, msgs))
    decreases |msgs|
  {
    if msgs != [] {
      var init := msgs[..|msgs| - 1];
      var x := msgs[|msgs| - 1];
      RegisterLookup(sends, parent, init, sid);
      AssignLookup(Register(sends, parent, init), x.id, (parent, x), sid);
      if DistinctKeys(sends) {
        AssignDistinct(Register(sends, parent, init), x.id, (parent, x));
      }
      assert MsgIds(msgs) == MsgIds(init) + [x.id];
    }
  }

  /** Every child starts in BEGIN with no retries, and only the children
      are listed. */
  lemma {:induction false} FreshLookup(msgs: seq<SendMessage>, sid: MessageId)
    ensures Lookup(FreshSends(msgs), sid) == if sid in MsgIds(msgs) then Some(SendState(Begin, 0)) else None
    decreases |msgs|
  {
    if msgs != [] {
      var init := msgs[..|msgs| - 1];
      FreshLookup(init, sid);
      AssignLookup(FreshSends(init), msgs[|msgs| - 1].id, SendState(Begin, 0), sid);
      assert MsgIds(msgs) == MsgIds(init) + [msgs[|msgs| - 1].id];
    }
  }

  lemma {:induction false} FreshDistinct(msgs: seq<SendMessage>)
    ensures DistinctKeys(FreshSends(msgs))
    decreases |msgs|
  {
    if msgs != [] {
      FreshDistinct(msgs[..|msgs| - 1]);
      AssignDistinct(FreshSends(msgs[..|msgs| - 1]), msgs[|msgs| - 1].id, SendState(Begin, 0));
    }
  }

  lemma {:induction false} SendValid(m: Machine, id: MessageId, msgs: seq<SendMessage>)
    requires Valid(m) && SendSpec(m, id, msgs).Ok?
    ensures Valid(SendSpec(m, id, msgs).value)
  {
    var m' := SendSpec(m, id, msgs).value;
    var e := Lookup(m.entries, id).value;
    var e' := e.(status := Send, sends := FreshSends(msgs));
    CountsAssign(m, id, e');
    RegisterLookup(m.sends, id, msgs, "");
    FreshDistinct(msgs);
    forall k | Lookup(m'.entries, k).Some? ensures DistinctKeys(Lookup(m'.entries, k).value.sends) {
      AssignLookup(m.entries, id, e', k);
    }
    forall sid | Lookup(m'.sends, sid).Some?
      ensures SendCovered(m'.entries, sid, Lookup(m'.sends, sid).value.0)
    {
      RegisterLookup(m.sends, id, msgs, sid);
      var p := Lookup(m'.sends, sid).value.0;
      AssignLookup(m.entries, id, e', p);
      if sid in MsgIds(msgs) {
        FreshLookup(msgs, sid);
      } else {
        assert SendCovered(m.entries, sid, p);
      }
    }
  }

  /** `_check_parent_send_state` and the child lookup never fail. */
  lemma {:induction false} ParentFound(m: Machine, id: MessageId)
    requires Valid(m)
    ensures ParentOf(m, id).Ok? <==> Lookup(m.sends, id).Some?
    ensures ParentOf(m, id).Err? ==> ParentOf(m, id).error == MessageNotExists
    ensures ParentOf(m, id).Ok? ==> ParentOf(m, id).value.0 == Lookup(m.sends, id).value.0
  {
    if Lookup(m.sends, id).Some? {
      assert SendCovered(m.entries, id, Lookup(m.sends, id).value.0);
    }
  }

  /** Rewriting the children of a parent in SEND without dropping any keeps
      the invariant. */
  lemma {:induction false} ChildrenValid(m: Machine, parent: MessageId, pe: Entry, children: seq<(MessageId, SendState)>)
    requires Valid(m) && Lookup(m.entries, parent) == Some(pe) && pe.status == Send
    requires forall sid :: Lookup(pe.sends, sid).Some? ==> Lookup(children, sid).Some?
    requires DistinctKeys(children)
    ensures Valid(m.(entries := Assign(m.entries, parent, pe.(sends := children))))
  {
    var e' := pe.(sends := children);
    var m' := m.(entries := Assign(m.entries, parent, e'));
    CountsAssign(m, parent, e');
    forall k | Lookup(m'.entries, k).Some? ensures DistinctKeys(Lookup(m'.entries, k).value.sends) {
      AssignLookup(m.entries, parent, e', k);
    }
    forall sid | Lookup(m'.sends, sid).Some?
      ensures SendCovered(m'.entries, sid, Lookup(m'.sends, sid).value.0)
    {
      var p := Lookup(m.sends, sid).value.0;
      assert SendCovered(m.entries, sid, p);
      AssignLookup(m.entries, parent, e', p);
    }
  }

  lemma {:induction false} AckValid(m: Machine, maxDone: int, id: MessageId, status: Status)
    requires Valid(m) && AckSpec(m, maxDone, id, status).Ok?
    ensures Valid(AckSpec(m, maxDone, id, status).value.0)
  {
    var (parent, pe, ss) := ParentOf(m, id).value;
    var children := Assign(pe.sends, id, ss.(status := status));
    forall sid | Lookup(pe.sends, sid).Some? ensures Lookup(children, sid).Some? {
      AssignLookup(pe.sends, id, ss.(status := status), sid);
    }
    AssignDistinct(pe.sends, id, ss.(status := status));
    ChildrenValid(m, parent, pe, children);
    var m1 := m.(entries := Assign(m.entries, parent, pe.(sends := children)));
    if status == ErrorNotry || (status == Success && AllOk(children)) {
      DoneValid(m1, maxDone, parent, status);
    } else if status == Success {
      RemoveDistinct(m1.sends, id);
      forall sid | Lookup(Remove(m1.sends, id), sid).Some?
        ensures SendCovered(m1.entries, sid, Lookup(Remove(m1.sends, id), sid).value.0)
      {
        RemoveLookup(m1.sends, id, sid);
      }
    }
  }

  lemma {:induction false} RetryValid(m: Machine, id: MessageId)
    requires Valid(m) && RetrySpec(m, id).Ok?
    ensures Valid(RetrySpec(m, id).value)
  {
    var (parent, pe, ss) := ParentOf(m, id).value;
    var children := Assign(pe.sends, id, ss.(count := ss.count + 1));
    forall sid | Lookup(pe.sends, sid).Some? ensures Lookup(children, sid).Some? {
      AssignLookup(pe.sends, id, ss.(count := ss.count + 1), sid);
    }
    AssignDistinct(pe.sends, id, ss.(count := ss.count + 1));
    ChildrenValid(m, parent, pe, children);
  }

  lemma {:induction false} RestartValid(m: Machine)
    requires Valid(m)
    ensures Valid(RestartSpec(m))
  {
    var ids := KeysWhere(m.entries, IsBeginEntry);
    KeysWhereFacts(m.entries, IsBeginEntry);
    CountRemoveAll(m.entries, ids, IsBeginEntry, IsSendEntry);
    CountRemoveAll(m.entries, ids, IsBeginEntry, IsDoneEntry);
    RemoveAllDistinct(m.entries, ids);
    var m' := RestartSpec(m);
    forall k | Lookup(m'.entries, k).Some? ensures DistinctKeys(Lookup(m'.entries, k).value.sends) {
      RemoveAllLookup(m.entries, ids, k);
    }
    forall sid | Lookup(m'.sends, sid).Some?
      ensures SendCovered(m'.entries, sid, Lookup(m'.sends, sid).value.0)
    {
      var p := Lookup(m.sends, sid).value.0;
      assert SendCovered(m.entries, sid, p);
      RemoveAllLookup(m.entries, ids, p);
      assert p !in ids by {
        assert forall i :: 0 <= i < |ids| ==> ids[i] != p;
      }
    }
  }

  // ---- what the transitions promise ---------------------------------------------------

  lemma {:induction false} StatusesPartition(es: seq<(MessageId, Entry)>)
    ensures Count(es, IsBeginEntry) + Count(es, IsSendEntry) + Count(es, IsDoneEntry) == |es|
  {
    if es != [] {
      StatusesPartition(es[1..]);
    }
  }

  /** `_check_num_messages`: the three counters add up to the number of
      messages in every valid state, so the assertion never fails. */
  lemma {:induction false} CountersAddUp(m: Machine)
    requires Valid(m)
    ensures m.numBegin + m.numSend + m.numDone == |m.entries|
  {
    StatusesPartition(m.entries);
  }

  /** Compaction keeps at most `maxDone` done messages, evicts the oldest
      ones, and leaves every other message as it was. */
  lemma {:induction false} CompactKeepsNewest(m: Machine, maxDone: int, k: MessageId)
    requires Valid(m) && maxDone >= 0
    ensures var c := Compact(m, maxDone);
      c.numDone == (if m.numDone <= maxDone then m.numDone else maxDone) &&
      KeysWhere(c.entries, IsDoneEntry) == KeysWhere(m.entries, IsDoneEntry)[m.numDone - c.numDone..]
    ensures var c := Compact(m, maxDone);
      (Lookup(m.entries, k).Some? && !IsDoneEntry(Lookup(m.entries, k).value) ==> Lookup(c.entries, k) == Lookup(m.entries, k)) &&
      (Lookup(c.entries, k).Some? ==> Lookup(c.entries, k) == Lookup(m.entries, k))
  {
    CompactDone(m, maxDone);
    CompactOthers(m, maxDone, k);
  }

  /** The done messages that compaction keeps are the newest ones. */
  lemma {:induction false} CompactDone(m: Machine, maxDone: int)
    requires Valid(m) && maxDone >= 0
    ensures var c := Compact(m, maxDone);
      c.numDone == (if m.numDone <= maxDone then m.numDone else maxDone) &&
      KeysWhere(c.entries, IsDoneEntry) == KeysWhere(m.entries, IsDoneEntry)[m.numDone - c.numDone..]
  {
    var skip := m.numDone - maxDone;
    KeysWhereFacts(m.entries, IsDoneEntry);
    if skip > 0 {
      var ids := OldestDone(m, skip);
      OldestDoneFacts(m, skip);
      KeysWhereRemovePrefix(m.entries, IsDoneEntry, |ids|);
    }
  }

  /** Compaction removes only done messages and changes none. */
  lemma {:induction false} CompactOthers(m: Machine, maxDone: int, k: MessageId)
    requires Valid(m) && maxDone >= 0
    ensures var c := Compact(m, maxDone);
      (Lookup(m.entries, k).Some? && !IsDoneEntry(Lookup(m.entries, k).value) ==> Lookup(c.entries, k) == Lookup(m.entries, k)) &&
      (Lookup(c.entries, k).Some? ==> Lookup(c.entries, k) == Lookup(m.entries, k))
  {
    var skip := m.numDone - maxDone;
    if skip > 0 {
      var ids := OldestDone(m, skip);
      OldestDoneFacts(m, skip);
      RemoveAllLookup(m.entries, ids, k);
      if Lookup(m.entries, k).Some? && !IsDoneEntry(Lookup(m.entries, k).value) {
        assert forall i :: 0 <= i < |ids| ==> ids[i] != k;
      }
    }
  }

  /** `apply_done` reports the message with its fields, marks it done with
      no children left registered, and keeps at most `maxDone` done
      messages (the message itself may be the one evicted). */
  lemma {:induction false} DoneOutcome(m: Machine, maxDone: int, id: MessageId, status: Status, sid: MessageId)
    requires Valid(m) && maxDone > 0
    requires DoneSpec(m, maxDone, id, status).Ok?
    ensures var (m', info) := DoneSpec(m, maxDone, id, status).value;
      var found := Lookup(m.entries, id);
      info == DoneInfo(id, status, if found.Some? then found.value.message else None) &&
      m'.numDone <= maxDone &&
      (Lookup(m'.entries, id).Some? ==> Lookup(m'.entries, id).value == Entry(status, info.message, [])) &&
      (found.Some? && Lookup(found.value.sends, sid).Some? ==> Lookup(m'.sends, sid).None?)
  {
    var (m1, info) := MarkDone(m, id, status);
    var found := Lookup(m.entries, id);
    var e := if found.Some? then found.value else Entry(status, None, []);
    MarkDoneValid(m, id, status);
    CompactKeepsNewest(m1, maxDone, id);
    AssignLookup(m.entries, id, Entry(status, e.message, []), id);
    RemoveAllLookup(m.sends, KeyList(e.sends), sid);
    if found.Some? && Lookup(found.value.sends, sid).Some? {
      LookupKeyList(found.value.sends, sid);
    }
  }

  /** A message that is done cannot be done again. */
  lemma {:induction false} DoneTwice(m: Machine, maxDone: int, id: MessageId, status: Status, again: Status)
    requires Valid(m) && maxDone > 0 && IsDone(again)
    requires DoneSpec(m, maxDone, id, status).Ok?
    requires Lookup(DoneSpec(m, maxDone, id, status).value.0.entries, id).Some?
    ensures DoneSpec(DoneSpec(m, maxDone, id, status).value.0, maxDone, id, again) == Err(AlreadyDone)
  {
    DoneOutcome(m, maxDone, id, status, id);
  }

  /** `apply_begin` refuses a message already present unless it ended in
      ERROR or ERROR_NOTRY, then refuses when too many are pending, and
      otherwise records the message as BEGIN, replacing an earlier entry in
      place. */
  lemma {:induction false} BeginOutcome(m: Machine, maxPending: int, id: MessageId, info: MessageInfo, k: MessageId)
    requires Valid(m)
    ensures var found := Lookup(m.entries, id);
      var dup := found.Some? && found.value.status != Error && found.value.status != ErrorNotry;
      (BeginSpec(m, maxPending, id, info) == Err(DuplicateMessage) <==> dup) &&
      (BeginSpec(m, maxPending, id, info) == Err(TooManyMessages) <==> !dup && m.numBegin + m.numSend > maxPending)
    ensures BeginSpec(m, maxPending, id, info).Ok? ==>
      var m' := BeginSpec(m, maxPending, id, info).value;
      Lookup(m'.entries, k) == (if k == id then Some(Entry(Begin, Some(info), [])) else Lookup(m.entries, k)) &&
      m'.sends == m.sends && m'.numBegin == m.numBegin + 1 && |m'.entries| == m'.numBegin + m'.numSend + m'.numDone
  {
    if BeginSpec(m, maxPending, id, info).Ok? {
      AssignLookup(m.entries, id, Entry(Begin, Some(info), []), k);
      BeginValid(m, maxPending, id, info);
      CountersAddUp(BeginSpec(m, maxPending, id, info).value);
    }
  }

  /** `apply_send` moves the message from the BEGIN count to the SEND
      count, starts every child in BEGIN with no retries, and registers
      every child under the message. */
  lemma {:induction false} SendOutcome(m: Machine, id: MessageId, msgs: seq<SendMessage>, sid: MessageId)
    requires Valid(m) && SendSpec(m, id, msgs).Ok?
    ensures var m' := SendSpec(m, id, msgs).value;
      m'.numBegin == m.numBegin - 1 && m'.numSend == m.numSend + 1 && m'.numDone == m.numDone &&
      Lookup(m'.entries, id).Some? && Lookup(m'.entries, id).value.status == Send &&
      Lookup(Lookup(m'.entries, id).value.sends, sid) == (if sid in MsgIds(msgs) then Some(SendState(Begin, 0)) else None) &&
      (sid in MsgIds(msgs) ==> Lookup(m'.sends, sid).Some? && Lookup(m'.sends, sid).value.0 == id) &&
      (sid !in MsgIds(msgs) ==> Lookup(m'.sends, sid) == Lookup(m.sends, sid))
  {
    var e := Lookup(m.entries, id).value;
    AssignLookup(m.entries, id, e.(status := Send, sends := FreshSends(msgs)), id);
    FreshLookup(msgs, sid);
    RegisterLookup(m.sends, id, msgs, sid);
  }

  /** Every child other than `id` is acked OK. */
  predicate OthersOk(sends: seq<(MessageId, SendState)>, id: MessageId) {
    forall i :: 0 <= i < |sends| && sends[i].0 != id ==> sends[i].1.status == Success
  }

  lemma {:induction false} AllOkCons(e: (MessageId, SendState), t: seq<(MessageId, SendState)>, id: MessageId)
    ensures AllOk([e] + t) <==> e.1.status == Success && AllOk(t)
    ensures OthersOk([e] + t, id) <==> (e.0 != id ==> e.1.status == Success) && OthersOk(t, id)
  {
    var r := [e] + t;
    assert r[0] == e;
    assert forall i :: 0 <= i < |t| ==> t[i] == r[i + 1];
    if e.1.status == Success && AllOk(t) {
      forall i | 0 <= i < |r| ensures r[i].1.status == Success {
        if i > 0 {
          assert r[i] == t[i - 1];
        }
      }
    }
    if (e.0 != id ==> e.1.status == Success) && OthersOk(t, id) {
      forall i | 0 <= i < |r| && r[i].0 != id ensures r[i].1.status == Success {
        if i > 0 {
          assert r[i] == t[i - 1];
        }
      }
    }
  }

  lemma {:induction false} AllOkAssign(s: seq<(MessageId, SendState)>, id: MessageId, x: SendState)
    requires DistinctKeys(s) && Lookup(s, id).Some?
    ensures AllOk(Assign(s, id, x)) <==> x.status == Success && OthersOk(s, id)
  {
    assert s == [s[0]] + s[1..];
    AllOkCons(s[0], s[1..], id);
    if s[0].0 != id {
      AllOkAssign(s[1..], id, x);
      AllOkCons(s[0], Assign(s[1..], id, x), id);
    } else {
      AllOkCons((id, x), s[1..], id);
      LookupNone(s[1..], id);
      assert OthersOk(s[1..], id) <==> AllOk(s[1..]);
    }
  }

  /** `apply_ack` on a registered child: ERROR_NOTRY completes the parent
      as ERROR_NOTRY; OK completes it as OK when every other child is OK
      already, and otherwise only unregisters the child; ERROR records the
      status and nothing more. */
  lemma {:induction false} AckOutcome(m: Machine, maxDone: int, id: MessageId, status: Status)
    requires Valid(m) && maxDone > 0 && IsDone(status) && Lookup(m.sends, id).Some?
    ensures AckSpec(m, maxDone, id, status).Ok?
    ensures var parent := Lookup(m.sends, id).value.0;
      var pe := Lookup(m.entries, parent).value;
      var (m', done) := AckSpec(m, maxDone, id, status).value;
      (status == ErrorNotry ==> done == Some(DoneInfo(parent, ErrorNotry, pe.message))) &&
      (status == Success && OthersOk(pe.sends, id) ==> done == Some(DoneInfo(parent, Success, pe.message))) &&
      (status == Success && !OthersOk(pe.sends, id) ==>
        done == None && m'.sends == Remove(m.sends, id) &&
        Lookup(m'.entries, parent).Some? && Lookup(m'.entries, parent).value.status == Send &&
        Lookup(Lookup(m'.entries, parent).value.sends, id) == Some(Lookup(pe.sends, id).value.(status := Success))) &&
      (status == Error ==>
        done == None && m'.sends == m.sends &&
        Lookup(m'.entries, parent).Some? &&
        Lookup(Lookup(m'.entries, parent).value.sends, id) == Some(Lookup(pe.sends, id).value.(status := Error)))
  {
    ParentFound(m, id);
    var (parent, pe, ss) := ParentOf(m, id).value;
    var children := Assign(pe.sends, id, ss.(status := status));
    forall sid | Lookup(pe.sends, sid).Some? ensures Lookup(children, sid).Some? {
      AssignLookup(pe.sends, id, ss.(status := status), sid);
    }
    AssignDistinct(pe.sends, id, ss.(status := status));
    ChildrenValid(m, parent, pe, children);
    AssignLookup(pe.sends, id, ss.(status := status), id);
    var m1 := m.(entries := Assign(m.entries, parent, pe.(sends := children)));
    AssignLookup(m.entries, parent, pe.(sends := children), parent);
    AllOkAssign(pe.sends, id, ss.(status := status));
    if status == ErrorNotry || (status == Success && AllOk(children)) {
      DoneOutcome(m1, maxDone, parent, status, id);
    }
  }

  /** `apply_retry` on a registered child adds one to its count and
      changes nothing else. */
  lemma {:induction false} RetryOutcome(m: Machine, id: MessageId, k: MessageId, sid: MessageId)
    requires Valid(m) && Lookup(m.sends, id).Some?
    ensures RetrySpec(m, id).Ok?
    ensures var parent := Lookup(m.sends, id).value.0;
      var pe := Lookup(m.entries, parent).value;
      var ss := Lookup(pe.sends, id).value;
      var m' := RetrySpec(m, id).value;
      m'.sends == m.sends && m'.numBegin == m.numBegin && m'.numSend == m.numSend && m'.numDone == m.numDone &&
      (k != parent ==> Lookup(m'.entries, k) == Lookup(m.entries, k)) &&
      Lookup(m'.entries, parent).Some? &&
      Lookup(m'.entries, parent).value.status == pe.status &&
      Lookup(m'.entries, parent).value.message == pe.message &&
      Lookup(Lookup(m'.entries, parent).value.sends, sid) ==
        (if sid == id then Some(ss.(count := ss.count + 1)) else Lookup(pe.sends, sid))
  {
    ParentFound(m, id);
    var (parent, pe, ss) := ParentOf(m, id).value;
    var children := Assign(pe.sends, id, ss.(count := ss.count + 1));
    AssignLookup(m.entries, parent, pe.(sends := children), k);
    AssignLookup(m.entries, parent, pe.(sends := children), parent);
    AssignLookup(pe.sends, id, ss.(count := ss.count + 1), sid);
  }

  /** `apply_restart` deletes exactly the messages in BEGIN. */
  lemma {:induction false} RestartOutcome(m: Machine, k: MessageId)
    requires Valid(m)
    ensures var m' := RestartSpec(m);
      m'.numBegin == 0 && Count(m'.entries, IsBeginEntry) == 0 &&
      m'.sends == m.sends && m'.numSend == m.numSend && m'.numDone == m.numDone &&
      Lookup(m'.entries, k) ==
        (if Lookup(m.entries, k).Some? && Lookup(m.entries, k).value.status == Begin then None else Lookup(m.entries, k))
  {
    var ids := KeysWhere(m.entries, IsBeginEntry);
    KeysWhereFacts(m.entries, IsBeginEntry);
    RemoveAllLookup(m.entries, ids, k);
    RestartValid(m);
    if Lookup(m.entries, k).Some? && Lookup(m.entries, k).value.status != Begin {
      assert forall i :: 0 <= i < |ids| ==> ids[i] != k;
    }
  }

  // ---- the state object ---------------------------------------------------------------

  datatype LimitError = InvalidMaxPendingSize | InvalidMaxDoneSize

  /** The checks of the constructor: both limits must be given and positive. */
  function LimitsCheck(maxPending: Option<int>, maxDone: Option<int>): (r: Option<LimitError>)
    ensures r.None? <==> maxPending.Some? && maxPending.value > 0 && maxDone.Some? && maxDone.value > 0
    ensures r == Some(InvalidMaxDoneSize) ==> maxPending.Some? && maxPending.value > 0
  {
    if maxPending.None? || maxPending.value <= 0 then Some(InvalidMaxPendingSize)
    else if maxDone.None? || maxDone.value <= 0 then Some(InvalidMaxDoneSize)
    else None
  }

  /** `ActorState` of `actorlib/state.py`. */
  class ActorState {
    const maxPendingSize: int
    const maxDoneSize: int
    var entries: seq<(MessageId, Entry)>
    var sendMessages: seq<(MessageId, (MessageId, SendMessage))>
    var numBegin: int
    var numSend: int
    var numDone: int

    function Current(): Machine
      reads this
    {
      Machine(entries, sendMessages, numBegin, numSend, numDone)
    }

    ghost predicate Inv()
      reads this
    {
      maxPendingSize > 0 && maxDoneSize > 0 && Valid(Current())
    }

    constructor(maxPending: int, maxDone: int)
      requires LimitsCheck(Some(maxPending), Some(maxDone)).None?
      ensures Inv() && Current() == Empty
      ensures maxPendingSize == maxPending && maxDoneSize == maxDone
    {
      maxPendingSize := maxPending;
      maxDoneSize := maxDone;
      entries := [];
      sendMessages := [];
      numBegin := 0;
      numSend := 0;
      numDone := 0;
    }

    /** `apply_begin`. */
    method ApplyBegin(id: MessageId, info: MessageInfo) returns (r: Result<(), StateError>)
      requires Inv()
      modifies this
      ensures Inv()
      ensures var spec := BeginSpec(old(Current()), maxPendingSize, id, info);
        if spec.Ok? then r.Ok? && Current() == spec.value
        else r == Err(spec.error) && Current() == old(Current())
    {
      ghost var m := Current();
      var found := Lookup(entries, id);
      if found.Some? && found.value.status != Error && found.value.status != ErrorNotry {
        return Err(DuplicateMessage);
      }
      if numBegin + numSend > maxPendingSize {
        return Err(TooManyMessages);
      }
      if found.Some? {
        numDone := numDone - 1;
      }
      entries := Assign(entries, id, Entry(Begin, Some(info), []));
      numBegin := numBegin + 1;
      BeginValid(m, maxPendingSize, id, info);
      r := Ok(());
    }

    /** The first loop of `_compact_done_messages`: the ids of the oldest
        `skip` done messages, in order. */
    method CollectOldestDone(skip: int) returns (ids: seq<MessageId>)
      requires skip > 0
      ensures ids == OldestDone(Current(), skip)
    {
      ids := [];
      var left := skip;
      var i := 0;
      while i < |entries| && left > 0
        invariant 0 <= i <= |entries|
        invariant ids == KeysWhere(entries[..i], IsDoneEntry)
        invariant left == skip - |ids|
      {
        KeysWhereConcat(entries[..i], [entries[i]], IsDoneEntry);
        assert entries[..i + 1] == entries[..i] + [entries[i]];
        if IsDone(entries[i].1.status) {
          ids := ids + [entries[i].0];
          left := left - 1;
        }
        i := i + 1;
      }
      KeysWhereConcat(entries[..i], entries[i..], IsDoneEntry);
      assert entries[..i] + entries[i..] == entries;
      ghost var done := KeysWhere(entries, IsDoneEntry);
      assert done[..|ids|] == ids;
      if i == |entries| {
        assert entries[i..] == [];
      }
    }

    /** `_compact_done_messages`. */
    method CompactDone()
      requires Valid(Current()) && maxDoneSize > 0
      modifies this
      ensures Current() == Compact(old(Current()), maxDoneSize)
    {
      ghost var m := Current();
      var skip := numDone - maxDoneSize;
      if skip <= 0 {
        return;
      }
      var ids := CollectOldestDone(skip);
      for j := 0 to |ids|
        invariant RemoveAll(entries, ids[j..]) == RemoveAll(m.entries, ids)
        invariant numDone == m.numDone - j
        invariant sendMessages == m.sends && numBegin == m.numBegin && numSend == m.numSend
      {
        assert ids[j..][1..] == ids[j + 1..];
        entries := Remove(entries, ids[j]);
        numDone := numDone - 1;
      }
      assert ids[|ids|..] == [];
    }

    /** The loop of `apply_done` that pops each child of the finished
        message from the send messages. */
    method ForgetSends(children: seq<MessageId>)
      modifies this
      ensures sendMessages == RemoveAll(old(sendMessages), children)
      ensures entries == old(entries) && numBegin == old(numBegin)
      ensures numSend == old(numSend) && numDone == old(numDone)
    {
      for i := 0 to |children|
        invariant RemoveAll(sendMessages, children[i..]) == RemoveAll(old(sendMessages), children)
        invariant entries == old(entries) && numBegin == old(numBegin)
        invariant numSend == old(numSend) && numDone == old(numDone)
      {
        assert children[i..][1..] == children[i + 1..];
        sendMessages := Remove(sendMessages, children[i]);
      }
      assert children[|children|..] == [];
    }

    /** `apply_done`. */
    method ApplyDone(id: MessageId, status: Status) returns (r: Result<DoneInfo, StateError>)
      requires Inv()
      modifies this
      ensures Inv()
      ensures var spec := DoneSpec(old(Current()), maxDoneSize, id, status);
        if spec.Ok? then r == Ok(spec.value.1) && Current() == spec.value.0
        else r == Err(spec.error) && Current() == old(Current())
    {
      ghost var m := Current();
      if !IsDone(status) {
        return Err(InvalidStatus);
      }
      var found := Lookup(entries, id);
      var e := Entry(status, None, []);
      if found.Some? {
        e := found.value;
        if e.status != Begin && e.status != Send {
          return Err(AlreadyDone);
        }
        if e.status == Begin {
          numBegin := numBegin - 1;
        } else {
          numSend := numSend - 1;
        }
      }
      entries := Assign(entries, id, Entry(status, e.message, []));
      ForgetSends(KeyList(e.sends));
      numDone := numDone + 1;
      MarkDoneValid(m, id, status);
      var info := DoneInfo(id, status, e.message);
      CompactDone();
      CompactValid(MarkDone(m, id, status).0, maxDoneSize);
      r := Ok(info);
    }

    /** `apply_send`. */
    method ApplySend(id: MessageId, msgs: seq<SendMessage>) returns (r: Result<(), StateError>)
      requires Inv()
      modifies this
      ensures Inv()
      ensures var spec := SendSpec(old(Current()), id, msgs);
        if spec.Ok? then r.Ok? && Current() == spec.value
        else r == Err(spec.error) && Current() == old(Current())
    {
      ghost var m := Current();
      if msgs == [] {
        return Err(EmptySend);
      }
      var found := Lookup(entries, id);
      if found.None? {
        return Err(MessageNotExists);
      }
      if found.value.status != Begin {
        return Err(SendNotInBegin);
      }
      var children: seq<(MessageId, SendState)> := [];
      for i := 0 to |msgs|
        invariant sendMessages == Register(m.sends, id, msgs[..i])
        invariant children == FreshSends(msgs[..i])
        invariant entries == m.entries && numBegin == m.numBegin && numSend == m.numSend && numDone == m.numDone
      {
        assert msgs[..i + 1][..i] == msgs[..i];
        sendMessages := Assign(sendMessages, msgs[i].id, (id, msgs[i]));
        children := Assign(children, msgs[i].id, SendState(Begin, 0));
      }
      assert msgs[..|msgs|] == msgs;
      entries := Assign(entries, id, found.value.(status := Send, sends := children));
      numBegin := numBegin - 1;
      numSend := numSend + 1;
      SendValid(m, id, msgs);
      r := Ok(());
    }

    /** `apply_ack`. */
    method ApplyAck(id: MessageId, status: Status) returns (r: Result<Option<DoneInfo>, StateError>)
      requires Inv()
      modifies this
      ensures Inv()
      ensures var spec := AckSpec(old(Current()), maxDoneSize, id, status);
        if spec.Ok? then r == Ok(spec.value.1) && Current() == spec.value.0
        else r == Err(spec.error) && Current() == old(Current())
    {
      ghost var m := Current();
      if !IsDone(status) {
        return Err(InvalidStatus);
      }
      var reg := Lookup(sendMessages, id);
      if reg.None? {
        return Err(MessageNotExists);
      }
      var parent := reg.value.0;
      var pe := Lookup(entries, parent);
      if pe.None? || pe.value.status != Send {
        return Err(CheckFailed);
      }
      var ss := Lookup(pe.value.sends, id);
      if ss.None? {
        return Err(CheckFailed);
      }
      var children := Assign(pe.value.sends, id, ss.value.(status := status));
      forall sid | Lookup(pe.value.sends, sid).Some? ensures Lookup(children, sid).Some? {
        AssignLookup(pe.value.sends, id, ss.value.(status := status), sid);
      }
      AssignDistinct(pe.value.sends, id, ss.value.(status := status));
      ChildrenValid(m, parent, pe.value, children);
      entries := Assign(entries, parent, pe.value.(sends := children));
      if status == ErrorNotry || (status == Success && AllOk(children)) {
        var done := ApplyDone(parent, status);
        match done {
          case Ok(info) => r := Ok(Some(info));
          case Err(e) => r := Err(e);
        }
      } else if status == Success {
        RemoveDistinct(sendMessages, id);
        forall sid | Lookup(Remove(sendMessages, id), sid).Some?
          ensures SendCovered(entries, sid, Lookup(Remove(sendMessages, id), sid).value.0)
        {
          RemoveLookup(sendMessages, id, sid);
        }
        sendMessages := Remove(sendMessages, id);
        r := Ok(None);
      } else {
        r := Ok(None);
      }
    }

    /** `apply_retry`. */
    method ApplyRetry(id: MessageId) returns (r: Result<(), StateError>)
      requires Inv()
      modifies this
      ensures Inv()
      ensures var spec := RetrySpec(old(Current()), id);
        if spec.Ok? then r.Ok? && Current() == spec.value
        else r == Err(spec.error) && Current() == old(Current())
    {
      ghost var m := Current();
      var reg := Lookup(sendMessages, id);
      if reg.None? {
        return Err(MessageNotExists);
      }
      var parent := reg.value.0;
      var pe := Lookup(entries, parent);
      if pe.None? || pe.value.status != Send {
        return Err(CheckFailed);
      }
      var ss := Lookup(pe.value.sends, id);
      if ss.None? {
        return Err(CheckFailed);
      }
      entries := Assign(entries, parent, pe.value.(sends := Assign(pe.value.sends, id, ss.value.(count := ss.value.count + 1))));
      RetryValid(m, id);
      r := Ok(());
    }

    /** The first loop of `apply_restart`: the ids of the messages still in
        BEGIN, in order. */
    method CollectBegin() returns (ids: seq<MessageId>)
      ensures ids == KeysWhere(entries, IsBeginEntry)
    {
      ids := [];
      for i := 0 to |entries|
        invariant ids == KeysWhere(entries[..i], IsBeginEntry)
      {
        KeysWhereConcat(entries[..i], [entries[i]], IsBeginEntry);
        assert entries[..i + 1] == entries[..i] + [entries[i]];
        if entries[i].1.status == Begin {
          ids := ids + [entries[i].0];
        }
      }
      assert entries[..|entries|] == entries;
    }

    /** `apply_restart`. */
    method ApplyRestart()
      requires Inv()
      modifies this
      ensures Inv()
      ensures Current() == RestartSpec(old(Current()))
    {
      ghost var m := Current();
      var ids := CollectBegin();
      for j := 0 to |ids|
        invariant RemoveAll(entries, ids[j..]) == RemoveAll(m.entries, ids)
        invariant sendMessages == m.sends && numBegin == m.numBegin && numSend == m.numSend && numDone == m.numDone
      {
        assert ids[j..][1..] == ids[j + 1..];
        entries := Remove(entries, ids[j]);
      }
      assert ids[|ids|..] == [];
      numBegin := 0;
      RestartValid(m);
    }
  }
}
