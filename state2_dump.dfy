/** `ActorState.dump` of `actorlib/state2.py`: the write-ahead-log items
    that rebuild a state when applied to a fresh one. A message that is
    done but not acked yet is dumped as a bare `done` item, which a fresh
    state rejects; `DumpReplayable` dumps it as `inbox`, `execute`, `done`
    instead (the replay proof is in `StateV2Replay`). */
module StateV2Dump {
  import opened Wrappers
  import opened OrderedDict
  import opened StateV2

  // ---- the dump ---------------------------------------------------------------------------

  /** `_dump_outbox_state`: a retry for a count above zero, then the export
      and the ack that lead to the status. */
  function OutboxStateItems(m: S2, cid: MessageId, os: OutboxState): Result<seq<Item>, StateError> {
    if cid !in m.objects then Err(KeyMissing)
    else Ok(RetryItems(cid, os) + StatusItems(m, cid, os))
  }

  function RetryItems(cid: MessageId, os: OutboxState): seq<Item> {
    if os.executedCount.Some? && os.executedCount.value > 0 then [RetryItem(cid, os.executedCount)] else []
  }

  function StatusItems(m: S2, cid: MessageId, os: OutboxState): seq<Item>
    requires cid in m.objects
  {
    match os.status
    case Export => [ExportItem(cid, os.retryAt)]
    case Success => [ExportItem(cid, None)] + (if m.objects[cid].requireAck then [AckedItem(cid, Success)] else [])
    case Error => [ExportItem(cid, None), AckedItem(cid, Error)]
    case _ => []
  }

  /** The items of every outbox state, in order. */
  function OutboxItems(m: S2, outs: seq<(MessageId, OutboxState)>): Result<seq<Item>, StateError>
    decreases |outs|
  {
    if outs == [] then Ok([])
    else match OutboxStateItems(m, outs[0].0, outs[0].1)
      case Err(e) => Err(e)
      case Ok(head) =>
        match OutboxItems(m, outs[1..])
        case Err(e) => Err(e)
        case Ok(tail) => Ok(head + tail)
  }

  /** The outbox message objects, in the order of the outbox states. */
  function OutboxMessages(m: S2, outs: seq<(MessageId, OutboxState)>): (r: Result<seq<Message>, StateError>)
    ensures r.Ok? ==> |r.value| == |outs| && forall j :: 0 <= j < |outs| ==> outs[j].0 in m.objects && r.value[j] == m.objects[outs[j].0]
    ensures r.Err? ==> exists j :: 0 <= j < |outs| && outs[j].0 !in m.objects
    decreases |outs|
  {
    if outs == [] then Ok([])
    else if outs[0].0 !in m.objects then Err(KeyMissing)
    else match OutboxMessages(m, outs[1..])
      case Err(e) => Err(e)
      case Ok(tail) =>
        assert forall j :: 1 <= j < |outs| ==> outs[j] == outs[1..][j - 1];
        Ok([m.objects[outs[0].0]] + tail)
  }

  /** What `dump` yields for one message. With `replayable` set, a done
      message that is not acked yet is dumped as it was reached. */
  function EntryItems(m: S2, id: MessageId, e: MsgState, replayable: bool): Result<seq<Item>, StateError> {
    if IsFinal(e.status) then
      if e.isAcked then Ok([CompleteItem(id, Some(e.status))])
      else if !replayable then Ok([DoneItem(id, e.status)])
      else if id !in m.objects then Err(KeyMissing)
      else Ok([InboxItem(m.objects[id]), ExecuteItem(id), DoneItem(id, e.status)])
    else if e.status == Export then Ok([])
    else if id !in m.objects then Err(KeyMissing)
    else if e.status == Inbox then Ok([InboxItem(m.objects[id])])
    else if e.status == Execute then Ok([InboxItem(m.objects[id]), ExecuteItem(id)])
    else if e.outbox.None? then Err(KeyMissing)
    else match OutboxMessages(m, e.outbox.value)
      case Err(x) => Err(x)
      case Ok(msgs) =>
        match OutboxItems(m, e.outbox.value)
        case Err(x) => Err(x)
        case Ok(rest) => Ok([InboxItem(m.objects[id]), ExecuteItem(id), OutboxItem(id, msgs)] + rest)
  }

  /** The loop over the message states, in order. */
  function EntriesItems(m: S2, es: seq<(MessageId, MsgState)>, replayable: bool): Result<seq<Item>, StateError>
    decreases |es|
  {
    if es == [] then Ok([])
    else match EntryItems(m, es[0].0, es[0].1, replayable)
      case Err(x) => Err(x)
      case Ok(head) =>
        match EntriesItems(m, es[1..], replayable)
        case Err(x) => Err(x)
        case Ok(tail) => Ok(head + tail)
  }

  /** One available `notify` per upstream node of `dst`. */
  function NodeItems(dst: string, nodes: seq<string>): seq<Item>
    decreases |nodes|
  {
    if nodes == [] then [] else [NotifyItem(dst, nodes[0], true)] + NodeItems(dst, nodes[1..])
  }

  /** The loop over `upstream`. */
  function NotifyItems(up: seq<(string, seq<string>)>): seq<Item>
    decreases |up|
  {
    if up == [] then [] else NodeItems(up[0].0, up[0].1) + NotifyItems(up[1..])
  }

  function DumpWith(m: S2, replayable: bool): Result<seq<Item>, StateError> {
    match EntriesItems(m, m.state, replayable)
    case Err(x) => Err(x)
    case Ok(items) => Ok(items + NotifyItems(m.upstream))
  }

  /** `dump()` as written; a message object it needs and does not find
      raises `KeyError`. */
  function Dump(m: S2): Result<seq<Item>, StateError> {
    DumpWith(m, false)
  }

  /** `dump()` with a done message that waits for its ack dumped as
      `inbox`, `execute`, `done`. */
  function DumpReplayable(m: S2): Result<seq<Item>, StateError> {
    DumpWith(m, true)
  }

  // ---- a done message that waits for its ack -----------------------------------------------

  const Waiting := Message("a", "src", "node", "dst", None, 0, true, None, true)

  /** A message that needs an ack, executed and done: the state is
      reached without error, `dump` gives a lone `done` item, and a fresh
      state rejects that item because it does not know the message. */
  lemma {:induction false} DoneNotReplayable()
    ensures var done := Replay(Fresh, [InboxItem(Waiting), ExecuteItem("a"), DoneItem("a", Success)]);
      done.error.None? &&
      Dump(done.s) == Ok([DoneItem("a", Success)]) &&
      Replay(Fresh, [DoneItem("a", Success)]) == Failed(Fresh, MessageNotExists)
  {
    var items := [InboxItem(Waiting), ExecuteItem("a"), DoneItem("a", Success)];
    var s1 := InboxSpec(Fresh, Waiting).s;
    assert s1 == S2([("a", MsgState(Inbox, false, None))], map["a" := Waiting], map[], []);
    var s2 := ExecuteSpec(s1, "a").s;
    assert s2 == s1.(state := [("a", MsgState(Execute, false, None))], objects := map["a" := Meta(Waiting)]);
    var s3 := DoneSpec(s2, "a", Success);
    assert s3.error.None?;
    assert s3.s.state == [("a", MsgState(Success, false, None))];
    assert items[1..][1..][1..] == [];
    assert Replay(s2, items[1..][1..]) == s3;
    assert Replay(s1, items[1..]) == s3;
    assert Replay(Fresh, items) == s3;
    assert s3.s.state[1..] == [];
    assert EntryItems(s3.s, "a", MsgState(Success, false, None), false) == Ok([DoneItem("a", Success)]);
    assert EntriesItems(s3.s, s3.s.state, false) == Ok([DoneItem("a", Success)] + []);
    assert s3.s.upstream == [];
    assert NotifyItems(s3.s.upstream) == [];
    var es := EntriesItems(s3.s, s3.s.state, false);
    assert es.Ok? && es.value == [DoneItem("a", Success)];
    assert DumpWith(s3.s, false) == Ok(es.value + NotifyItems(s3.s.upstream));
  }
}
