/** Replaying `DumpReplayable` on a fresh state rebuilds the state: the
    message states in order, the objects every message state needs, the
    done ids and the upstream nodes. */
module StateV2Replay {
  import opened Wrappers
  import opened OrderedDict
  import opened StateV2
  import opened StateV2Dump

  // ---- what a replay needs -----------------------------------------------------------------

  /** An outbox state of the shape a replay rebuilds: the object is there,
      under its own id, naming the parent; OUTBOX, EXPORT and ERROR keep a
      count of zero or more; an outbox message waiting for an ack or acked
      ERROR needs an ack; one acked OK is the bare `{status: OK}` and its
      object is reduced to its meta. */
  predicate ValidChild(m: S2, pid: MessageId, k: MessageId, os: OutboxState) {
    k in m.objects && m.objects[k].id == k && m.objects[k].parentId == Some(pid) &&
    match os.status
    case Outbox => os.executedCount.Some? && os.executedCount.value >= 0 && os.retryAt.None?
    case Export => os.executedCount.Some? && os.executedCount.value >= 0 && m.objects[k].requireAck
    case Error => os.executedCount.Some? && os.executedCount.value >= 0 && os.retryAt.None? && m.objects[k].requireAck
    case Success => os == OutboxState(Success, None, None) && !m.objects[k].hasContent
    case _ => false
  }

  /** A message state of the shape a replay rebuilds: a completed message keeps
      no outbox states; every other one has its object under its own id,
      reduced to its meta once executed, is not acked, and has outbox states
      exactly in OUTBOX, at least one of them not OK yet; a done message
      that is not acked needs an ack, since one that does not is acked at
      once. */
  predicate ValidEntry(m: S2, id: MessageId, e: MsgState) {
    e.status != Export &&
    (IsFinal(e.status) ==>
      e.outbox.None? &&
      (!e.isAcked ==> id in m.objects && m.objects[id].id == id && !m.objects[id].hasContent && m.objects[id].requireAck)) &&
    (!IsFinal(e.status) ==>
      !e.isAcked && id in m.objects && m.objects[id].id == id &&
      (e.status != Inbox ==> !m.objects[id].hasContent) &&
      (e.status != Outbox ==> e.outbox.None?) &&
      (e.status == Outbox ==>
        e.outbox.Some? && e.outbox.value != [] && DistinctKeys(e.outbox.value) && !AllOk(e.outbox.value) &&
        forall j :: 0 <= j < |e.outbox.value| ==> ValidChild(m, id, e.outbox.value[j].0, e.outbox.value[j].1)))
  }

  /** The ids whose objects a replay of one message sets. */
  function TrackedIds(id: MessageId, e: MsgState): seq<MessageId> {
    if IsFinal(e.status) && e.isAcked then []
    else [id] + (if e.status == Outbox && e.outbox.Some? then KeyList(e.outbox.value) else [])
  }

  predicate Separate(a: seq<MessageId>, b: seq<MessageId>) {
    forall t :: t in a ==> t !in b
  }

  /** The message at position `j` is done, waits for its ack, and came
      from `node` for `dst`. */
  predicate WaitingAt(m: S2, j: nat, dst: string, node: string)
    requires j < |m.state|
  {
    Waits(m, m.state[j].0, m.state[j].1, dst, node)
  }

  predicate Waits(m: S2, id: MessageId, e: MsgState, dst: string, node: string) {
    IsFinal(e.status) && !e.isAcked && id in m.objects && m.objects[id].dst == dst && m.objects[id].srcNode == node
  }

  /** The ids of the first `i` messages that wait for their ack. */
  function WaitingIds(m: S2, i: nat, dst: string, node: string): set<MessageId> {
    set j | 0 <= j < i && j < |m.state| && WaitingAt(m, j, dst, node) :: m.state[j].0
  }

  /** A state `dump` and a replay agree on: message ids are distinct, each
      message state has the shape above, no object id is needed twice,
      `done_message_ids` holds exactly the done messages waiting for their
      ack, and every `dst` appears once in `upstream`. */
  ghost predicate Valid(m: S2) {
    DistinctKeys(m.state) &&
    (forall i :: 0 <= i < |m.state| ==>
      ValidEntry(m, m.state[i].0, m.state[i].1) && Unique(TrackedIds(m.state[i].0, m.state[i].1))) &&
    (forall i, j :: 0 <= i < j < |m.state| ==>
      Separate(TrackedIds(m.state[i].0, m.state[i].1), TrackedIds(m.state[j].0, m.state[j].1))) &&
    (forall dst, node :: DoneAt(m.doneIds, dst, node) == WaitingIds(m, |m.state|, dst, node)) &&
    DistinctKeys(m.upstream)
  }

  predicate Agrees(a: map<MessageId, Message>, b: map<MessageId, Message>, ids: seq<MessageId>) {
    forall t :: t in ids ==> t in a && t in b && a[t] == b[t]
  }

  /** `r` is what replaying the dump of the first `i` messages of `m` gives. */
  ghost predicate Rebuilt(r: S2, m: S2, i: nat) {
    i <= |m.state| && r.state == m.state[..i] && r.upstream == [] &&
    (forall j :: 0 <= j < i ==> Agrees(r.objects, m.objects, TrackedIds(m.state[j].0, m.state[j].1))) &&
    (forall dst, node :: DoneAt(r.doneIds, dst, node) == WaitingIds(m, i, dst, node))
  }

  // ---- replay steps ---------------------------------------------------------------------

  lemma {:induction false} ReplayConcat(m: S2, a: seq<Item>, b: seq<Item>)
    ensures Replay(m, a + b) ==
      if Replay(m, a).error.Some? then Replay(m, a) else Replay(Replay(m, a).s, b)
    decreases |a|
  {
    if a == [] {
      assert a + b == b;
    } else {
      assert (a + b)[0] == a[0];
      assert (a + b)[1..] == a[1..] + b;
      var x := Apply(m, a[0]);
      if x.error.None? {
        ReplayConcat(x.s, a[1..], b);
      }
    }
  }

  lemma {:induction false} ReplayOne(m: S2, x: Item)
    ensures Replay(m, [x]) == Apply(m, x)
  {
    assert [x][1..] == [];
  }

  /** A key that is not there yet goes last, and a second write keeps it
      there. */
  lemma {:induction false} AppendedAssign<V>(p: seq<(MessageId, V)>, k: MessageId, v: V, w: V)
    requires Lookup(p, k).None?
    ensures Assign(p, k, v) == p + [(k, v)]
    ensures Lookup(p + [(k, v)], k) == Some(v)
    ensures Assign(p + [(k, v)], k, w) == p + [(k, w)]
  {
    AssignShape(p, k, v);
    AssignShape(p, k, w);
    AssignTwice(p, k, v, w);
    LookupAppend(p, (k, v), k);
  }

  const Untouched := OutboxState(Outbox, Some(0), None)

  /** The outbox states while the `j`-th outbox message is replayed: the
      earlier ones as in `outs`, the others as `apply_outbox` left them. */
  function Working(outs: seq<(MessageId, OutboxState)>, j: nat): (r: seq<(MessageId, OutboxState)>)
    ensures |r| == |outs|
    ensures forall t :: 0 <= t < |outs| ==> r[t] == if t < j then outs[t] else (outs[t].0, Untouched)
  {
    seq(|outs|, t requires 0 <= t < |outs| => if t < j then outs[t] else (outs[t].0, Untouched))
  }

  /** The state while a message's outbox states are replayed. */
  function InPhase(b: S2, p: seq<(MessageId, MsgState)>, pid: MessageId, o: seq<(MessageId, OutboxState)>): S2 {
    b.(state := p + [(pid, MsgState(Outbox, false, Some(o)))])
  }

  /** Keys that stay where they are stay distinct. */
  lemma {:induction false} SameKeys<V>(a: seq<(MessageId, V)>, b: seq<(MessageId, V)>)
    requires DistinctKeys(a) && |a| == |b|
    requires forall t :: 0 <= t < |a| ==> a[t].0 == b[t].0
    ensures DistinctKeys(b)
  {
  }

  lemma {:induction false} WorkingKeys(outs: seq<(MessageId, OutboxState)>, j: nat)
    requires DistinctKeys(outs)
    ensures DistinctKeys(Working(outs, j))
    ensures j < |outs| ==> Working(outs, j)[j := (outs[j].0, outs[j].1)] == Working(outs, j + 1)
    ensures j >= |outs| ==> Working(outs, j) == outs
  {
    SameKeys(outs, Working(outs, j));
  }

  /** The `j`-th outbox message found through its parent, and written
      back. */
  lemma {:induction false} ChildAt(b: S2, p: seq<(MessageId, MsgState)>, pid: MessageId, o: seq<(MessageId, OutboxState)>, j: nat, os: OutboxState)
    requires Lookup(p, pid).None? && DistinctKeys(o) && j < |o|
    requires o[j].0 in b.objects && b.objects[o[j].0].id == o[j].0 && b.objects[o[j].0].parentId == Some(pid)
    ensures var q := InPhase(b, p, pid, o);
      var c := Child(b.objects[o[j].0], pid, MsgState(Outbox, false, Some(o)), o, o[j].1);
      ChildOf(q, o[j].0) == Ok(c) &&
      SetChild(q, c, os) == InPhase(b, p, pid, o[j := (o[j].0, os)])
  {
    var e := MsgState(Outbox, false, Some(o));
    AppendedAssign(p, pid, e, e.(outbox := Some(Assign(o, o[j].0, os))));
    AssignAt(o, j, os);
  }

  lemma {:induction false} ReplayTwo(m: S2, x: Item, y: Item)
    ensures Replay(m, [x, y]) ==
      if Apply(m, x).error.Some? then Apply(m, x) else Apply(Apply(m, x).s, y)
  {
    assert [x, y][1..] == [y];
    ReplayOne(Apply(m, x).s, y);
  }

  /** An OK ack of the `j`-th outbox message cannot finish the parent
      while later ones are untouched or an earlier one is not OK. */
  lemma {:induction false} NotAllOkYet(outs: seq<(MessageId, OutboxState)>, j: nat, s: OutboxState)
    requires !AllOk(outs) && j < |outs| && outs[j].1.status == Success && s.status == Success
    ensures !AllOk(Working(outs, j)[j := (outs[j].0, s)])
  {
    var w := Working(outs, j)[j := (outs[j].0, s)];
    var t :| 0 <= t < |outs| && outs[t].1.status != Success;
    if t < j {
      assert w[t] == outs[t];
    } else {
      assert w[j + 1].1 == Untouched;
    }
  }

  /** The `j`-th outbox message acked OK from EXPORT, `cnt` being its
      count. */
  lemma {:induction false} ReplayOkAck(m: S2, b: S2, p: seq<(MessageId, MsgState)>, pid: MessageId, outs: seq<(MessageId, OutboxState)>, j: nat, cnt: Option<int>)
    requires Lookup(p, pid).None? && DistinctKeys(outs) && !AllOk(outs) && j < |outs|
    requires ValidChild(m, pid, outs[j].0, outs[j].1) && outs[j].1.status == Success
    requires outs[j].0 in b.objects && b.objects[outs[j].0] == m.objects[outs[j].0]
    ensures var c := outs[j].0;
      AckedSpec(InPhase(b, p, pid, At(outs, j, OutboxState(Export, cnt, None))), c, Success) ==
      Succeeded(InPhase(b, p, pid, Working(outs, j + 1)))
  {
    var c := outs[j].0;
    var o := Working(outs, j);
    var o2 := o[j := (c, OutboxState(Export, cnt, None))];
    WorkingKeys(outs, j);
    var okState := OutboxState(Success, cnt, None);
    var q := InPhase(b, p, pid, o2);
    var cc := Child(b.objects[c], pid, MsgState(Outbox, false, Some(o2)), o2, o2[j].1);
    ChildAt(b, p, pid, o2, j, OutboxState(Success, None, None));
    AssignAt(o2, j, okState);
    NotAllOkYet(outs, j, okState);
    assert o2[j := (c, okState)] == o[j := (c, okState)];
    assert !AllOk(Assign(cc.outs, cc.msg.id, cc.state.(status := Success, retryAt := None)));
    assert AckedSpec(q, c, Success) ==
      Succeeded(SetChild(q, cc, OutboxState(Success, None, None)).(objects := q.objects[c := Meta(cc.msg)]));
    assert o2[j := (c, OutboxState(Success, None, None))] == Working(outs, j + 1);
    assert b.objects[c := Meta(b.objects[c])] == b.objects;
  }

  /** The count an outbox state has once its retry item is replayed. */
  function Retried(os: OutboxState): Option<int> {
    if os.executedCount.Some? && os.executedCount.value > 0 then os.executedCount else Some(0)
  }

  lemma {:induction false} ReplayRetry(b: S2, p: seq<(MessageId, MsgState)>, pid: MessageId, outs: seq<(MessageId, OutboxState)>, j: nat)
    requires Lookup(p, pid).None? && DistinctKeys(outs) && j < |outs|
    requires outs[j].0 in b.objects && b.objects[outs[j].0].id == outs[j].0 && b.objects[outs[j].0].parentId == Some(pid)
    ensures Replay(InPhase(b, p, pid, Working(outs, j)), RetryItems(outs[j].0, outs[j].1)) ==
      Succeeded(InPhase(b, p, pid, At(outs, j, OutboxState(Outbox, Retried(outs[j].1), None))))
  {
    var c := outs[j].0;
    var os := outs[j].1;
    var o0 := Working(outs, j);
    WorkingKeys(outs, j);
    if os.executedCount.Some? && os.executedCount.value > 0 {
      ChildAt(b, p, pid, o0, j, OutboxState(Outbox, os.executedCount, None));
      ReplayOne(InPhase(b, p, pid, o0), RetryItem(c, os.executedCount));
    } else {
      assert o0[j := (c, OutboxState(Outbox, Some(0), None))] == o0;
    }
  }

  /** One `export` of the `j`-th outbox message that needs an ack. */
  lemma {:induction false} ExportStep(b: S2, p: seq<(MessageId, MsgState)>, pid: MessageId, o: seq<(MessageId, OutboxState)>, j: nat, r: Option<int>)
    requires Lookup(p, pid).None? && DistinctKeys(o) && j < |o|
    requires o[j].0 in b.objects && b.objects[o[j].0].id == o[j].0 && b.objects[o[j].0].parentId == Some(pid)
    requires o[j].1.status == Outbox && b.objects[o[j].0].requireAck
    ensures Replay(InPhase(b, p, pid, o), [ExportItem(o[j].0, r)]) ==
      Succeeded(InPhase(b, p, pid, o[j := (o[j].0, o[j].1.(status := Export, retryAt := r))]))
  {
    ChildAt(b, p, pid, o, j, o[j].1.(status := Export, retryAt := r));
    ReplayOne(InPhase(b, p, pid, o), ExportItem(o[j].0, r));
  }

  /** One `acked` ERROR of the `j`-th outbox message. */
  lemma {:induction false} AckedErrorStep(b: S2, p: seq<(MessageId, MsgState)>, pid: MessageId, o: seq<(MessageId, OutboxState)>, j: nat)
    requires Lookup(p, pid).None? && DistinctKeys(o) && j < |o|
    requires o[j].0 in b.objects && b.objects[o[j].0].id == o[j].0 && b.objects[o[j].0].parentId == Some(pid)
    requires o[j].1.status == Export
    ensures Replay(InPhase(b, p, pid, o), [AckedItem(o[j].0, Error)]) ==
      Succeeded(InPhase(b, p, pid, o[j := (o[j].0, o[j].1.(status := Error, retryAt := None))]))
  {
    ChildAt(b, p, pid, o, j, o[j].1.(status := Error, retryAt := None));
    ReplayOne(InPhase(b, p, pid, o), AckedItem(o[j].0, Error));
  }

  /** The outbox states while the `j`-th one is at `x`. */
  function At(outs: seq<(MessageId, OutboxState)>, j: nat, x: OutboxState): seq<(MessageId, OutboxState)>
    requires j < |outs|
  {
    Working(outs, j)[j := (outs[j].0, x)]
  }

  lemma {:induction false} AtFacts(outs: seq<(MessageId, OutboxState)>, j: nat, x: OutboxState)
    requires DistinctKeys(outs) && j < |outs|
    ensures DistinctKeys(At(outs, j, x)) && |At(outs, j, x)| == |outs| && At(outs, j, x)[j] == (outs[j].0, x)
    ensures x == outs[j].1 ==> At(outs, j, x) == Working(outs, j + 1)
  {
    WorkingKeys(outs, j);
    AssignAt(Working(outs, j), j, x);
    AssignDistinct(Working(outs, j), outs[j].0, x);
  }

  lemma {:induction false} AtTwice(outs: seq<(MessageId, OutboxState)>, j: nat, x: OutboxState, y: OutboxState)
    requires j < |outs|
    ensures At(outs, j, x)[j := (outs[j].0, y)] == At(outs, j, y)
  {
  }

  /** `export` of the `j`-th outbox message while it is at `x`. */
  lemma {:induction false} ExportAt(b: S2, p: seq<(MessageId, MsgState)>, pid: MessageId, outs: seq<(MessageId, OutboxState)>, j: nat, x: OutboxState, r: Option<int>)
    requires Lookup(p, pid).None? && DistinctKeys(outs) && j < |outs|
    requires outs[j].0 in b.objects && b.objects[outs[j].0].id == outs[j].0 && b.objects[outs[j].0].parentId == Some(pid)
    requires x.status == Outbox && b.objects[outs[j].0].requireAck
    ensures Replay(InPhase(b, p, pid, At(outs, j, x)), [ExportItem(outs[j].0, r)]) ==
      Succeeded(InPhase(b, p, pid, At(outs, j, x.(status := Export, retryAt := r))))
  {
    AtFacts(outs, j, x);
    ExportStep(b, p, pid, At(outs, j, x), j, r);
    AtTwice(outs, j, x, x.(status := Export, retryAt := r));
  }

  /** `acked` ERROR of the `j`-th outbox message while it is at `x`. */
  lemma {:induction false} AckedErrorAt(b: S2, p: seq<(MessageId, MsgState)>, pid: MessageId, outs: seq<(MessageId, OutboxState)>, j: nat, x: OutboxState)
    requires Lookup(p, pid).None? && DistinctKeys(outs) && j < |outs|
    requires outs[j].0 in b.objects && b.objects[outs[j].0].id == outs[j].0 && b.objects[outs[j].0].parentId == Some(pid)
    requires x.status == Export
    ensures Replay(InPhase(b, p, pid, At(outs, j, x)), [AckedItem(outs[j].0, Error)]) ==
      Succeeded(InPhase(b, p, pid, At(outs, j, x.(status := Error, retryAt := None))))
  {
    AtFacts(outs, j, x);
    AckedErrorStep(b, p, pid, At(outs, j, x), j);
    AtTwice(outs, j, x, x.(status := Error, retryAt := None));
  }

  /** After the retry, the status items of an exported child. */
  lemma {:induction false} ReplayExported(m: S2, b: S2, p: seq<(MessageId, MsgState)>, pid: MessageId, outs: seq<(MessageId, OutboxState)>, j: nat)
    requires Lookup(p, pid).None? && DistinctKeys(outs) && !AllOk(outs) && j < |outs|
    requires ValidChild(m, pid, outs[j].0, outs[j].1)
    requires outs[j].0 in b.objects && b.objects[outs[j].0] == m.objects[outs[j].0]
    requires outs[j].1.status == Export
    ensures Replay(InPhase(b, p, pid, At(outs, j, OutboxState(Outbox, Retried(outs[j].1), None))),
        StatusItems(m, outs[j].0, outs[j].1)) ==
      Succeeded(InPhase(b, p, pid, Working(outs, j + 1)))
  {
    var x := OutboxState(Outbox, Retried(outs[j].1), None);
    ExportAt(b, p, pid, outs, j, x, outs[j].1.retryAt);
    assert x.(status := Export, retryAt := outs[j].1.retryAt) == outs[j].1;
    AtFacts(outs, j, outs[j].1);
  }

  /** Two steps that succeed one after the other. */
  lemma {:induction false} ReplayPair(q: S2, x: Item, y: Item, q1: S2, q2: S2)
    requires Replay(q, [x]) == Succeeded(q1) && Replay(q1, [y]) == Succeeded(q2)
    ensures Replay(q, [x, y]) == Succeeded(q2)
  {
    ReplayConcat(q, [x], [y]);
    assert [x] + [y] == [x, y];
  }

  /** After the retry, the export and the ERROR ack of a failed child. */
  lemma {:induction false} ReplayFailed(m: S2, b: S2, p: seq<(MessageId, MsgState)>, pid: MessageId, outs: seq<(MessageId, OutboxState)>, j: nat)
    requires Lookup(p, pid).None? && DistinctKeys(outs) && !AllOk(outs) && j < |outs|
    requires ValidChild(m, pid, outs[j].0, outs[j].1)
    requires outs[j].0 in b.objects && b.objects[outs[j].0] == m.objects[outs[j].0]
    requires outs[j].1.status == Error
    ensures Replay(InPhase(b, p, pid, At(outs, j, OutboxState(Outbox, Retried(outs[j].1), None))),
        [ExportItem(outs[j].0, None), AckedItem(outs[j].0, Error)]) ==
      Succeeded(InPhase(b, p, pid, At(outs, j, OutboxState(Error, Retried(outs[j].1), None))))
  {
    var c := outs[j].0;
    var x := OutboxState(Outbox, Retried(outs[j].1), None);
    var y := x.(status := Export, retryAt := None);
    ExportAt(b, p, pid, outs, j, x, None);
    AckedErrorAt(b, p, pid, outs, j, y);
    ReplayPair(InPhase(b, p, pid, At(outs, j, x)), ExportItem(c, None), AckedItem(c, Error),
      InPhase(b, p, pid, At(outs, j, y)), InPhase(b, p, pid, At(outs, j, y.(status := Error, retryAt := None))));
  }

  /** One `acked` OK of the `j`-th outbox message, from EXPORT with the
      count zero. */
  lemma {:induction false} AckedOkAt(m: S2, b: S2, p: seq<(MessageId, MsgState)>, pid: MessageId, outs: seq<(MessageId, OutboxState)>, j: nat)
    requires Lookup(p, pid).None? && DistinctKeys(outs) && !AllOk(outs) && j < |outs|
    requires ValidChild(m, pid, outs[j].0, outs[j].1)
    requires outs[j].0 in b.objects && b.objects[outs[j].0] == m.objects[outs[j].0]
    requires outs[j].1.status == Success
    ensures Replay(InPhase(b, p, pid, At(outs, j, OutboxState(Export, Some(0), None))), [AckedItem(outs[j].0, Success)]) ==
      Succeeded(InPhase(b, p, pid, Working(outs, j + 1)))
  {
    ReplayOkAck(m, b, p, pid, outs, j, Some(0));
    ReplayOne(InPhase(b, p, pid, At(outs, j, OutboxState(Export, Some(0), None))), AckedItem(outs[j].0, Success));
  }

  /** `export` of the `j`-th outbox message that needs no ack: it is acked
      OK at once. */
  lemma {:induction false} ExportOkAt(m: S2, b: S2, p: seq<(MessageId, MsgState)>, pid: MessageId, outs: seq<(MessageId, OutboxState)>, j: nat)
    requires Lookup(p, pid).None? && DistinctKeys(outs) && !AllOk(outs) && j < |outs|
    requires ValidChild(m, pid, outs[j].0, outs[j].1)
    requires outs[j].0 in b.objects && b.objects[outs[j].0] == m.objects[outs[j].0]
    requires outs[j].1.status == Success && !m.objects[outs[j].0].requireAck
    ensures Replay(InPhase(b, p, pid, At(outs, j, OutboxState(Outbox, Some(0), None))), [ExportItem(outs[j].0, None)]) ==
      Succeeded(InPhase(b, p, pid, Working(outs, j + 1)))
  {
    var x := OutboxState(Outbox, Some(0), None);
    var y := OutboxState(Export, Some(0), None);
    AtFacts(outs, j, x);
    ChildAt(b, p, pid, At(outs, j, x), j, y);
    AtTwice(outs, j, x, y);
    ReplayOkAck(m, b, p, pid, outs, j, Some(0));
    ReplayOne(InPhase(b, p, pid, At(outs, j, x)), ExportItem(outs[j].0, None));
  }

  /** After the retry, the status items of a succeeded child. */
  lemma {:induction false} ReplaySucceeded(m: S2, b: S2, p: seq<(MessageId, MsgState)>, pid: MessageId, outs: seq<(MessageId, OutboxState)>, j: nat)
    requires Lookup(p, pid).None? && DistinctKeys(outs) && !AllOk(outs) && j < |outs|
    requires ValidChild(m, pid, outs[j].0, outs[j].1)
    requires outs[j].0 in b.objects && b.objects[outs[j].0] == m.objects[outs[j].0]
    requires outs[j].1.status == Success
    ensures Replay(InPhase(b, p, pid, At(outs, j, OutboxState(Outbox, Retried(outs[j].1), None))),
        StatusItems(m, outs[j].0, outs[j].1)) ==
      Succeeded(InPhase(b, p, pid, Working(outs, j + 1)))
  {
    var c := outs[j].0;
    var x := OutboxState(Outbox, Some(0), None);
    if m.objects[c].requireAck {
      ExportAt(b, p, pid, outs, j, x, None);
      AckedOkAt(m, b, p, pid, outs, j);
      ReplayPair(InPhase(b, p, pid, At(outs, j, x)), ExportItem(c, None), AckedItem(c, Success),
        InPhase(b, p, pid, At(outs, j, x.(status := Export, retryAt := None))), InPhase(b, p, pid, Working(outs, j + 1)));
    } else {
      ExportOkAt(m, b, p, pid, outs, j);
    }
  }

  /** After the retry, a child still in OUTBOX has nothing more to
      replay. */
  lemma {:induction false} ReplayUntouched(m: S2, b: S2, p: seq<(MessageId, MsgState)>, pid: MessageId, outs: seq<(MessageId, OutboxState)>, j: nat)
    requires DistinctKeys(outs) && j < |outs|
    requires ValidChild(m, pid, outs[j].0, outs[j].1)
    requires outs[j].1.status == Outbox
    ensures Replay(InPhase(b, p, pid, At(outs, j, OutboxState(Outbox, Retried(outs[j].1), None))),
        StatusItems(m, outs[j].0, outs[j].1)) ==
      Succeeded(InPhase(b, p, pid, Working(outs, j + 1)))
  {
    assert StatusItems(m, outs[j].0, outs[j].1) == [];
    assert OutboxState(Outbox, Retried(outs[j].1), None) == outs[j].1;
    AtFacts(outs, j, outs[j].1);
  }

  /** After the retry, the status items of a child acked ERROR. */
  lemma {:induction false} ReplayErrored(m: S2, b: S2, p: seq<(MessageId, MsgState)>, pid: MessageId, outs: seq<(MessageId, OutboxState)>, j: nat)
    requires Lookup(p, pid).None? && DistinctKeys(outs) && !AllOk(outs) && j < |outs|
    requires ValidChild(m, pid, outs[j].0, outs[j].1)
    requires outs[j].0 in b.objects && b.objects[outs[j].0] == m.objects[outs[j].0]
    requires outs[j].1.status == Error
    ensures Replay(InPhase(b, p, pid, At(outs, j, OutboxState(Outbox, Retried(outs[j].1), None))),
        StatusItems(m, outs[j].0, outs[j].1)) ==
      Succeeded(InPhase(b, p, pid, Working(outs, j + 1)))
  {
    ReplayFailed(m, b, p, pid, outs, j);
    assert OutboxState(Error, Retried(outs[j].1), None) == outs[j].1;
    AtFacts(outs, j, outs[j].1);
  }

  lemma {:induction false} ReplayStatus(m: S2, b: S2, p: seq<(MessageId, MsgState)>, pid: MessageId, outs: seq<(MessageId, OutboxState)>, j: nat)
    requires Lookup(p, pid).None? && DistinctKeys(outs) && !AllOk(outs) && j < |outs|
    requires ValidChild(m, pid, outs[j].0, outs[j].1)
    requires outs[j].0 in b.objects && b.objects[outs[j].0] == m.objects[outs[j].0]
    ensures Replay(InPhase(b, p, pid, At(outs, j, OutboxState(Outbox, Retried(outs[j].1), None))),
        StatusItems(m, outs[j].0, outs[j].1)) ==
      Succeeded(InPhase(b, p, pid, Working(outs, j + 1)))
  {
    match outs[j].1.status {
      case Outbox => ReplayUntouched(m, b, p, pid, outs, j);
      case Export => ReplayExported(m, b, p, pid, outs, j);
      case Error => ReplayErrored(m, b, p, pid, outs, j);
      case Success => ReplaySucceeded(m, b, p, pid, outs, j);
    }
  }

  /** Replaying the items of the `j`-th outbox state restores it. */
  lemma {:induction false} ReplayChild(m: S2, b: S2, p: seq<(MessageId, MsgState)>, pid: MessageId, outs: seq<(MessageId, OutboxState)>, j: nat)
    requires Lookup(p, pid).None? && DistinctKeys(outs) && !AllOk(outs) && j < |outs|
    requires ValidChild(m, pid, outs[j].0, outs[j].1)
    requires outs[j].0 in b.objects && b.objects[outs[j].0] == m.objects[outs[j].0]
    ensures OutboxStateItems(m, outs[j].0, outs[j].1).Ok?
    ensures Replay(InPhase(b, p, pid, Working(outs, j)), OutboxStateItems(m, outs[j].0, outs[j].1).value) ==
      Succeeded(InPhase(b, p, pid, Working(outs, j + 1)))
  {
    var c := outs[j].0;
    var os := outs[j].1;
    ReplayConcat(InPhase(b, p, pid, Working(outs, j)), RetryItems(c, os), StatusItems(m, c, os));
    ReplayRetry(b, p, pid, outs, j);
    ReplayStatus(m, b, p, pid, outs, j);
  }

  /** The outbox states of one message, replayed one after another from
      the states `apply_outbox` left. */
  lemma {:induction false} ReplayChildren(m: S2, b: S2, p: seq<(MessageId, MsgState)>, pid: MessageId, outs: seq<(MessageId, OutboxState)>, j: nat)
    requires Lookup(p, pid).None? && DistinctKeys(outs) && !AllOk(outs) && j <= |outs|
    requires forall t :: 0 <= t < |outs| ==> ValidChild(m, pid, outs[t].0, outs[t].1)
    requires forall t :: 0 <= t < |outs| ==> outs[t].0 in b.objects && outs[t].0 in m.objects && b.objects[outs[t].0] == m.objects[outs[t].0]
    ensures OutboxItems(m, outs[j..]).Ok?
    ensures Replay(InPhase(b, p, pid, Working(outs, j)), OutboxItems(m, outs[j..]).value) == Succeeded(InPhase(b, p, pid, outs))
    decreases |outs| - j
  {
    if j == |outs| {
      WorkingKeys(outs, j);
      assert outs[j..] == [];
    } else {
      ReplayChild(m, b, p, pid, outs, j);
      ReplayChildren(m, b, p, pid, outs, j + 1);
      assert outs[j..][0] == outs[j];
      assert outs[j..][1..] == outs[j + 1..];
      var head := OutboxStateItems(m, outs[j].0, outs[j].1).value;
      var tail := OutboxItems(m, outs[j + 1..]).value;
      assert OutboxItems(m, outs[j..]) == Ok(head + tail);
      ReplayConcat(InPhase(b, p, pid, Working(outs, j)), head, tail);
    }
  }

  /** `apply_outbox` on the messages of `outs`, in order, leaves every
      outbox state untouched. */
  lemma {:induction false} FreshWorking(msgs: seq<Message>, outs: seq<(MessageId, OutboxState)>)
    requires |msgs| == |outs|
    requires forall i, j :: 0 <= i < j < |outs| ==> outs[i].0 != outs[j].0
    requires forall t :: 0 <= t < |outs| ==> msgs[t].id == outs[t].0
    ensures FreshOutbox(msgs) == Working(outs, 0)
    decreases |msgs|
  {
    if msgs != [] {
      var n := |msgs| - 1;
      var init := outs[..n];
      FreshWorking(msgs[..n], init);
      var w := Working(init, 0);
      LookupNone(w, outs[n].0);
      AppendedAssign(w, outs[n].0, Untouched, Untouched);
      assert w + [(outs[n].0, Untouched)] == Working(outs, 0);
    }
  }

  // ---- one message state -----------------------------------------------------------------

  lemma {:induction false} InboxStep(r: S2, obj: Message)
    requires Lookup(r.state, obj.id).None?
    ensures Replay(r, [InboxItem(obj)]) ==
      Succeeded(r.(state := r.state + [(obj.id, MsgState(Inbox, false, None))], objects := r.objects[obj.id := obj]))
  {
    ReplayOne(r, InboxItem(obj));
    AppendedAssign(r.state, obj.id, MsgState(Inbox, false, None), MsgState(Inbox, false, None));
  }

  lemma {:induction false} ExecuteStep(b: S2, p: seq<(MessageId, MsgState)>, id: MessageId)
    requires Lookup(p, id).None? && id in b.objects
    ensures Replay(b.(state := p + [(id, MsgState(Inbox, false, None))]), [ExecuteItem(id)]) ==
      Succeeded(b.(state := p + [(id, MsgState(Execute, false, None))], objects := b.objects[id := Meta(b.objects[id])]))
  {
    ReplayOne(b.(state := p + [(id, MsgState(Inbox, false, None))]), ExecuteItem(id));
    AppendedAssign(p, id, MsgState(Inbox, false, None), MsgState(Execute, false, None));
  }

  lemma {:induction false} DoneStep(b: S2, p: seq<(MessageId, MsgState)>, id: MessageId, status: Status)
    requires Lookup(p, id).None? && id in b.objects && b.objects[id].requireAck && IsFinal(status)
    ensures var msg := b.objects[id];
      Replay(b.(state := p + [(id, MsgState(Execute, false, None))]), [DoneItem(id, status)]) ==
      Succeeded(b.(state := p + [(id, MsgState(status, false, None))],
                   doneIds := WithDone(b.doneIds, msg.dst, msg.srcNode, DoneAt(b.doneIds, msg.dst, msg.srcNode) + {id})))
  {
    ReplayOne(b.(state := p + [(id, MsgState(Execute, false, None))]), DoneItem(id, status));
    AppendedAssign(p, id, MsgState(Execute, false, None), MsgState(status, false, None));
  }

  lemma {:induction false} OutboxStep(b: S2, p: seq<(MessageId, MsgState)>, id: MessageId, msgs: seq<Message>)
    requires Lookup(p, id).None? && msgs != [] && ParentsAre(msgs, id)
    ensures Replay(b.(state := p + [(id, MsgState(Execute, false, None))]), [OutboxItem(id, msgs)]) ==
      Succeeded(InPhase(b.(objects := AddObjects(b.objects, msgs)), p, id, FreshOutbox(msgs)))
  {
    ReplayOne(b.(state := p + [(id, MsgState(Execute, false, None))]), OutboxItem(id, msgs));
    AppendedAssign(p, id, MsgState(Execute, false, None), MsgState(Outbox, false, Some(FreshOutbox(msgs))));
  }

  lemma {:induction false} ReplayThen(q: S2, a: seq<Item>, b: seq<Item>, q1: S2, q2: S2)
    requires Replay(q, a) == Succeeded(q1) && Replay(q1, b) == Succeeded(q2)
    ensures Replay(q, a + b) == Succeeded(q2)
  {
    ReplayConcat(q, a, b);
  }

  /** What replaying the dump of the `i`-th message adds: its state goes
      last, the objects it needs are set and no other is changed, and it
      joins the done ids exactly when it waits for its ack. */
  ghost predicate Step(r: S2, r2: S2, m: S2, id: MessageId, e: MsgState) {
    var ids := TrackedIds(id, e);
    r2.state == r.state + [(id, e)] && r2.upstream == r.upstream &&
    Agrees(r2.objects, m.objects, ids) &&
    (forall t :: t in r.objects && t !in ids ==> t in r2.objects && r2.objects[t] == r.objects[t]) &&
    (forall dst, node :: DoneAt(r2.doneIds, dst, node) ==
      DoneAt(r.doneIds, dst, node) + (if Waits(m, id, e, dst, node) then {id} else {}))
  }

  lemma {:induction false} WaitingIdsNext(m: S2, i: nat, dst: string, node: string)
    requires i < |m.state|
    ensures WaitingIds(m, i + 1, dst, node) ==
      WaitingIds(m, i, dst, node) + (if WaitingAt(m, i, dst, node) then {m.state[i].0} else {})
  {
  }

  lemma {:induction false} Close(r: S2, r2: S2, m: S2, i: nat)
    requires Valid(m) && Rebuilt(r, m, i) && i < |m.state| && Step(r, r2, m, m.state[i].0, m.state[i].1)
    ensures Rebuilt(r2, m, i + 1)
  {
    assert m.state[..i + 1] == m.state[..i] + [m.state[i]];
    CloseObjects(r, r2, m, i);
    forall dst, node ensures DoneAt(r2.doneIds, dst, node) == WaitingIds(m, i + 1, dst, node) {
      WaitingIdsNext(m, i, dst, node);
    }
  }

  lemma {:induction false} CloseObjects(r: S2, r2: S2, m: S2, i: nat)
    requires i < |m.state|
    requires forall j :: 0 <= j < i ==> Separate(TrackedIds(m.state[j].0, m.state[j].1), TrackedIds(m.state[i].0, m.state[i].1))
    requires forall j :: 0 <= j < i ==> Agrees(r.objects, m.objects, TrackedIds(m.state[j].0, m.state[j].1))
    requires var ids := TrackedIds(m.state[i].0, m.state[i].1);
      Agrees(r2.objects, m.objects, ids) &&
      (forall t :: t in r.objects && t !in ids ==> t in r2.objects && r2.objects[t] == r.objects[t])
    ensures forall j :: 0 <= j < i + 1 ==> Agrees(r2.objects, m.objects, TrackedIds(m.state[j].0, m.state[j].1))
  {
    var ids := TrackedIds(m.state[i].0, m.state[i].1);
    forall j | 0 <= j < i ensures Agrees(r2.objects, m.objects, TrackedIds(m.state[j].0, m.state[j].1)) {
      assert Separate(TrackedIds(m.state[j].0, m.state[j].1), ids);
    }
  }

  /** What `Valid` says about the `i`-th message once the first `i` are
      rebuilt. */
  lemma {:induction false} EntryFacts(m: S2, r: S2, i: nat)
    requires Valid(m) && Rebuilt(r, m, i) && i < |m.state|
    ensures Lookup(r.state, m.state[i].0).None?
    ensures ValidEntry(m, m.state[i].0, m.state[i].1) && Unique(TrackedIds(m.state[i].0, m.state[i].1))
  {
    LookupNone(r.state, m.state[i].0);
  }

  /** `inbox` then `execute` of a message whose object is its meta. */
  lemma {:induction false} ExecuteChain(r: S2, obj: Message)
    requires Lookup(r.state, obj.id).None? && !obj.hasContent
    ensures Replay(r, [InboxItem(obj), ExecuteItem(obj.id)]) ==
      Succeeded(r.(state := r.state + [(obj.id, MsgState(Execute, false, None))], objects := r.objects[obj.id := obj]))
  {
    var r1 := r.(state := r.state + [(obj.id, MsgState(Inbox, false, None))], objects := r.objects[obj.id := obj]);
    InboxStep(r, obj);
    ExecuteStep(r1, r.state, obj.id);
    assert Meta(obj) == obj;
    ReplayThen(r, [InboxItem(obj)], [ExecuteItem(obj.id)], r1,
      r.(state := r.state + [(obj.id, MsgState(Execute, false, None))], objects := r.objects[obj.id := obj]));
  }

  /** ... then `done` of a message that needs an ack. */
  lemma {:induction false} DoneChain(r: S2, obj: Message, status: Status)
    requires Lookup(r.state, obj.id).None? && !obj.hasContent && obj.requireAck && IsFinal(status)
    ensures Replay(r, [InboxItem(obj), ExecuteItem(obj.id), DoneItem(obj.id, status)]) ==
      Succeeded(r.(state := r.state + [(obj.id, MsgState(status, false, None))], objects := r.objects[obj.id := obj],
                   doneIds := WithDone(r.doneIds, obj.dst, obj.srcNode, DoneAt(r.doneIds, obj.dst, obj.srcNode) + {obj.id})))
  {
    var r2 := r.(state := r.state + [(obj.id, MsgState(Execute, false, None))], objects := r.objects[obj.id := obj]);
    ExecuteChain(r, obj);
    DoneStep(r2, r.state, obj.id, status);
    ReplayThen(r, [InboxItem(obj), ExecuteItem(obj.id)], [DoneItem(obj.id, status)], r2,
      r2.(state := r.state + [(obj.id, MsgState(status, false, None))],
          doneIds := WithDone(r.doneIds, obj.dst, obj.srcNode, DoneAt(r.doneIds, obj.dst, obj.srcNode) + {obj.id})));
  }

  /** ... or `outbox` instead. */
  lemma {:induction false} OutboxChain(r: S2, obj: Message, msgs: seq<Message>)
    requires Lookup(r.state, obj.id).None? && !obj.hasContent && msgs != [] && ParentsAre(msgs, obj.id)
    ensures Replay(r, [InboxItem(obj), ExecuteItem(obj.id), OutboxItem(obj.id, msgs)]) ==
      Succeeded(InPhase(r.(objects := AddObjects(r.objects[obj.id := obj], msgs)), r.state, obj.id, FreshOutbox(msgs)))
  {
    var r2 := r.(state := r.state + [(obj.id, MsgState(Execute, false, None))], objects := r.objects[obj.id := obj]);
    ExecuteChain(r, obj);
    OutboxStep(r2, r.state, obj.id, msgs);
    ReplayThen(r, [InboxItem(obj), ExecuteItem(obj.id)], [OutboxItem(obj.id, msgs)], r2,
      InPhase(r2.(objects := AddObjects(r2.objects, msgs)), r.state, obj.id, FreshOutbox(msgs)));
  }

  // The state a replay reaches, checked against `Step` apart from the
  // replay itself.

  lemma {:induction false} StepPlain(r: S2, m: S2, id: MessageId, e: MsgState)
    requires !IsFinal(e.status) && e.status != Outbox && id in m.objects
    ensures Step(r, r.(state := r.state + [(id, e)], objects := r.objects[id := m.objects[id]]), m, id, e)
  {
    assert TrackedIds(id, e) == [id];
  }

  lemma {:induction false} StepCompleted(r: S2, m: S2, id: MessageId, e: MsgState)
    requires IsFinal(e.status) && e.isAcked
    ensures Step(r, r.(state := r.state + [(id, e)]), m, id, e)
  {
  }

  lemma {:induction false} StepWaiting(r: S2, m: S2, id: MessageId, e: MsgState)
    requires IsFinal(e.status) && !e.isAcked && id in m.objects
    ensures var obj := m.objects[id];
      Step(r, r.(state := r.state + [(id, e)], objects := r.objects[id := obj],
                 doneIds := WithDone(r.doneIds, obj.dst, obj.srcNode, DoneAt(r.doneIds, obj.dst, obj.srcNode) + {id})), m, id, e)
  {
    assert TrackedIds(id, e) == [id];
  }

  lemma {:induction false} CompletedEntry(m: S2, r: S2, id: MessageId, e: MsgState)
    requires Lookup(r.state, id).None? && ValidEntry(m, id, e)
    requires IsFinal(e.status) && e.isAcked
    ensures EntryItems(m, id, e, true).Ok?
    ensures var a := Replay(r, EntryItems(m, id, e, true).value);
      a.error.None? && Step(r, a.s, m, id, e)
  {
    assert e == MsgState(e.status, true, None);
    assert EntryItems(m, id, e, true) == Ok([CompleteItem(id, Some(e.status))]);
    ReplayOne(r, CompleteItem(id, Some(e.status)));
    AppendedAssign(r.state, id, e, e);
    StepCompleted(r, m, id, e);
  }

  lemma {:induction false} WaitingEntry(m: S2, r: S2, id: MessageId, e: MsgState)
    requires Lookup(r.state, id).None? && ValidEntry(m, id, e)
    requires IsFinal(e.status) && !e.isAcked
    ensures EntryItems(m, id, e, true).Ok?
    ensures var a := Replay(r, EntryItems(m, id, e, true).value);
      a.error.None? && Step(r, a.s, m, id, e)
  {
    var obj := m.objects[id];
    assert e == MsgState(e.status, false, None);
    assert EntryItems(m, id, e, true) == Ok([InboxItem(obj), ExecuteItem(id), DoneItem(id, e.status)]);
    DoneChain(r, obj, e.status);
    StepWaiting(r, m, id, e);
  }

  lemma {:induction false} InboxEntry(m: S2, r: S2, id: MessageId, e: MsgState)
    requires Lookup(r.state, id).None? && ValidEntry(m, id, e)
    requires e.status == Inbox
    ensures EntryItems(m, id, e, true).Ok?
    ensures var a := Replay(r, EntryItems(m, id, e, true).value);
      a.error.None? && Step(r, a.s, m, id, e)
  {
    var obj := m.objects[id];
    assert e == MsgState(Inbox, false, None);
    assert EntryItems(m, id, e, true) == Ok([InboxItem(obj)]);
    InboxStep(r, obj);
    StepPlain(r, m, id, e);
  }

  lemma {:induction false} ExecuteEntry(m: S2, r: S2, id: MessageId, e: MsgState)
    requires Lookup(r.state, id).None? && ValidEntry(m, id, e)
    requires e.status == Execute
    ensures EntryItems(m, id, e, true).Ok?
    ensures var a := Replay(r, EntryItems(m, id, e, true).value);
      a.error.None? && Step(r, a.s, m, id, e)
  {
    var obj := m.objects[id];
    assert e == MsgState(Execute, false, None);
    assert EntryItems(m, id, e, true) == Ok([InboxItem(obj), ExecuteItem(id)]);
    ExecuteChain(r, obj);
    StepPlain(r, m, id, e);
  }

  /** The objects after `apply_outbox` records the outbox messages of a
      message whose object is `obj`. */
  lemma {:induction false} OutboxObjects(m: S2, objects: map<MessageId, Message>, id: MessageId, obj: Message,
                      outs: seq<(MessageId, OutboxState)>, msgs: seq<Message>)
    requires |msgs| == |outs|
    requires forall t :: 0 <= t < |outs| ==> outs[t].0 in m.objects && msgs[t] == m.objects[outs[t].0] && msgs[t].id == outs[t].0
    requires forall i, j :: 0 <= i < j < |outs| ==> outs[i].0 != outs[j].0
    requires forall t :: 0 <= t < |outs| ==> outs[t].0 != id
    ensures var b := AddObjects(objects[id := obj], msgs);
      id in b && b[id] == obj &&
      (forall t :: 0 <= t < |outs| ==> outs[t].0 in b && b[outs[t].0] == m.objects[outs[t].0]) &&
      (forall k :: k in objects && k != id && k !in KeyList(outs) ==> k in b && b[k] == objects[k])
  {
    var o := objects[id := obj];
    AddObjectsOther(o, msgs, id);
    forall t | 0 <= t < |outs| ensures outs[t].0 in AddObjects(o, msgs) && AddObjects(o, msgs)[outs[t].0] == m.objects[outs[t].0] {
      LastAt(o, msgs, outs, t);
    }
    forall k | k in objects && k != id && k !in KeyList(outs) ensures k in AddObjects(o, msgs) && AddObjects(o, msgs)[k] == objects[k] {
      AddObjectsOther(o, msgs, k);
    }
  }

  lemma {:induction false} LastAt(o: map<MessageId, Message>, msgs: seq<Message>, outs: seq<(MessageId, OutboxState)>, t: nat)
    requires |msgs| == |outs| && t < |outs|
    requires forall t :: 0 <= t < |outs| ==> msgs[t].id == outs[t].0
    requires forall i, j :: 0 <= i < j < |outs| ==> outs[i].0 != outs[j].0
    ensures outs[t].0 in AddObjects(o, msgs) && AddObjects(o, msgs)[outs[t].0] == msgs[t]
  {
    AddObjectsLast(o, msgs, t);
  }

  /** Replaying the dump of a message in OUTBOX: the chain to OUTBOX,
      then its outbox states one by one. */
  lemma {:induction false} OutboxReplay(m: S2, r: S2, obj: Message, outs: seq<(MessageId, OutboxState)>)
    requires Lookup(r.state, obj.id).None? && !obj.hasContent && outs != []
    requires DistinctKeys(outs) && !AllOk(outs)
    requires forall t :: 0 <= t < |outs| ==> ValidChild(m, obj.id, outs[t].0, outs[t].1)
    requires forall t :: 0 <= t < |outs| ==> outs[t].0 != obj.id
    ensures OutboxMessages(m, outs).Ok? && OutboxItems(m, outs).Ok?
    ensures var msgs := OutboxMessages(m, outs).value;
      Replay(r, [InboxItem(obj), ExecuteItem(obj.id), OutboxItem(obj.id, msgs)] + OutboxItems(m, outs).value) ==
      Succeeded(InPhase(r.(objects := AddObjects(r.objects[obj.id := obj], msgs)), r.state, obj.id, outs))
  {
    var id := obj.id;
    var msgs := OutboxMessages(m, outs).value;
    FreshWorking(msgs, outs);
    var b := r.(objects := AddObjects(r.objects[id := obj], msgs));
    OutboxChain(r, obj, msgs);
    OutboxObjects(m, r.objects, id, obj, outs, msgs);
    ReplayChildren(m, b, r.state, id, outs, 0);
    assert outs[0..] == outs;
    ReplayThen(r, [InboxItem(obj), ExecuteItem(id), OutboxItem(id, msgs)], OutboxItems(m, outs).value,
               InPhase(b, r.state, id, Working(outs, 0)), InPhase(b, r.state, id, outs));
  }

  lemma {:induction false} OutboxEntryItems(m: S2, id: MessageId, e: MsgState)
    requires e.status == Outbox && e.outbox.Some? && id in m.objects
    requires OutboxMessages(m, e.outbox.value).Ok? && OutboxItems(m, e.outbox.value).Ok?
    ensures EntryItems(m, id, e, true) ==
      Ok([InboxItem(m.objects[id]), ExecuteItem(id), OutboxItem(id, OutboxMessages(m, e.outbox.value).value)] +
         OutboxItems(m, e.outbox.value).value)
  {
  }

  /** The objects a message in OUTBOX needs: its own and those of its
      outbox messages. */
  lemma {:induction false} OutboxStepHolds(m: S2, r: S2, id: MessageId, e: MsgState, objects: map<MessageId, Message>)
    requires e == MsgState(Outbox, false, e.outbox) && e.outbox.Some?
    requires var outs := e.outbox.value;
      id in m.objects && id in objects && objects[id] == m.objects[id] &&
      (forall t :: 0 <= t < |outs| ==> outs[t].0 in m.objects && outs[t].0 in objects && objects[outs[t].0] == m.objects[outs[t].0]) &&
      (forall k :: k in r.objects && k != id && k !in KeyList(outs) ==> k in objects && objects[k] == r.objects[k])
    ensures Step(r, InPhase(r.(objects := objects), r.state, id, e.outbox.value), m, id, e)
  {
    var outs := e.outbox.value;
    var ids := TrackedIds(id, e);
    assert ids == [id] + KeyList(outs);
    forall t | t in ids ensures t in objects && t in m.objects && objects[t] == m.objects[t] {
      if t != id {
        var j :| 0 <= j < |outs| && KeyList(outs)[j] == t;
      }
    }
  }

  lemma {:induction false} OutboxEntry(m: S2, r: S2, id: MessageId, e: MsgState)
    requires Lookup(r.state, id).None? && ValidEntry(m, id, e)
    requires Unique(TrackedIds(id, e))
    requires e.status == Outbox
    ensures EntryItems(m, id, e, true).Ok?
    ensures var a := Replay(r, EntryItems(m, id, e, true).value);
      a.error.None? && Step(r, a.s, m, id, e)
  {
    var outs := e.outbox.value;
    var obj := m.objects[id];
    var ids := TrackedIds(id, e);
    forall t | 0 <= t < |outs| ensures outs[t].0 != id {
      assert ids[0] == id && ids[t + 1] == outs[t].0;
    }
    OutboxReplay(m, r, obj, outs);
    var msgs := OutboxMessages(m, outs).value;
    OutboxEntryItems(m, id, e);
    OutboxObjects(m, r.objects, id, obj, outs, msgs);
    OutboxStepHolds(m, r, id, e, AddObjects(r.objects[id := obj], msgs));
  }

  /** Replaying the dump of the `i`-th message rebuilds one message more. */
  lemma {:induction false} ReplayEntry(m: S2, r: S2, i: nat)
    requires Valid(m) && Rebuilt(r, m, i) && i < |m.state|
    ensures EntryItems(m, m.state[i].0, m.state[i].1, true).Ok?
    ensures var a := Replay(r, EntryItems(m, m.state[i].0, m.state[i].1, true).value);
      a.error.None? && Rebuilt(a.s, m, i + 1)
  {
    EntryFacts(m, r, i);
    var e := m.state[i].1;
    if IsFinal(e.status) && e.isAcked {
      CompletedEntry(m, r, m.state[i].0, e);
    } else if IsFinal(e.status) {
      WaitingEntry(m, r, m.state[i].0, e);
    } else if e.status == Inbox {
      InboxEntry(m, r, m.state[i].0, e);
    } else if e.status == Execute {
      ExecuteEntry(m, r, m.state[i].0, e);
    } else {
      OutboxEntry(m, r, m.state[i].0, e);
    }
    Close(r, Replay(r, EntryItems(m, m.state[i].0, e, true).value).s, m, i);
  }

  /** The loop over the message states, from the `i`-th on. */
  lemma {:induction false} ReplayEntries(m: S2, r: S2, i: nat)
    requires Valid(m) && Rebuilt(r, m, i)
    ensures EntriesItems(m, m.state[i..], true).Ok?
    ensures var a := Replay(r, EntriesItems(m, m.state[i..], true).value);
      a.error.None? && Rebuilt(a.s, m, |m.state|)
    decreases |m.state| - i
  {
    if i == |m.state| {
      assert m.state[i..] == [];
    } else {
      ReplayEntry(m, r, i);
      var head := EntryItems(m, m.state[i].0, m.state[i].1, true).value;
      ReplayEntries(m, Replay(r, head).s, i + 1);
      assert m.state[i..][0] == m.state[i];
      assert m.state[i..][1..] == m.state[i + 1..];
      ReplayConcat(r, head, EntriesItems(m, m.state[i + 1..], true).value);
    }
  }

  // ---- the upstream nodes ------------------------------------------------------------------

  /** The available `notify` items of one `dst` add its nodes and touch
      nothing else. */
  lemma {:induction false} NodesReplay(r: S2, dst: string, nodes: seq<string>)
    ensures var a := Replay(r, NodeItems(dst, nodes));
      a.error.None? && a.s.state == r.state && a.s.objects == r.objects && a.s.doneIds == r.doneIds &&
      Members(UpstreamOf(a.s, dst)) == Members(UpstreamOf(r, dst)) + Members(nodes) &&
      (forall d :: d != dst ==> UpstreamOf(a.s, d) == UpstreamOf(r, d))
    decreases |nodes|
  {
    if nodes != [] {
      var r1 := NotifySpec(r, dst, nodes[0], true);
      forall d | d != dst ensures UpstreamOf(r1, d) == UpstreamOf(r, d) {
        NotifyOutcome(r, dst, nodes[0], true, d);
      }
      NotifyOutcome(r, dst, nodes[0], true, dst);
      NodesReplay(r1, dst, nodes[1..]);
      ReplayOne(r, NotifyItem(dst, nodes[0], true));
      ReplayConcat(r, [NotifyItem(dst, nodes[0], true)], NodeItems(dst, nodes[1..]));
      assert Members(nodes) == {nodes[0]} + Members(nodes[1..]);
    }
  }

  /** The loop over `upstream` adds the nodes of every `dst`. */
  lemma {:induction false} UpstreamReplay(r: S2, up: seq<(string, seq<string>)>)
    requires DistinctKeys(up)
    ensures var a := Replay(r, NotifyItems(up));
      a.error.None? && a.s.state == r.state && a.s.objects == r.objects && a.s.doneIds == r.doneIds &&
      (forall d :: Members(UpstreamOf(a.s, d)) == Members(UpstreamOf(r, d)) + Members(Lookup(up, d).GetOr([])))
    decreases |up|
  {
    if up != [] {
      var a1 := Replay(r, NodeItems(up[0].0, up[0].1));
      DistinctKeysCons(up);
      NodesReplay(r, up[0].0, up[0].1);
      UpstreamReplay(a1.s, up[1..]);
      ReplayConcat(r, NodeItems(up[0].0, up[0].1), NotifyItems(up[1..]));
    }
  }

  // ---- where Valid holds -------------------------------------------------------------------

  /** A fresh state meets `Valid`. */
  lemma {:induction false} FreshValid()
    ensures Valid(Fresh)
  {
    forall dst, node ensures DoneAt(Fresh.doneIds, dst, node) == WaitingIds(Fresh, 0, dst, node) {
    }
  }

  /** `Valid` is not kept by every operation: `apply_complete` without a
      status acks an INBOX message and leaves it INBOX, a message state
      `ValidEntry` does not admit. */
  lemma {:induction false} CompleteWithoutStatusInvalid()
    ensures var m := S2([("a", MsgState(Inbox, false, None))], map["a" := Message("a", "s", "n", "d", None, 0, true, None, true)], map[], []);
      Valid(m) && CompleteSpec(m, "a", None).error.None? && !Valid(CompleteSpec(m, "a", None).s)
  {
    var msg := Message("a", "s", "n", "d", None, 0, true, None, true);
    var m := S2([("a", MsgState(Inbox, false, None))], map["a" := msg], map[], []);
    forall dst, node ensures DoneAt(m.doneIds, dst, node) == WaitingIds(m, 1, dst, node) {
      assert !WaitingAt(m, 0, dst, node);
    }
    assert Valid(m);
    var s := CompleteSpec(m, "a", None).s;
    assert s.state == [("a", MsgState(Inbox, true, None))];
    assert !ValidEntry(s, s.state[0].0, s.state[0].1);
  }

  // ---- the dump and the replay -------------------------------------------------------------

  /** `DumpReplayable` applied to a fresh state raises nothing and gives
      back the message states in order, every object a message state
      needs, the same done ids and the same upstream nodes. */
  lemma {:induction false} ReplayDump(m: S2)
    requires Valid(m)
    ensures DumpReplayable(m).Ok?
    ensures var a := Replay(Fresh, DumpReplayable(m).value);
      a.error.None? && a.s.state == m.state &&
      (forall i :: 0 <= i < |m.state| ==> Agrees(a.s.objects, m.objects, TrackedIds(m.state[i].0, m.state[i].1))) &&
      (forall dst, node :: DoneAt(a.s.doneIds, dst, node) == DoneAt(m.doneIds, dst, node)) &&
      (forall d :: Members(UpstreamOf(a.s, d)) == Members(UpstreamOf(m, d)))
  {
    assert Rebuilt(Fresh, m, 0);
    ReplayEntries(m, Fresh, 0);
    assert m.state[0..] == m.state;
    assert m.state[..|m.state|] == m.state;
    var entries := EntriesItems(m, m.state, true).value;
    var r := Replay(Fresh, entries).s;
    UpstreamReplay(r, m.upstream);
    ReplayConcat(Fresh, entries, NotifyItems(m.upstream));
  }
}
