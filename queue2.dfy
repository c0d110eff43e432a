/** The per-actor queue of `actorlib/queue2.py` (`ActorQueue`) over the
    message state of `actorlib/state2.py`: an inbox heap, outbox heaps per
    destination and per destination node, and the fetcher it schedules.

    A heap is modelled as the multiset of its entries: a pop returns an
    entry of least priority, and of the entries of least priority the one
    pushed first. Times are integers in milliseconds. The clock, the
    expiry of a message and the random numbers are parameters. */
module Queue2 {
  import opened Wrappers
  import opened OrderedDict
  import opened StateV2
  import Text

  /** `[(priority, message)]` kept by `heapq`. */
  type Box = seq<Message>
  /** `dst -> box`. */
  type Boxes = seq<(string, Box)>
  /** `dst_node -> dst -> box`. */
  type NodeBoxes = seq<(string, Boxes)>

  /** The constructor's sizes and times; `cycleTime` and `maxRetryTime` in
      seconds. `random.sample` demands a count that is not negative. */
  datatype Config = Config(
    nodeName: string,
    actorName: string,
    inboxLowsize: int,
    inboxHighsize: int,
    outboxLowsize: int,
    outboxHighsize: int,
    cycleTime: int,
    maxRetryCount: int,
    maxRetryTime: int,
    fetcherConcurrency: nat)

  /** The fetcher message `auto_schedule_fetcher` hands to
      `schedule_fetcher`: from this actor on this node to the fetcher
      actor on this node, with the upstream nodes to ask and how many
      messages to fetch. */
  datatype Fetcher = Fetcher(upstream: set<string>, maxsize: int)

  /** The attributes of an `ActorQueue` that change; `scheduled` lists the
      fetchers handed to `schedule_fetcher`, in order. */
  datatype Queue = Queue(
    inbox: Box,
    dstOutbox: Boxes,
    dstNodeOutbox: NodeBoxes,
    isFetching: bool,
    scheduled: seq<Fetcher>)

  const Empty := Queue([], [], [], false, [])

  /** The errors a queue operation propagates: an exception of the state,
      `IndexError` of a pop from an empty heap, `KeyError` of a missing
      box or outbox state, and the failure on an outbox state without an
      executed count. */
  datatype QueueError = StateFailed(error: StateError) | EmptyHeap | MissingKey | NoCount

  // ---- heaps ----------------------------------------------------------------------------

  /** The position of the first entry of least priority. */
  function MinIndex(box: Box): (i: nat)
    requires box != []
    ensures i < |box|
    decreases |box|
  {
    if |box| == 1 then 0
    else
      var k := MinIndex(box[1..]);
      if box[0].priority <= box[k + 1].priority then 0 else k + 1
  }

  /** No entry has a lower priority than the one at `MinIndex`, and every
      entry before it has a higher one. */
  lemma {:induction false} MinIndexLeast(box: Box)
    requires box != []
    ensures forall j :: 0 <= j < |box| ==> box[MinIndex(box)].priority <= box[j].priority
    ensures forall j :: 0 <= j < MinIndex(box) ==> box[j].priority > box[MinIndex(box)].priority
    decreases |box|
  {
    if |box| > 1 {
      MinIndexLeast(box[1..]);
      assert forall j :: 1 <= j < |box| ==> box[j] == box[1..][j - 1];
    }
  }

  /** The box without its entry at `i`. */
  function Without(box: Box, i: nat): (r: Box)
    requires i < |box|
    ensures |r| == |box| - 1
  {
    box[..i] + box[i + 1..]
  }

  /** Taking out the entry at `i` keeps every other entry, in order. */
  lemma {:induction false} WithoutFacts(box: Box, i: nat)
    requires i < |box|
    ensures multiset(Without(box, i)) + multiset{box[i]} == multiset(box)
    ensures forall j :: 0 <= j < |box| - 1 ==> Without(box, i)[j] == box[if j < i then j else j + 1]
  {
    assert box == box[..i] + [box[i]] + box[i + 1..];
  }

  /** `heapq.heappop(box)`: an entry of least priority and the rest. */
  function Pop(box: Box): (r: (Message, Box))
    requires box != []
    ensures |r.1| == |box| - 1
  {
    var i := MinIndex(box);
    (box[i], Without(box, i))
  }

  /** A pop takes out one entry, of least priority, and keeps the rest. */
  lemma {:induction false} PopFacts(box: Box)
    requires box != []
    ensures multiset(Pop(box).1) + multiset{Pop(box).0} == multiset(box)
    ensures forall y :: y in Pop(box).1 ==> Pop(box).0.priority <= y.priority
  {
    MinIndexLeast(box);
    WithoutFacts(box, MinIndex(box));
  }

  /** Messages in order of ascending priority. */
  predicate Ascending(xs: seq<Message>) {
    forall i, j :: 0 <= i < j < |xs| ==> xs[i].priority <= xs[j].priority
  }

  /** No message of `xs` has a higher priority than one of `ys`. */
  predicate NoneAbove(xs: seq<Message>, ys: seq<Message>) {
    forall x, y :: x in xs && y in ys ==> x.priority <= y.priority
  }

  lemma {:induction false} AscendingCons(x: Message, xs: seq<Message>)
    requires Ascending(xs) && NoneAbove([x], xs)
    ensures Ascending([x] + xs)
  {
    var t := [x] + xs;
    forall i, j | 0 <= i < j < |t| ensures t[i].priority <= t[j].priority {
      assert t[j] == xs[j - 1];
      if i > 0 {
        assert t[i] == xs[i - 1];
      } else {
        assert xs[j - 1] in xs;
      }
    }
  }

  // ---- sizes ----------------------------------------------------------------------------

  /** The number of messages in all boxes of a `dst -> box` dict. */
  function BoxesSize(b: Boxes): nat
    decreases |b|
  {
    if b == [] then 0 else |b[0].1| + BoxesSize(b[1..])
  }

  /** The number of messages in all boxes of a `dst_node -> dst -> box`
      dict. */
  function NodeBoxesSize(nb: NodeBoxes): nat
    decreases |nb|
  {
    if nb == [] then 0 else BoxesSize(nb[0].1) + NodeBoxesSize(nb[1..])
  }

  /** The (source node, id) pairs of a `src_node -> ids` dict. */
  function DonePairs(d: map<string, set<MessageId>>): set<(string, MessageId)> {
    set n, id | n in d && id in d[n] :: (n, id)
  }

  /** The ids done for `actor` and not yet acked upstream. */
  function PendingDone(m: S2, actor: string): nat {
    if actor in m.doneIds then |DonePairs(m.doneIds[actor])| else 0
  }

  /** `outbox_size()`: the messages in every outbox plus the done ids
      waiting to be acked upstream. */
  function OutboxSize(cfg: Config, q: Queue, m: S2): nat {
    BoxesSize(q.dstOutbox) + NodeBoxesSize(q.dstNodeOutbox) + PendingDone(m, cfg.actorName)
  }

  /** Writing a box changes the total by the difference of its sizes. */
  lemma {:induction false} BoxesSizeAssign(b: Boxes, k: string, v: Box)
    ensures BoxesSize(Assign(b, k, v)) + |Lookup(b, k).GetOr([])| == BoxesSize(b) + |v|
    decreases |b|
  {
    if b != [] && b[0].0 != k {
      BoxesSizeAssign(b[1..], k, v);
      assert Assign(b, k, v)[1..] == Assign(b[1..], k, v);
    } else if b != [] {
      assert Assign(b, k, v)[1..] == b[1..];
    }
  }

  lemma {:induction false} NodeBoxesSizeAssign(nb: NodeBoxes, k: string, v: Boxes)
    ensures NodeBoxesSize(Assign(nb, k, v)) + BoxesSize(Lookup(nb, k).GetOr([])) == NodeBoxesSize(nb) + BoxesSize(v)
    decreases |nb|
  {
    if nb != [] && nb[0].0 != k {
      NodeBoxesSizeAssign(nb[1..], k, v);
      assert Assign(nb, k, v)[1..] == Assign(nb[1..], k, v);
    } else if nb != [] {
      assert Assign(nb, k, v)[1..] == nb[1..];
    }
  }

  // ---- filing outbox messages -----------------------------------------------------------

  /** The destination node a message is filed under: `None` when
      `dst_node` is missing or empty. */
  function NodeOf(msg: Message): Option<string> {
    if msg.dstNode.Some? && msg.dstNode.value != "" then msg.dstNode else None
  }

  /** The box of `(node, dst)`: `dst_node_outbox[node][dst]` or
      `dst_outbox[dst]`, empty when missing. */
  function BoxAt(q: Queue, node: Option<string>, dst: string): Box {
    if node.Some? then Lookup(Lookup(q.dstNodeOutbox, node.value).GetOr([]), dst).GetOr([])
    else Lookup(q.dstOutbox, dst).GetOr([])
  }

  /** `push_outbox(message)`. */
  function PushSpec(q: Queue, msg: Message): Queue {
    match NodeOf(msg)
    case Some(node) =>
      var inner := Lookup(q.dstNodeOutbox, node).GetOr([]);
      q.(dstNodeOutbox := Assign(q.dstNodeOutbox, node, Assign(inner, msg.dst, Lookup(inner, msg.dst).GetOr([]) + [msg])))
    case None =>
      q.(dstOutbox := Assign(q.dstOutbox, msg.dst, Lookup(q.dstOutbox, msg.dst).GetOr([]) + [msg]))
  }

  /** `push_outbox` files the message in the box of its destination node
      and destination, leaves every other box and the inbox alone, and
      grows the outbox by one. */
  lemma {:induction false} PushFiles(cfg: Config, q: Queue, msg: Message, m: S2, node: Option<string>, dst: string)
    ensures var r := PushSpec(q, msg);
      BoxAt(r, NodeOf(msg), msg.dst) == BoxAt(q, NodeOf(msg), msg.dst) + [msg] &&
      ((node, dst) != (NodeOf(msg), msg.dst) ==> BoxAt(r, node, dst) == BoxAt(q, node, dst)) &&
      OutboxSize(cfg, r, m) == OutboxSize(cfg, q, m) + 1 &&
      r.inbox == q.inbox && r.isFetching == q.isFetching && r.scheduled == q.scheduled
  {
    match NodeOf(msg)
    case Some(n) =>
      var inner := Lookup(q.dstNodeOutbox, n).GetOr([]);
      var box := Lookup(inner, msg.dst).GetOr([]);
      AssignLookup(q.dstNodeOutbox, n, Assign(inner, msg.dst, box + [msg]), n);
      AssignLookup(inner, msg.dst, box + [msg], msg.dst);
      if node.Some? {
        AssignLookup(q.dstNodeOutbox, n, Assign(inner, msg.dst, box + [msg]), node.value);
        AssignLookup(inner, msg.dst, box + [msg], dst);
      }
      BoxesSizeAssign(inner, msg.dst, box + [msg]);
      NodeBoxesSizeAssign(q.dstNodeOutbox, n, Assign(inner, msg.dst, box + [msg]));
    case None =>
      var box := Lookup(q.dstOutbox, msg.dst).GetOr([]);
      AssignLookup(q.dstOutbox, msg.dst, box + [msg], dst);
      AssignLookup(q.dstOutbox, msg.dst, box + [msg], msg.dst);
      BoxesSizeAssign(q.dstOutbox, msg.dst, box + [msg]);
  }

  /** `for x in msgs: push_outbox(x)`. */
  function PushAll(q: Queue, msgs: seq<Message>): Queue
    decreases |msgs|
  {
    if msgs == [] then q else PushSpec(PushAll(q, msgs[..|msgs| - 1]), msgs[|msgs| - 1])
  }

  /** Pushing a list grows the outbox by its length. */
  lemma {:induction false} PushAllSize(cfg: Config, q: Queue, msgs: seq<Message>, m: S2)
    ensures OutboxSize(cfg, PushAll(q, msgs), m) == OutboxSize(cfg, q, m) + |msgs|
    ensures PushAll(q, msgs).inbox == q.inbox
    ensures PushAll(q, msgs).isFetching == q.isFetching && PushAll(q, msgs).scheduled == q.scheduled
    decreases |msgs|
  {
    if msgs != [] {
      var last := msgs[|msgs| - 1];
      PushAllSize(cfg, q, msgs[..|msgs| - 1], m);
      PushFiles(cfg, PushAll(q, msgs[..|msgs| - 1]), last, m, NodeOf(last), last.dst);
    }
  }

  // ---- well-formed dicts and outbox_info -------------------------------------------------

  /** Every dict of the queue has distinct keys, as Python dicts do. */
  ghost predicate WellFormed(q: Queue) {
    DistinctKeys(q.dstOutbox) && DistinctKeys(q.dstNodeOutbox) &&
    forall n :: Lookup(q.dstNodeOutbox, n).Some? ==> DistinctKeys(Lookup(q.dstNodeOutbox, n).value)
  }

  /** `push_outbox` keeps the dicts well formed. */
  lemma {:induction false} PushWellFormed(q: Queue, msg: Message)
    requires WellFormed(q)
    ensures WellFormed(PushSpec(q, msg))
  {
    match NodeOf(msg)
    case Some(node) =>
      var inner := Lookup(q.dstNodeOutbox, node).GetOr([]);
      var box := Lookup(inner, msg.dst).GetOr([]);
      var inner' := Assign(inner, msg.dst, box + [msg]);
      AssignDistinct(inner, msg.dst, box + [msg]);
      AssignDistinct(q.dstNodeOutbox, node, inner');
      forall n | Lookup(PushSpec(q, msg).dstNodeOutbox, n).Some?
        ensures DistinctKeys(Lookup(PushSpec(q, msg).dstNodeOutbox, n).value)
      {
        AssignLookup(q.dstNodeOutbox, node, inner', n);
      }
    case None =>
      AssignDistinct(q.dstOutbox, msg.dst, Lookup(q.dstOutbox, msg.dst).GetOr([]) + [msg]);
  }

  lemma {:induction false} PushAllWellFormed(q: Queue, msgs: seq<Message>)
    requires WellFormed(q)
    ensures WellFormed(PushAll(q, msgs))
    decreases |msgs|
  {
    if msgs != [] {
      PushAllWellFormed(q, msgs[..|msgs| - 1]);
      PushWellFormed(PushAll(q, msgs[..|msgs| - 1]), msgs[|msgs| - 1]);
    }
  }

  /** A box that holds a message. */
  predicate NonEmpty(b: Box) {
    b != []
  }

  /** Each of `ds` paired with the node `n`. */
  function Tagged(n: string, ds: seq<string>): (r: seq<(string, string)>)
    ensures |r| == |ds| && forall i :: 0 <= i < |ds| ==> r[i] == (n, ds[i])
  {
    seq(|ds|, i requires 0 <= i < |ds| => (n, ds[i]))
  }

  /** The `(dst_node, dst)` pairs of the non-empty boxes, in dict order. */
  function NodeInfo(nb: NodeBoxes): seq<(string, string)>
    decreases |nb|
  {
    if nb == [] then [] else Tagged(nb[0].0, KeysWhere(nb[0].1, NonEmpty)) + NodeInfo(nb[1..])
  }

  /** `outbox_info()`: the destinations with a non-empty generic box, and
      the (node, destination) pairs with a non-empty node-specific box. */
  function OutboxInfoSpec(q: Queue): (seq<string>, seq<(string, string)>) {
    (KeysWhere(q.dstOutbox, NonEmpty), NodeInfo(q.dstNodeOutbox))
  }

  /** A key is selected exactly when it reads as a non-empty box. */
  lemma {:induction false} KeysWhereNonEmpty(b: Boxes, dst: string)
    requires DistinctKeys(b)
    ensures dst in KeysWhere(b, NonEmpty) <==> Lookup(b, dst).GetOr([]) != []
  {
    KeysWhereFacts(b, NonEmpty);
    if dst in KeysWhere(b, NonEmpty) {
      var i :| 0 <= i < |KeysWhere(b, NonEmpty)| && KeysWhere(b, NonEmpty)[i] == dst;
    }
  }

  lemma {:induction false} NodeInfoExact(nb: NodeBoxes, node: string, dst: string)
    requires DistinctKeys(nb)
    requires forall n :: Lookup(nb, n).Some? ==> DistinctKeys(Lookup(nb, n).value)
    ensures (node, dst) in NodeInfo(nb) <==> Lookup(Lookup(nb, node).GetOr([]), dst).GetOr([]) != []
    decreases |nb|
  {
    if nb != [] {
      var rest := nb[1..];
      DistinctKeysCons(nb);
      forall n | Lookup(rest, n).Some? ensures DistinctKeys(Lookup(rest, n).value) {
        assert n != nb[0].0;
        assert Lookup(nb, n) == Lookup(rest, n);
        assert Lookup(nb, n).Some?;
      }
      NodeInfoExact(rest, node, dst);
      assert Lookup(nb, nb[0].0) == Some(nb[0].1);
      KeysWhereNonEmpty(nb[0].1, dst);
      var head := Tagged(nb[0].0, KeysWhere(nb[0].1, NonEmpty));
      assert (node, dst) in head <==> node == nb[0].0 && dst in KeysWhere(nb[0].1, NonEmpty) by {
        if (node, dst) in head {
          var i :| 0 <= i < |head| && head[i] == (node, dst);
        }
        if node == nb[0].0 && dst in KeysWhere(nb[0].1, NonEmpty) {
          var i :| 0 <= i < |KeysWhere(nb[0].1, NonEmpty)| && KeysWhere(nb[0].1, NonEmpty)[i] == dst;
          assert head[i] == (node, dst);
        }
      }
    }
  }

  /** `outbox_info` lists exactly the boxes that are not empty. */
  lemma {:induction false} OutboxInfoExact(q: Queue, node: Option<string>, dst: string)
    requires WellFormed(q)
    ensures var info := OutboxInfoSpec(q);
      (node.None? ==> (dst in info.0 <==> BoxAt(q, node, dst) != [])) &&
      (node.Some? ==> ((node.value, dst) in info.1 <==> BoxAt(q, node, dst) != []))
    ensures Unique(OutboxInfoSpec(q).0)
  {
    KeysWhereFacts(q.dstOutbox, NonEmpty);
    KeysWhereNonEmpty(q.dstOutbox, dst);
    if node.Some? {
      NodeInfoExact(q.dstNodeOutbox, node.value, dst);
    }
  }

  // ---- the fetcher ----------------------------------------------------------------------

  /** The upstream nodes known for the actor. */
  function Upstream(cfg: Config, m: S2): set<string> {
    Members(UpstreamOf(m, cfg.actorName))
  }

  function Min(a: int, b: int): int {
    if a <= b then a else b
  }

  /** `auto_schedule_fetcher` schedules when not fetching, the outbox is
      not over its high size, the inbox is not over its low size, and the
      upstream sample is not empty. */
  predicate CanFetch(cfg: Config, q: Queue, m: S2) {
    !q.isFetching && OutboxSize(cfg, q, m) <= cfg.outboxHighsize && |q.inbox| <= cfg.inboxLowsize &&
    Min(|Upstream(cfg, m)|, cfg.fetcherConcurrency) > 0
  }

  /** What `auto_schedule_fetcher` may do to `q` in state `m`: schedule
      exactly one fetcher for a sample of `fetcher_concurrency` upstream
      nodes (all of them when there are no more) asking for
      `inbox_highsize - inbox_size` messages and mark the queue fetching,
      or change nothing. */
  ghost predicate AutoFetched(cfg: Config, q: Queue, m: S2, r: Queue) {
    if CanFetch(cfg, q, m) then
      |r.scheduled| == |q.scheduled| + 1 &&
      r == q.(isFetching := true, scheduled := r.scheduled) &&
      r.scheduled[..|q.scheduled|] == q.scheduled &&
      var f := r.scheduled[|q.scheduled|];
      f.upstream <= Upstream(cfg, m) &&
      |f.upstream| == Min(|Upstream(cfg, m)|, cfg.fetcherConcurrency) &&
      f.maxsize == cfg.inboxHighsize - |q.inbox|
    else r == q
  }

  /** The fetcher fields change by at most one scheduled fetcher, and only
      when none was outstanding. */
  ghost predicate FetchGrowth(q: Queue, r: Queue) {
    (r.isFetching == q.isFetching && r.scheduled == q.scheduled) ||
    (!q.isFetching && r.isFetching && |r.scheduled| == |q.scheduled| + 1 && r.scheduled[..|q.scheduled|] == q.scheduled)
  }

  /** A step that leaves the heaps alone and at most schedules one
      fetcher, only when none is outstanding. */
  ghost predicate FetcherStep(q: Queue, r: Queue) {
    r.inbox == q.inbox && r.dstOutbox == q.dstOutbox && r.dstNodeOutbox == q.dstNodeOutbox && FetchGrowth(q, r)
  }

  /** Scheduling never adds a second fetcher while one is outstanding. */
  lemma {:induction false} AutoFetchedStep(cfg: Config, q: Queue, m: S2, r: Queue)
    requires AutoFetched(cfg, q, m, r)
    ensures FetcherStep(q, r)
    ensures q.isFetching ==> r == q
    ensures r.isFetching
      || (r == q && (OutboxSize(cfg, q, m) > cfg.outboxHighsize || |q.inbox| > cfg.inboxLowsize ||
                     Upstream(cfg, m) == {} || cfg.fetcherConcurrency == 0))
  {
  }

  /** Two such steps make one: between two `on_fetcher_done` calls at
      most one fetcher is scheduled. */
  lemma {:induction false} FetchGrowthTrans(a: Queue, b: Queue, c: Queue)
    requires FetchGrowth(a, b) && FetchGrowth(b, c)
    ensures FetchGrowth(a, c)
  {
    if b.isFetching != a.isFetching || b.scheduled != a.scheduled {
      assert b.isFetching;
      assert c.scheduled == b.scheduled;
    }
  }

  /** A set holds subsets of every smaller size. */
  lemma {:induction false} SubsetOfSize(s: set<string>, k: nat)
    requires k <= |s|
    ensures exists t :: t <= s && |t| == k
    decreases k
  {
    if k == 0 {
      var e: set<string> := {};
      assert e <= s && |e| == 0;
    } else {
      var x :| x in s;
      SubsetOfSize(s - {x}, k - 1);
      var t :| t <= s - {x} && |t| == k - 1;
      assert t + {x} <= s && |t + {x}| == k;
    }
  }

  // ---- op_execute -----------------------------------------------------------------------

  /** `apply_complete(message_id, status=ERROR_NOTRY)`. */
  function CompleteNotry(m: S2, id: MessageId): Applied {
    CompleteSpec(m, id, Some(ErrorNotry))
  }

  /** `apply_acked(outbox_message_id, status=ERROR_NOTRY)`. */
  function AckNotry(m: S2, cid: MessageId): Applied {
    AckedSpec(m, cid, ErrorNotry)
  }

  /** What one popped message does to the state: the new state, whether
      the loop keeps the message (returns or exports it), and the error
      that stops the loop, if any. */
  datatype Step = Step(s: S2, kept: bool, error: Option<QueueError>)

  /** A run over a heap: the heap left, the state, the messages popped in
      order, and the result. */
  datatype Run = Run(box: Box, s: S2, taken: seq<Message>, result: Result<Message, QueueError>)

  /** One pass of the `op_execute` loop after the pop: mark EXECUTE, then
      complete an expired message as ERROR_NOTRY, or keep it. With the
      queue's own steps the completion always fails, because the message
      is EXECUTE by then (`ExecuteOneExpiredRaises`). */
  function ExecuteOne(msg: Message, m: S2, execute: (S2, MessageId) -> Applied, complete: (S2, MessageId) -> Applied,
                      expired: Message -> bool): (r: Step)
    ensures r.error.None? ==> (r.kept <==> !expired(msg))
    ensures r.kept ==> r.error.None?
    ensures r.error.Some? ==> r.error.value.StateFailed?
  {
    var a := execute(m, msg.id);
    if a.error.Some? then Step(a.s, false, Some(StateFailed(a.error.value)))
    else if expired(msg) then
      var c := complete(a.s, msg.id);
      Step(c.s, false, if c.error.Some? then Some(StateFailed(c.error.value)) else None)
    else Step(a.s, true, None)
  }

  /** The loop of `op_execute`: pop, mark EXECUTE, and complete an expired
      message as ERROR_NOTRY and go on. The state steps are parameters:
      the queue calls `ExecuteSpec` and `CompleteNotry`, with which an
      expired message raises rather than being skipped
      (`ExecuteRunNeverSkips`); `ExecuteUnlessExpired` gives the loop that
      skips it. */
  function ExecuteRun(box: Box, m: S2, execute: (S2, MessageId) -> Applied, complete: (S2, MessageId) -> Applied,
                      expired: Message -> bool): Run
    decreases |box|
  {
    if box == [] then Run(box, m, [], Err(EmptyHeap))
    else
      var p := Pop(box);
      var st := ExecuteOne(p.0, m, execute, complete, expired);
      if st.error.Some? then Run(p.1, st.s, [p.0], Err(st.error.value))
      else if st.kept then Run(p.1, st.s, [p.0], Ok(p.0))
      else
        var r := ExecuteRun(p.1, st.s, execute, complete, expired);
        r.(taken := [p.0] + r.taken)
  }

  /** `op_execute` takes out of the heap exactly the messages it pops. */
  lemma {:induction false} ExecuteRunTaken(box: Box, m: S2, execute: (S2, MessageId) -> Applied,
                                           complete: (S2, MessageId) -> Applied, expired: Message -> bool)
    ensures var r := ExecuteRun(box, m, execute, complete, expired);
      multiset(box) == multiset(r.box) + multiset(r.taken)
    decreases |box|
  {
    if box != [] {
      var p := Pop(box);
      var st := ExecuteOne(p.0, m, execute, complete, expired);
      PopFacts(box);
      if st.error.None? && !st.kept {
        ExecuteRunTaken(p.1, st.s, execute, complete, expired);
      }
    }
  }

  /** `op_execute` pops messages in ascending priority. */
  lemma {:induction false} ExecuteRunOrder(box: Box, m: S2, execute: (S2, MessageId) -> Applied,
                                           complete: (S2, MessageId) -> Applied, expired: Message -> bool)
    ensures Ascending(ExecuteRun(box, m, execute, complete, expired).taken)
    decreases |box|
  {
    if box != [] {
      var p := Pop(box);
      var st := ExecuteOne(p.0, m, execute, complete, expired);
      if st.error.None? && !st.kept {
        var r := ExecuteRun(p.1, st.s, execute, complete, expired);
        PopFacts(box);
        ExecuteRunOrder(p.1, st.s, execute, complete, expired);
        ExecuteRunTaken(p.1, st.s, execute, complete, expired);
        assert forall y :: y in r.taken ==> y in multiset(p.1);
        AscendingCons(p.0, r.taken);
      }
    }
  }

  /** No message `op_execute` pops has a higher priority than a message it
      leaves in the heap. */
  lemma {:induction false} ExecuteRunLeast(box: Box, m: S2, execute: (S2, MessageId) -> Applied,
                                           complete: (S2, MessageId) -> Applied, expired: Message -> bool)
    ensures var r := ExecuteRun(box, m, execute, complete, expired);
      NoneAbove(r.taken, r.box)
    decreases |box|
  {
    if box != [] {
      var p := Pop(box);
      var st := ExecuteOne(p.0, m, execute, complete, expired);
      PopFacts(box);
      if st.error.None? && !st.kept {
        var r := ExecuteRun(p.1, st.s, execute, complete, expired);
        ExecuteRunLeast(p.1, st.s, execute, complete, expired);
        ExecuteRunTaken(p.1, st.s, execute, complete, expired);
        assert forall y :: y in r.box ==> y in multiset(p.1);
      }
    }
  }

  /** `op_execute` returns the last message it popped, which has not
      expired; every message popped before it had expired. An empty heap
      ends the loop only when every message had expired. */
  lemma {:induction false} ExecuteRunResult(box: Box, m: S2, execute: (S2, MessageId) -> Applied,
                                            complete: (S2, MessageId) -> Applied, expired: Message -> bool)
    ensures var r := ExecuteRun(box, m, execute, complete, expired);
      (r.result.Ok? ==>
        !expired(r.result.value) &&
        exists skipped :: r.taken == skipped + [r.result.value] && forall x :: x in skipped ==> expired(x)) &&
      (r.result == Err(EmptyHeap) ==> r.box == [] && forall x :: x in r.taken ==> expired(x))
    decreases |box|
  {
    if box != [] {
      var p := Pop(box);
      var st := ExecuteOne(p.0, m, execute, complete, expired);
      if st.kept {
        assert [p.0] == [] + [p.0];
      } else if st.error.None? {
        var r := ExecuteRun(p.1, st.s, execute, complete, expired);
        ExecuteRunResult(p.1, st.s, execute, complete, expired);
        if r.result.Ok? {
          var skipped :| r.taken == skipped + [r.result.value] && forall x :: x in skipped ==> expired(x);
          assert [p.0] + r.taken == ([p.0] + skipped) + [r.result.value];
        }
      }
    }
  }

  // ---- expired messages in op_execute ---------------------------------------------------

  /** `apply_complete(status=ERROR_NOTRY)` right after a successful
      `apply_execute` always raises: the message is EXECUTE by then, a
      status `apply_complete` does not accept. */
  lemma {:induction false} CompleteAfterExecuteRaises(m: S2, id: MessageId)
    requires ExecuteSpec(m, id).error.None?
    ensures CompleteNotry(ExecuteSpec(m, id).s, id) == Failed(ExecuteSpec(m, id).s, WrongStatus)
  {
    var e := Lookup(m.state, id).value;
    AssignLookup(m.state, id, e.(status := Execute), id);
  }

  /** With the queue's own state steps, an expired message never gets
      through a pass of the `op_execute` loop: `apply_execute` or the
      `apply_complete` after it raises. */
  lemma {:induction false} ExecuteOneExpiredRaises(msg: Message, m: S2, expired: Message -> bool)
    requires expired(msg)
    ensures ExecuteOne(msg, m, ExecuteSpec, CompleteNotry, expired).error.Some?
  {
    if ExecuteSpec(m, msg.id).error.None? {
      CompleteAfterExecuteRaises(m, msg.id);
    }
  }

  /** So `op_execute` never skips a message: it returns or raises on the
      first message it pops, and raises when that message has expired. */
  lemma {:induction false} ExecuteRunNeverSkips(box: Box, m: S2, expired: Message -> bool)
    ensures var r := ExecuteRun(box, m, ExecuteSpec, CompleteNotry, expired);
      (box == [] ==> r.result == Err(EmptyHeap) && r.taken == []) &&
      (box != [] ==> r.taken == [Pop(box).0]) &&
      (box != [] && expired(Pop(box).0) ==> r.result.Err? && r.result.error.StateFailed?)
  {
    if box != [] {
      var p := Pop(box);
      if expired(p.0) {
        ExecuteOneExpiredRaises(p.0, m, expired);
      }
    }
  }

  /** The intended `op_execute` step: an expired message is completed as
      ERROR_NOTRY while it is still INBOX, before `apply_execute`; any other
      message is marked EXECUTE. Given as the `execute` step of `ExecuteOne`
      and `ExecuteRun`, with `CompleteNotry` as the `complete` step, it
      turns them into the corrected loop, so the lemmas above about the
      loop's order and result hold for it as well. */
  function ExecuteUnlessExpired(expired: Message -> bool): (S2, MessageId) -> Applied {
    (m: S2, id: MessageId) => if id in m.objects && expired(m.objects[id]) then Succeeded(m) else ExecuteSpec(m, id)
  }

  /** A message of the inbox heap as `op_inbox` left it: INBOX, not acked,
      and stored as itself. */
  predicate Ready(m: S2, x: Message) {
    x.id in m.objects && m.objects[x.id] == x &&
    Lookup(m.state, x.id).Some? && Lookup(m.state, x.id).value.status == Inbox && !Lookup(m.state, x.id).value.isAcked
  }

  /** No two messages of a heap share an id. */
  predicate DistinctIds(box: Box) {
    forall i, j :: 0 <= i < j < |box| ==> box[i].id != box[j].id
  }

  lemma {:induction false} PopDistinct(box: Box)
    requires box != [] && DistinctIds(box)
    ensures DistinctIds(Pop(box).1)
    ensures forall y :: y in Pop(box).1 ==> y in box && y.id != Pop(box).0.id
  {
    var i := MinIndex(box);
    var rest := Pop(box).1;
    WithoutFacts(box, i);
    forall y | y in rest ensures y in box && y.id != box[i].id {
      var j :| 0 <= j < |rest| && rest[j] == y;
      assert y == box[if j < i then j else j + 1];
    }
    forall a, b | 0 <= a < b < |rest| ensures rest[a].id != rest[b].id {
      assert rest[a] == box[if a < i then a else a + 1];
      assert rest[b] == box[if b < i then b else b + 1];
    }
  }

  /** With the corrected step, an expired INBOX message is skipped: it is
      completed as ERROR_NOTRY, nothing raises and the loop goes on. */
  lemma {:induction false} ExpiredSkippedFixed(msg: Message, m: S2, expired: Message -> bool)
    requires expired(msg) && Ready(m, msg)
    ensures var st := ExecuteOne(msg, m, ExecuteUnlessExpired(expired), CompleteNotry, expired);
      st == Step(CompleteNotry(m, msg.id).s, false, None) &&
      Lookup(st.s.state, msg.id) == Some(MsgState(ErrorNotry, true, Lookup(m.state, msg.id).value.outbox))
  {
    CompleteOutcome(m, msg.id, Some(ErrorNotry), msg.id);
  }

  /** A message that has not expired is treated by the corrected step
      exactly as by the source's. */
  lemma {:induction false} UnexpiredSameFixed(msg: Message, m: S2, expired: Message -> bool)
    requires !expired(msg) && (msg.id in m.objects ==> m.objects[msg.id] == msg)
    ensures ExecuteOne(msg, m, ExecuteUnlessExpired(expired), CompleteNotry, expired) ==
      ExecuteOne(msg, m, ExecuteSpec, CompleteNotry, expired)
  {
  }

  /** Completing one ready message leaves every other ready message ready. */
  lemma {:induction false} ReadyAfterComplete(m: S2, x0: Message, rest: Box)
    requires Ready(m, x0) && forall x :: x in rest ==> Ready(m, x) && x.id != x0.id
    ensures forall x :: x in rest ==> Ready(CompleteNotry(m, x0.id).s, x)
  {
    forall x | x in rest ensures Ready(CompleteNotry(m, x0.id).s, x) {
      CompleteOutcome(m, x0.id, Some(ErrorNotry), x.id);
    }
  }

  /** The corrected loop never raises on a heap of ready messages with
      distinct ids: it returns a message, or finds the heap empty. With
      `ExecuteRunResult`, it returns the first message that has not expired
      after skipping exactly the expired ones. */
  lemma {:induction false} FixedRunNeverRaises(box: Box, m: S2, expired: Message -> bool)
    requires DistinctIds(box) && forall x :: x in box ==> Ready(m, x)
    ensures var r := ExecuteRun(box, m, ExecuteUnlessExpired(expired), CompleteNotry, expired);
      r.result.Ok? || r.result == Err(EmptyHeap)
    decreases |box|
  {
    if box != [] {
      var p := Pop(box);
      PopDistinct(box);
      PopFacts(box);
      assert p.0 in multiset(box);
      assert p.0 in box;
      if expired(p.0) {
        ExpiredSkippedFixed(p.0, m, expired);
        ReadyAfterComplete(m, p.0, p.1);
        FixedRunNeverRaises(p.1, CompleteNotry(m, p.0.id).s, expired);
      } else {
        UnexpiredSameFixed(p.0, m, expired);
        assert ExecuteSpec(m, p.0.id).error.None?;
        assert ExecuteOne(p.0, m, ExecuteSpec, CompleteNotry, expired).kept;
      }
    }
  }

  // ---- op_export ------------------------------------------------------------------------

  /** `get_outbox_state(id)`; a lookup that finds nothing fails. */
  function GetOutboxState(m: S2, cid: MessageId): Result<OutboxState, QueueError> {
    if cid !in m.objects then Err(MissingKey)
    else
      var msg := m.objects[cid];
      if msg.parentId.None? then Err(MissingKey)
      else match Lookup(m.state, msg.parentId.value)
        case None => Err(MissingKey)
        case Some(e) =>
          if e.outbox.None? then Err(MissingKey)
          else match Lookup(e.outbox.value, msg.id)
            case None => Err(MissingKey)
            case Some(os) => Ok(os)
  }

  function Pow8(n: nat): nat {
    if n == 0 then 1 else 8 * Pow8(n - 1)
  }

  /** `8 ** executed_count` seconds in milliseconds. */
  function Growth(count: int): nat {
    if count >= 0 then Pow8(count) * 1000 else 0
  }

  /** `backoff_delay(executed_count)` in milliseconds, where `jitter` is
      the random number of milliseconds (0 to 8000): the smaller of the
      growing delay and `max_retry_time`. */
  function Backoff(cfg: Config, count: int, jitter: int): (r: int)
    ensures r <= cfg.maxRetryTime * 1000 && r <= Growth(count) + jitter
    ensures r == cfg.maxRetryTime * 1000 || r == Growth(count) + jitter
  {
    Min(Growth(count) + jitter, cfg.maxRetryTime * 1000)
  }

  /** A drain of one box: the box left, the state, the messages exported
      so far, the messages popped in order, and the error that stopped
      it, if any. */
  datatype Drain = Drain(box: Box, s: S2, ret: seq<Message>, taken: seq<Message>, error: Option<QueueError>)

  /** `_export_box` after the pop: an expired message is acked as
      ERROR_NOTRY; any other is marked EXPORT with a retry time of `base`
      plus the backoff of its executed count, and is exported. `n` is the
      number of messages exported so far. With the queue's `AckNotry` the
      ack of an expired OUTBOX message fails (`ExportOneExpiredRaises`);
      `ExportThenAckNotry` is the ack that succeeds. */
  function ExportOne(cfg: Config, msg: Message, m: S2, n: nat, base: int,
                     ack: (S2, MessageId) -> Applied, exportStep: (S2, MessageId, Option<int>) -> Applied,
                     expired: Message -> bool, jitter: nat -> int): (r: Step)
    ensures r.error.None? ==> (r.kept <==> !expired(msg))
    ensures r.kept ==> r.error.None?
    ensures !expired(msg) && GetOutboxState(m, msg.id).Err? ==> r == Step(m, false, Some(GetOutboxState(m, msg.id).error))
  {
    if expired(msg) then
      var a := ack(m, msg.id);
      Step(a.s, false, if a.error.Some? then Some(StateFailed(a.error.value)) else None)
    else match GetOutboxState(m, msg.id)
      case Err(e) => Step(m, false, Some(e))
      case Ok(os) =>
        if os.executedCount.None? then Step(m, false, Some(NoCount))
        else
          var a := exportStep(m, msg.id, Some(base + Backoff(cfg, os.executedCount.value, jitter(n))));
          Step(a.s, a.error.None?, if a.error.Some? then Some(StateFailed(a.error.value)) else None)
  }

  /** `apply_acked(status=ERROR_NOTRY)` succeeds only on an EXPORT outbox
      message; on one in any other status it raises. */
  lemma {:induction false} AckNotryNeedsExport(m: S2, cid: MessageId)
    ensures AckNotry(m, cid).error.None? ==> ChildOf(m, cid).Ok? && ChildOf(m, cid).value.state.status == Export
    ensures cid in m.objects && ChildOf(m, cid).Ok? && ChildOf(m, cid).value.state.status != Export ==>
      AckNotry(m, cid) == Failed(m, WrongStatus)
  {
  }

  /** So in `_export_box` an expired message whose outbox state is not
      EXPORT, as that of every message waiting in an outbox heap is OUTBOX,
      makes the drain raise instead of being dropped. */
  lemma {:induction false} ExportOneExpiredRaises(cfg: Config, msg: Message, m: S2, n: nat, base: int,
                                                  expired: Message -> bool, jitter: nat -> int)
    requires expired(msg)
    requires ChildOf(m, msg.id).Ok? ==> ChildOf(m, msg.id).value.state.status != Export
    ensures ExportOne(cfg, msg, m, n, base, AckNotry, ExportSpec, expired, jitter).error.Some?
  {
    AckNotryNeedsExport(m, msg.id);
  }

  /** The intended `_export_box` branch for an expired message: mark it
      EXPORT, then ack it as ERROR_NOTRY. */
  function ExportThenAckNotry(m: S2, cid: MessageId): Applied {
    var e := ExportSpec(m, cid, None);
    if e.error.Some? then e else AckNotry(e.s, cid)
  }

  /** Replacing an outbox state leaves the child found the same way. */
  lemma {:induction false} ChildOfAfterSet(m: S2, cid: MessageId, os: OutboxState)
    requires ChildOf(m, cid).Ok? && m.objects[cid].id == cid
    ensures var c := ChildOf(m, cid).value;
      ChildOf(SetChild(m, c, os), cid) ==
        Ok(Child(c.msg, c.parent, c.entry.(outbox := Some(Assign(c.outs, cid, os))), Assign(c.outs, cid, os), os))
  {
    var c := ChildOf(m, cid).value;
    var e1 := c.entry.(outbox := Some(Assign(c.outs, cid, os)));
    AssignLookup(m.state, c.parent, e1, c.parent);
    AssignLookup(c.outs, cid, os, cid);
  }

  /** With the corrected branch, an expired OUTBOX message that needs an
      ack is dropped without error and finishes its parent as ERROR_NOTRY. */
  lemma {:induction false} ExpiredExportFixed(cfg: Config, msg: Message, m: S2, n: nat, base: int,
                                              expired: Message -> bool, jitter: nat -> int)
    requires expired(msg) && msg.id in m.objects && m.objects[msg.id].id == msg.id && ChildOf(m, msg.id).Ok?
    requires var c := ChildOf(m, msg.id).value;
      c.state.status == Outbox && c.msg.requireAck && DistinctKeys(c.outs) &&
      c.parent in m.objects && m.objects[c.parent].requireAck
    ensures var st := ExportOne(cfg, msg, m, n, base, ExportThenAckNotry, ExportSpec, expired, jitter);
      st.error.None? && !st.kept && StatusOf(st.s, ChildOf(m, msg.id).value.parent) == Some(ErrorNotry)
  {
    var c := ChildOf(m, msg.id).value;
    var os := c.state.(status := Export, retryAt := None);
    var m1 := SetChild(m, c, os);
    assert ExportSpec(m, msg.id, None) == Succeeded(m1);
    ChildOfAfterSet(m, msg.id, os);
    AssignDistinct(c.outs, msg.id, os);
    SetChildFacts(m, c, os, c.parent);
    AckedFinishes(m1, msg.id, ErrorNotry);
  }

  /** `while len(ret) < maxsize and box: _export_box(ret, box, base)`. The
      random delay of the n-th exported message is `jitter(n)`. The state
      steps are parameters: the queue calls `AckNotry` and `ExportSpec`. */
  function ExportBox(cfg: Config, box: Box, m: S2, ret: seq<Message>, maxsize: int, base: int,
                     ack: (S2, MessageId) -> Applied, exportStep: (S2, MessageId, Option<int>) -> Applied,
                     expired: Message -> bool, jitter: nat -> int): Drain
    decreases |box|
  {
    if |ret| >= maxsize || box == [] then Drain(box, m, ret, [], None)
    else
      var p := Pop(box);
      var st := ExportOne(cfg, p.0, m, |ret|, base, ack, exportStep, expired, jitter);
      if st.error.Some? then Drain(p.1, st.s, ret, [p.0], st.error)
      else
        var d := ExportBox(cfg, p.1, st.s, if st.kept then ret + [p.0] else ret, maxsize, base, ack, exportStep, expired, jitter);
        d.(taken := [p.0] + d.taken)
  }

  function Max(a: int, b: int): int {
    if a >= b then a else b
  }

  /** The messages of `xs` that have not expired, in order. */
  function Unexpired(xs: seq<Message>, expired: Message -> bool): seq<Message>
    decreases |xs|
  {
    if xs == [] then [] else (if expired(xs[0]) then [] else [xs[0]]) + Unexpired(xs[1..], expired)
  }

  /** A drain only appends, never past `maxsize`, and stops without error
      only when the box is empty or `maxsize` is reached. */
  lemma {:induction false} ExportBoxBound(cfg: Config, box: Box, m: S2, ret: seq<Message>, maxsize: int, base: int,
                                          ack: (S2, MessageId) -> Applied, exportStep: (S2, MessageId, Option<int>) -> Applied,
                                          expired: Message -> bool, jitter: nat -> int)
    ensures var d := ExportBox(cfg, box, m, ret, maxsize, base, ack, exportStep, expired, jitter);
      |ret| <= |d.ret| <= Max(|ret|, maxsize) && d.ret[..|ret|] == ret &&
      (d.error.None? ==> d.box == [] || |d.ret| >= maxsize)
    decreases |box|
  {
    if |ret| < maxsize && box != [] {
      var p := Pop(box);
      var st := ExportOne(cfg, p.0, m, |ret|, base, ack, exportStep, expired, jitter);
      if st.error.None? {
        var ret1 := if st.kept then ret + [p.0] else ret;
        ExportBoxBound(cfg, p.1, st.s, ret1, maxsize, base, ack, exportStep, expired, jitter);
        var d := ExportBox(cfg, p.1, st.s, ret1, maxsize, base, ack, exportStep, expired, jitter);
        assert d.ret[..|ret|] == d.ret[..|ret1|][..|ret|];
      }
    }
  }

  /** A drain takes out of the box exactly the messages it pops. */
  lemma {:induction false} ExportBoxTaken(cfg: Config, box: Box, m: S2, ret: seq<Message>, maxsize: int, base: int,
                                          ack: (S2, MessageId) -> Applied, exportStep: (S2, MessageId, Option<int>) -> Applied,
                                          expired: Message -> bool, jitter: nat -> int)
    ensures var d := ExportBox(cfg, box, m, ret, maxsize, base, ack, exportStep, expired, jitter);
      multiset(box) == multiset(d.box) + multiset(d.taken)
    decreases |box|
  {
    if |ret| < maxsize && box != [] {
      var p := Pop(box);
      var st := ExportOne(cfg, p.0, m, |ret|, base, ack, exportStep, expired, jitter);
      PopFacts(box);
      if st.error.None? {
        ExportBoxTaken(cfg, p.1, st.s, if st.kept then ret + [p.0] else ret, maxsize, base, ack, exportStep, expired, jitter);
      }
    }
  }

  /** Without an error, a drain exports exactly the popped messages that
      have not expired, in the order popped. */
  lemma {:induction false} ExportBoxContents(cfg: Config, box: Box, m: S2, ret: seq<Message>, maxsize: int, base: int,
                                             ack: (S2, MessageId) -> Applied, exportStep: (S2, MessageId, Option<int>) -> Applied,
                                             expired: Message -> bool, jitter: nat -> int)
    ensures var d := ExportBox(cfg, box, m, ret, maxsize, base, ack, exportStep, expired, jitter);
      d.error.None? ==> d.ret == ret + Unexpired(d.taken, expired)
    decreases |box|
  {
    if |ret| < maxsize && box != [] {
      var p := Pop(box);
      var st := ExportOne(cfg, p.0, m, |ret|, base, ack, exportStep, expired, jitter);
      if st.error.None? {
        var ret1 := if st.kept then ret + [p.0] else ret;
        ExportBoxContents(cfg, p.1, st.s, ret1, maxsize, base, ack, exportStep, expired, jitter);
        var d := ExportBox(cfg, p.1, st.s, ret1, maxsize, base, ack, exportStep, expired, jitter);
        var t := [p.0] + d.taken;
        assert ExportBox(cfg, box, m, ret, maxsize, base, ack, exportStep, expired, jitter) == d.(taken := t);
        assert t[0] == p.0 && t[1..] == d.taken;
        var u := if st.kept then [p.0] else [];
        assert Unexpired(t, expired) == u + Unexpired(d.taken, expired);
        if d.error.None? {
          assert d.ret == (ret + u) + Unexpired(d.taken, expired);
          Text.ConcatAssoc(ret, u, Unexpired(d.taken, expired));
        }
      }
    }
  }

  /** The result of `op_export`: the queue, the state and the messages. */
  datatype Exported = Exported(q: Queue, s: S2, result: Result<seq<Message>, QueueError>)

  /** `dst_node_outbox.get(dst_node)`, a dict that is not empty. */
  function NodeDict(q: Queue, dstNode: Option<string>): Option<Boxes> {
    if dstNode.None? then None
    else match Lookup(q.dstNodeOutbox, dstNode.value)
      case None => None
      case Some(d) => if d == [] then None else Some(d)
  }

  /** The node-specific box `op_export` drains first. */
  function NodeBox(q: Queue, dstNode: Option<string>, dst: string): Box {
    match NodeDict(q, dstNode)
    case None => []
    case Some(d) => Lookup(d, dst).GetOr([])
  }

  /** The queue with the node-specific box for `dst` replaced by `b`,
      when there is a node dict to hold it. */
  function SetNodeBox(q: Queue, dstNode: Option<string>, dst: string, b: Box): Queue {
    match NodeDict(q, dstNode)
    case None => q
    case Some(d) => q.(dstNodeOutbox := Assign(q.dstNodeOutbox, dstNode.value, Assign(d, dst, b)))
  }

  /** Writing back a box that is there is read back. */
  lemma {:induction false} SetNodeBoxRead(q: Queue, dstNode: Option<string>, dst: string, b: Box)
    requires NodeDict(q, dstNode).Some? ==> Lookup(NodeDict(q, dstNode).value, dst).Some?
    ensures NodeBox(SetNodeBox(q, dstNode, dst, b), dstNode, dst) == (if NodeDict(q, dstNode).Some? then b else [])
    ensures SetNodeBox(q, dstNode, dst, b).dstOutbox == q.dstOutbox
  {
    if NodeDict(q, dstNode).Some? {
      var d := NodeDict(q, dstNode).value;
      var inner := Assign(d, dst, b);
      AssignLookup(q.dstNodeOutbox, dstNode.value, inner, dstNode.value);
      AssignLookup(d, dst, b, dst);
      AssignShape(d, dst, b);
      assert NodeDict(SetNodeBox(q, dstNode, dst, b), dstNode) == Some(inner);
    }
  }

  /** `op_export(dst, dst_node, maxsize)` at time `now`, up to the
      fetcher it may schedule: drain the node-specific box, write it back,
      then drain the generic box. */
  function ExportRun(cfg: Config, q: Queue, m: S2, dst: string, dstNode: Option<string>, maxsize: int, now: int,
                     ack: (S2, MessageId) -> Applied, exportStep: (S2, MessageId, Option<int>) -> Applied, expired: Message -> bool, jitter: nat -> int): Exported
  {
    var base := now + cfg.cycleTime * 1000;
    var nd := NodeDict(q, dstNode);
    if nd.Some? && Lookup(nd.value, dst).None? then Exported(q, m, Err(MissingKey))
    else
      var d1 := ExportBox(cfg, NodeBox(q, dstNode, dst), m, [], maxsize, base, ack, exportStep, expired, jitter);
      ExportGeneric(cfg, SetNodeBox(q, dstNode, dst, d1.box), d1.s, dst, d1.ret, d1.error, maxsize, base, ack, exportStep, expired, jitter)
  }

  /** Once the node dict, if any, has a box for `dst`, `op_export` is the
      drain of the node-specific box into `ret`, the write-back of what is
      `left` of it, and then the generic half. */
  lemma {:induction false} ExportRunSplit(cfg: Config, q: Queue, m: S2, dst: string, dstNode: Option<string>, maxsize: int, now: int, base: int,
                       ack: (S2, MessageId) -> Applied, exportStep: (S2, MessageId, Option<int>) -> Applied, expired: Message -> bool, jitter: nat -> int,
                       left: Box, ret: seq<Message>, err: Option<QueueError>, m1: S2)
    requires base == now + cfg.cycleTime * 1000
    requires NodeDict(q, dstNode).Some? ==> Lookup(NodeDict(q, dstNode).value, dst).Some?
    requires var d1 := ExportBox(cfg, NodeBox(q, dstNode, dst), m, [], maxsize, base, ack, exportStep, expired, jitter);
      left == d1.box && ret == d1.ret && err == d1.error && m1 == d1.s
    ensures ExportRun(cfg, q, m, dst, dstNode, maxsize, now, ack, exportStep, expired, jitter) ==
      ExportGeneric(cfg, SetNodeBox(q, dstNode, dst, left), m1, dst, ret, err, maxsize, base, ack, exportStep, expired, jitter)
  {
  }

  /** The second half of `op_export`, once the node-specific box is
      drained into `ret` with the outcome `err`: drain the generic box of
      `dst`, when there is one, after the node-specific one. */
  function ExportGeneric(cfg: Config, q: Queue, m: S2, dst: string, ret: seq<Message>, err: Option<QueueError>, maxsize: int, base: int,
                         ack: (S2, MessageId) -> Applied, exportStep: (S2, MessageId, Option<int>) -> Applied, expired: Message -> bool, jitter: nat -> int): Exported
  {
    if err.Some? then Exported(q, m, Err(err.value))
    else
      var g := Lookup(q.dstOutbox, dst);
      var d := ExportBox(cfg, g.GetOr([]), m, ret, maxsize, base, ack, exportStep, expired, jitter);
      var q2 := if g.Some? then q.(dstOutbox := Assign(q.dstOutbox, dst, d.box)) else q;
      if d.error.Some? then Exported(q2, d.s, Err(d.error.value))
      else Exported(q2, d.s, Ok(d.ret))
  }

  /** What an error-free drain from `ret` adds: at most up to `maxsize`,
      only messages of the box, none expired; and it stops short of
      `maxsize` only once the box is empty. */
  lemma {:induction false} DrainFacts(cfg: Config, box: Box, m: S2, ret: seq<Message>, maxsize: int, base: int,
                   ack: (S2, MessageId) -> Applied, exportStep: (S2, MessageId, Option<int>) -> Applied,
                   expired: Message -> bool, jitter: nat -> int)
    ensures var d := ExportBox(cfg, box, m, ret, maxsize, base, ack, exportStep, expired, jitter);
      d.error.None? ==>
        |ret| <= |d.ret| <= Max(|ret|, maxsize) && d.ret[..|ret|] == ret &&
        multiset(d.ret[|ret|..]) <= multiset(box) &&
        (forall x :: x in d.ret[|ret|..] ==> !expired(x)) &&
        (|d.ret| < maxsize ==> d.box == [])
  {
    var d := ExportBox(cfg, box, m, ret, maxsize, base, ack, exportStep, expired, jitter);
    ExportBoxBound(cfg, box, m, ret, maxsize, base, ack, exportStep, expired, jitter);
    ExportBoxTaken(cfg, box, m, ret, maxsize, base, ack, exportStep, expired, jitter);
    ExportBoxContents(cfg, box, m, ret, maxsize, base, ack, exportStep, expired, jitter);
    UnexpiredFacts(d.taken, expired);
    if d.error.None? {
      assert d.ret[|ret|..] == Unexpired(d.taken, expired);
    }
  }

  /** `op_export` returns at most `maxsize` messages, none expired: first
      some from the node-specific box, then some from the generic box, and
      the generic box only once the node-specific box is empty. A node
      dict without a box for `dst` is the `KeyError` of line 166. */
  lemma {:induction false} ExportOrder(cfg: Config, q: Queue, m: S2, dst: string, dstNode: Option<string>, maxsize: int, now: int,
                    ack: (S2, MessageId) -> Applied, exportStep: (S2, MessageId, Option<int>) -> Applied, expired: Message -> bool, jitter: nat -> int)
    ensures var e := ExportRun(cfg, q, m, dst, dstNode, maxsize, now, ack, exportStep, expired, jitter);
      (NodeDict(q, dstNode).Some? && Lookup(NodeDict(q, dstNode).value, dst).None? ==> e == Exported(q, m, Err(MissingKey))) &&
      (e.result.Ok? ==>
        var ret := e.result.value;
        |ret| <= Max(0, maxsize) &&
        (forall x :: x in ret ==> !expired(x)) &&
        exists k :: 0 <= k <= |ret| &&
          multiset(ret[..k]) <= multiset(NodeBox(q, dstNode, dst)) &&
          multiset(ret[k..]) <= multiset(Lookup(q.dstOutbox, dst).GetOr([])) &&
          (k < |ret| ==> NodeBox(e.q, dstNode, dst) == []))
  {
    var base := now + cfg.cycleTime * 1000;
    var nd := NodeDict(q, dstNode);
    var e := ExportRun(cfg, q, m, dst, dstNode, maxsize, now, ack, exportStep, expired, jitter);
    if !(nd.Some? && Lookup(nd.value, dst).None?) && e.result.Ok? {
      var d1 := ExportBox(cfg, NodeBox(q, dstNode, dst), m, [], maxsize, base, ack, exportStep, expired, jitter);
      var q1 := SetNodeBox(q, dstNode, dst, d1.box);
      var g := Lookup(q.dstOutbox, dst);
      var d2 := ExportBox(cfg, g.GetOr([]), d1.s, d1.ret, maxsize, base, ack, exportStep, expired, jitter);
      DrainFacts(cfg, NodeBox(q, dstNode, dst), m, [], maxsize, base, ack, exportStep, expired, jitter);
      DrainFacts(cfg, g.GetOr([]), d1.s, d1.ret, maxsize, base, ack, exportStep, expired, jitter);
      SetNodeBoxRead(q, dstNode, dst, d1.box);
      var ret := d2.ret;
      var k := |d1.ret|;
      assert ret == ret[..k] + ret[k..];
      assert d1.ret[0..] == d1.ret;
      assert NodeBox(e.q, dstNode, dst) == NodeBox(q1, dstNode, dst);
    }
  }

  /** Writing back a node-specific box keeps the dicts well formed. */
  lemma {:induction false} SetNodeBoxWellFormed(q: Queue, dstNode: Option<string>, dst: string, b: Box)
    requires WellFormed(q)
    ensures WellFormed(SetNodeBox(q, dstNode, dst, b))
  {
    if NodeDict(q, dstNode).Some? {
      var d := NodeDict(q, dstNode).value;
      var inner := Assign(d, dst, b);
      AssignDistinct(d, dst, b);
      AssignDistinct(q.dstNodeOutbox, dstNode.value, inner);
      forall n | Lookup(SetNodeBox(q, dstNode, dst, b).dstNodeOutbox, n).Some?
        ensures DistinctKeys(Lookup(SetNodeBox(q, dstNode, dst, b).dstNodeOutbox, n).value)
      {
        AssignLookup(q.dstNodeOutbox, dstNode.value, inner, n);
      }
    }
  }

  /** `op_export` keeps the dicts well formed. */
  lemma {:induction false} ExportWellFormed(cfg: Config, q: Queue, m: S2, dst: string, dstNode: Option<string>, maxsize: int, now: int,
                         ack: (S2, MessageId) -> Applied, exportStep: (S2, MessageId, Option<int>) -> Applied, expired: Message -> bool, jitter: nat -> int)
    requires WellFormed(q)
    ensures WellFormed(ExportRun(cfg, q, m, dst, dstNode, maxsize, now, ack, exportStep, expired, jitter).q)
  {
    var base := now + cfg.cycleTime * 1000;
    var d1 := ExportBox(cfg, NodeBox(q, dstNode, dst), m, [], maxsize, base, ack, exportStep, expired, jitter);
    var q1 := SetNodeBox(q, dstNode, dst, d1.box);
    SetNodeBoxWellFormed(q, dstNode, dst, d1.box);
    var e := ExportRun(cfg, q, m, dst, dstNode, maxsize, now, ack, exportStep, expired, jitter);
    var nd := NodeDict(q, dstNode);
    if !(nd.Some? && Lookup(nd.value, dst).None?) && d1.error.None? {
      SetNodeBoxRead(q, dstNode, dst, d1.box);
      var g := Lookup(q.dstOutbox, dst);
      var d2 := ExportBox(cfg, g.GetOr([]), d1.s, d1.ret, maxsize, base, ack, exportStep, expired, jitter);
      var q2 := if g.Some? then q1.(dstOutbox := Assign(q1.dstOutbox, dst, d2.box)) else q1;
      assert e.q == q2;
      AssignDistinct(q1.dstOutbox, dst, d2.box);
      assert q2.dstNodeOutbox == q1.dstNodeOutbox;
    }
  }

  /** The messages kept are among the given ones, and none has expired. */
  lemma {:induction false} UnexpiredFacts(xs: seq<Message>, expired: Message -> bool)
    ensures multiset(Unexpired(xs, expired)) <= multiset(xs)
    ensures forall x :: x in multiset(Unexpired(xs, expired)) ==> !expired(x)
    decreases |xs|
  {
    if xs != [] {
      UnexpiredFacts(xs[1..], expired);
      assert xs == [xs[0]] + xs[1..];
    }
  }

  // ---- check_timeout_and_retry ----------------------------------------------------------

  /** An EXPORT outbox state whose retry time is set, not zero, and past. */
  predicate Due(os: OutboxState, now: int) {
    os.status == Export && os.retryAt.Some? && os.retryAt.value != 0 && os.retryAt.value < now
  }

  /** An outbox state that has used up its retries. */
  predicate Exhausted(cfg: Config, os: OutboxState) {
    os.executedCount.Some? && os.executedCount.value >= cfg.maxRetryCount - 1
  }

  /** The ids to ack ERROR_NOTRY and the ids to retry. */
  type Picks = (seq<MessageId>, seq<MessageId>)

  function Prepend(acc: Picks, r: Result<Picks, QueueError>): Result<Picks, QueueError> {
    match r
    case Err(e) => Err(e)
    case Ok(c) => Ok((acc.0 + c.0, acc.1 + c.1))
  }

  /** The inner loop of `check_timeout_and_retry` over one message's
      outbox states. */
  function ChildPicks(cfg: Config, outs: seq<(MessageId, OutboxState)>, now: int): Result<Picks, QueueError>
    decreases |outs|
  {
    if outs == [] then Ok(([], []))
    else
      var os := outs[0].1;
      if !Due(os, now) then ChildPicks(cfg, outs[1..], now)
      else if os.executedCount.None? then Err(NoCount)
      else if Exhausted(cfg, os) then Prepend(([outs[0].0], []), ChildPicks(cfg, outs[1..], now))
      else Prepend(([], [outs[0].0]), ChildPicks(cfg, outs[1..], now))
  }

  /** The outer loop over the messages in OUTBOX. */
  function Picked(cfg: Config, st: seq<(MessageId, MsgState)>, now: int): Result<Picks, QueueError>
    decreases |st|
  {
    if st == [] then Ok(([], []))
    else
      var e := st[0].1;
      if e.status != Outbox then Picked(cfg, st[1..], now)
      else if e.outbox.None? then Err(MissingKey)
      else match ChildPicks(cfg, e.outbox.value, now)
        case Err(x) => Err(x)
        case Ok(c) => Prepend(c, Picked(cfg, st[1..], now))
  }

  /** The `j`-th outbox state of the `i`-th message is due. */
  predicate DueChild(st: seq<(MessageId, MsgState)>, i: int, j: int, now: int) {
    0 <= i < |st| && st[i].1.status == Outbox && st[i].1.outbox.Some? &&
    0 <= j < |st[i].1.outbox.value| && Due(st[i].1.outbox.value[j].1, now)
  }

  lemma {:induction false} ChildPicksExact(cfg: Config, outs: seq<(MessageId, OutboxState)>, now: int, id: MessageId)
    requires ChildPicks(cfg, outs, now).Ok?
    ensures var c := ChildPicks(cfg, outs, now).value;
      (id in c.0 <==> exists j :: 0 <= j < |outs| && outs[j].0 == id && Due(outs[j].1, now) && Exhausted(cfg, outs[j].1)) &&
      (id in c.1 <==> exists j :: 0 <= j < |outs| && outs[j].0 == id && Due(outs[j].1, now) && !Exhausted(cfg, outs[j].1))
    decreases |outs|
  {
    if outs != [] {
      ChildPicksExact(cfg, outs[1..], now, id);
      assert forall j :: 1 <= j < |outs| ==> outs[j] == outs[1..][j - 1];
      forall j | 0 <= j < |outs[1..]| ensures outs[1..][j] == outs[j + 1] { }
    }
  }

  /** `check_timeout_and_retry` picks exactly the due outbox states of the
      messages in OUTBOX: those that used up their retries to be acked
      ERROR_NOTRY, the others to be retried. */
  lemma {:induction false} PickedExact(cfg: Config, st: seq<(MessageId, MsgState)>, now: int, id: MessageId)
    requires Picked(cfg, st, now).Ok?
    ensures var c := Picked(cfg, st, now).value;
      (id in c.0 <==> exists i, j :: DueChild(st, i, j, now) && st[i].1.outbox.value[j].0 == id && Exhausted(cfg, st[i].1.outbox.value[j].1)) &&
      (id in c.1 <==> exists i, j :: DueChild(st, i, j, now) && st[i].1.outbox.value[j].0 == id && !Exhausted(cfg, st[i].1.outbox.value[j].1))
    decreases |st|
  {
    if st != [] {
      var rest := st[1..];
      PickedExact(cfg, rest, now, id);
      assert forall i, j :: 1 <= i < |st| ==> (DueChild(st, i, j, now) <==> DueChild(rest, i - 1, j, now));
      assert forall i :: 1 <= i < |st| ==> st[i] == rest[i - 1];
      var e := st[0].1;
      if e.status == Outbox {
        var outs := e.outbox.value;
        ChildPicksExact(cfg, outs, now, id);
        assert forall j :: DueChild(st, 0, j, now) <==> 0 <= j < |outs| && Due(outs[j].1, now);
        forall i, j | DueChild(rest, i, j, now) ensures DueChild(st, i + 1, j, now) && st[i + 1] == rest[i] { }
      } else {
        assert forall j :: !DueChild(st, 0, j, now);
        forall i, j | DueChild(rest, i, j, now) ensures DueChild(st, i + 1, j, now) && st[i + 1] == rest[i] { }
      }
    }
  }

  /** `for id in ids: op_acked(id, ERROR_NOTRY)`, as far as the state goes. */
  function AckAll(m: S2, ids: seq<MessageId>): Applied
    decreases |ids|
  {
    if ids == [] then Succeeded(m)
    else
      var a := AckAll(m, ids[..|ids| - 1]);
      if a.error.Some? then a else AckNotry(a.s, ids[|ids| - 1])
  }

  /** The retry loop: the queue, the state and the error that stopped it. */
  datatype Retried = Retried(q: Queue, s: S2, error: Option<QueueError>)

  /** One pass of the retry loop on the id `id`: an expired message is
      acked ERROR_NOTRY, any other is retried and pushed back to its
      outbox. A failed run stays as it is. */
  function RetryStep(r: Retried, id: MessageId, expired: Message -> bool): Retried {
    if r.error.Some? then r
    else if id !in r.s.objects then Retried(r.q, r.s, Some(MissingKey))
    else
      var msg := r.s.objects[id];
      if expired(msg) then
        var a := AckNotry(r.s, msg.id);
        Retried(r.q, a.s, if a.error.Some? then Some(StateFailed(a.error.value)) else None)
      else
        var a := RetrySpec(r.s, msg.id, None);
        if a.error.Some? then Retried(r.q, a.s, Some(StateFailed(a.error.value)))
        else Retried(PushSpec(r.q, msg), a.s, None)
  }

  /** The retry loop gets only EXPORT outbox messages (`check_timeout_and_retry`
      picks no other), and there an expired one is acked ERROR_NOTRY
      without error, finishing its parent. */
  lemma {:induction false} RetryExpiredAcked(r: Retried, id: MessageId, expired: Message -> bool)
    requires r.error.None? && id in r.s.objects && r.s.objects[id].id == id && expired(r.s.objects[id])
    requires ChildOf(r.s, id).Ok? && ChildOf(r.s, id).value.state.status == Export
    requires var c := ChildOf(r.s, id).value;
      c.parent in r.s.objects && r.s.objects[c.parent].requireAck && DistinctKeys(c.outs)
    ensures var t := RetryStep(r, id, expired);
      t.error.None? && t.q == r.q && Lookup(t.s.state, ChildOf(r.s, id).value.parent) == Some(MsgState(ErrorNotry, false, None))
  {
    AckedFinishes(r.s, id, ErrorNotry);
  }

  /** `for id in ids:` the retry loop. */
  function RetryAll(q: Queue, m: S2, ids: seq<MessageId>, expired: Message -> bool): Retried
    decreases |ids|
  {
    if ids == [] then Retried(q, m, None)
    else RetryStep(RetryAll(q, m, ids[..|ids| - 1], expired), ids[|ids| - 1], expired)
  }

  /** The retry loop never touches the fetcher fields or the inbox, and
      does the same to the boxes whatever they are. */
  lemma {:induction false} RetryAllFrame(q: Queue, m: S2, ids: seq<MessageId>, expired: Message -> bool, f: bool, sch: seq<Fetcher>)
    ensures var r := RetryAll(q, m, ids, expired);
      r.q.inbox == q.inbox && r.q.isFetching == q.isFetching && r.q.scheduled == q.scheduled &&
      RetryAll(q.(isFetching := f, scheduled := sch), m, ids, expired) == r.(q := r.q.(isFetching := f, scheduled := sch))
    decreases |ids|
  {
    if ids != [] {
      RetryAllFrame(q, m, ids[..|ids| - 1], expired, f, sch);
      RetryStepFrame(RetryAll(q, m, ids[..|ids| - 1], expired), ids[|ids| - 1], expired, f, sch);
    }
  }

  /** One pass of the retry loop, like the whole loop, leaves the fetcher
      fields and the inbox alone. */
  lemma {:induction false} RetryStepFrame(r: Retried, id: MessageId, expired: Message -> bool, f: bool, sch: seq<Fetcher>)
    ensures var t := RetryStep(r, id, expired);
      t.q.inbox == r.q.inbox && t.q.isFetching == r.q.isFetching && t.q.scheduled == r.q.scheduled &&
      RetryStep(r.(q := r.q.(isFetching := f, scheduled := sch)), id, expired) == t.(q := t.q.(isFetching := f, scheduled := sch))
  {
    if r.error.None? && id in r.s.objects {
      var msg := r.s.objects[id];
      var q2 := r.q.(isFetching := f, scheduled := sch);
      assert PushSpec(q2, msg) == PushSpec(r.q, msg).(isFetching := f, scheduled := sch);
    }
  }

  lemma {:induction false} RetryAllWellFormed(q: Queue, m: S2, ids: seq<MessageId>, expired: Message -> bool)
    requires WellFormed(q)
    ensures WellFormed(RetryAll(q, m, ids, expired).q)
    decreases |ids|
  {
    if ids != [] {
      var r := RetryAll(q, m, ids[..|ids| - 1], expired);
      RetryAllWellFormed(q, m, ids[..|ids| - 1], expired);
      var id := ids[|ids| - 1];
      if r.error.None? && id in r.s.objects {
        PushWellFormed(r.q, r.s.objects[id]);
      }
    }
  }

  /** The result of `check_timeout_and_retry`. */
  datatype Timed = Timed(q: Queue, s: S2, result: Result<int, QueueError>)

  /** `check_timeout_and_retry(now)`, up to the fetchers `op_acked` may
      schedule; it returns the number of messages acked ERROR_NOTRY. */
  function TimeoutRun(cfg: Config, q: Queue, m: S2, now: int, expired: Message -> bool): Timed {
    match Picked(cfg, m.state, now)
    case Err(e) => Timed(q, m, Err(e))
    case Ok(c) =>
      var a := AckAll(m, c.0);
      if a.error.Some? then Timed(q, a.s, Err(StateFailed(a.error.value)))
      else
        var r := RetryAll(q, a.s, c.1, expired);
        if r.error.Some? then Timed(r.q, r.s, Err(r.error.value)) else Timed(r.q, r.s, Ok(|c.0|))
  }

  /** `check_timeout_and_retry` keeps the dicts well formed. */
  lemma {:induction false} TimeoutWellFormed(cfg: Config, q: Queue, m: S2, now: int, expired: Message -> bool)
    requires WellFormed(q)
    ensures WellFormed(TimeoutRun(cfg, q, m, now, expired).q)
  {
    if Picked(cfg, m.state, now).Ok? {
      var c := Picked(cfg, m.state, now).value;
      RetryAllWellFormed(q, AckAll(m, c.0).s, c.1, expired);
    }
  }

  // ---- outbox_size ----------------------------------------------------------------------

  /** The done ids of one source node, paired with it. */
  function Tag(node: string, ids: set<MessageId>): set<(string, MessageId)> {
    set id | id in ids :: (node, id)
  }

  lemma {:induction false} TagSize(node: string, ids: set<MessageId>)
    ensures |Tag(node, ids)| == |ids|
    decreases |ids|
  {
    if ids != {} {
      var x :| x in ids;
      TagSize(node, ids - {x});
      assert Tag(node, ids) == Tag(node, ids - {x}) + {(node, x)};
    }
  }

  /** Taking one source node out of the dict takes out its pairs. */
  lemma {:induction false} DonePairsSplit(d: map<string, set<MessageId>>, node: string)
    requires node in d
    ensures |DonePairs(d)| == |DonePairs(d - {node})| + |d[node]|
  {
    var rest := DonePairs(d - {node});
    assert DonePairs(d) == rest + Tag(node, d[node]);
    assert rest * Tag(node, d[node]) == {};
    TagSize(node, d[node]);
  }

  lemma {:induction false} TaggedConcat(n: string, a: seq<string>, b: seq<string>)
    ensures Tagged(n, a + b) == Tagged(n, a) + Tagged(n, b)
  {
  }

  /** Two prefixes in a row are one. */
  lemma {:induction false} PrependTwice(a: Picks, b: Picks, r: Result<Picks, QueueError>)
    ensures Prepend(a, Prepend(b, r)) == Prepend((a.0 + b.0, a.1 + b.1), r)
  {
    if r.Ok? {
      Text.ConcatAssoc(a.0, b.0, r.value.0);
      Text.ConcatAssoc(a.1, b.1, r.value.1);
    }
  }

  lemma {:induction false} PrependNothing(acc: Picks, r: Result<Picks, QueueError>)
    ensures Prepend(([], []), r) == r
    ensures Prepend(acc, Ok(([], []))) == Ok(acc)
  {
    if r.Ok? {
      assert [] + r.value.0 == r.value.0 && [] + r.value.1 == r.value.1;
    }
    assert acc.0 + [] == acc.0 && acc.1 + [] == acc.1;
  }

  /** One more id of the loop acks it in the state the earlier ones left. */
  lemma {:induction false} AckAllNext(m: S2, ids: seq<MessageId>, i: nat)
    requires i < |ids| && AckAll(m, ids[..i]).error.None?
    ensures AckAll(m, ids[..i + 1]) == AckNotry(AckAll(m, ids[..i]).s, ids[i])
  {
    assert ids[..i + 1][..i] == ids[..i];
  }

  /** Once a state step fails, the acks after it change nothing. */
  lemma {:induction false} AckAllStops(m: S2, ids: seq<MessageId>, j: nat)
    requires j <= |ids| && AckAll(m, ids[..j]).error.Some?
    ensures AckAll(m, ids) == AckAll(m, ids[..j])
    decreases |ids|
  {
    if j < |ids| {
      var init := ids[..|ids| - 1];
      assert init[..j] == ids[..j];
      AckAllStops(m, init, j);
    } else {
      assert ids[..j] == ids;
    }
  }

  /** Once a retry fails, the ids after it change nothing. */
  lemma {:induction false} RetryAllStops(q: Queue, m: S2, ids: seq<MessageId>, expired: Message -> bool, j: nat)
    requires j <= |ids| && RetryAll(q, m, ids[..j], expired).error.Some?
    ensures RetryAll(q, m, ids, expired) == RetryAll(q, m, ids[..j], expired)
    decreases |ids|
  {
    if j < |ids| {
      var init := ids[..|ids| - 1];
      assert init[..j] == ids[..j];
      RetryAllStops(q, m, init, expired, j);
    } else {
      assert ids[..j] == ids;
    }
  }

  // ---- the Python object ----------------------------------------------------------------

  /** `ActorQueue` of `actorlib/queue2.py`: the heaps and the fetcher flag
      of one actor over the shared `ActorState`. `schedule_fetcher` is
      modelled by appending the fetcher to `scheduled`. Each `op_*` returns
      the exception it raised, if any, and leaves the object as the Python
      code leaves it at that moment. */
  class ActorQueue {
    const cfg: Config
    const state: ActorState2
    var inbox: Box
    var dstOutbox: Boxes
    var dstNodeOutbox: NodeBoxes
    var isFetching: bool
    var scheduled: seq<Fetcher>

    function Current(): Queue
      reads this
    {
      Queue(inbox, dstOutbox, dstNodeOutbox, isFetching, scheduled)
    }

    ghost predicate Valid()
      reads this
    {
      WellFormed(Current())
    }

    constructor(cfg: Config, state: ActorState2)
      ensures this.cfg == cfg && this.state == state
      ensures Current() == Empty && Valid()
    {
      this.cfg := cfg;
      this.state := state;
      inbox := [];
      dstOutbox := [];
      dstNodeOutbox := [];
      isFetching := false;
      scheduled := [];
    }

    /** `sum(len(x) for x in d.values())`. */
    static method SumBoxes(b: Boxes) returns (n: nat)
      ensures n == BoxesSize(b)
    {
      n := 0;
      var i := 0;
      while i < |b|
        invariant 0 <= i <= |b|
        invariant n + BoxesSize(b[i..]) == BoxesSize(b)
      {
        assert b[i..][1..] == b[i + 1..];
        n := n + |b[i].1|;
        i := i + 1;
      }
    }

    /** `outbox_size()`. */
    method OutboxSizeNow() returns (n: nat)
      ensures n == OutboxSize(cfg, Current(), state.Current())
    {
      n := SumBoxes(dstOutbox);
      var i := 0;
      while i < |dstNodeOutbox|
        invariant 0 <= i <= |dstNodeOutbox|
        invariant n + NodeBoxesSize(dstNodeOutbox[i..]) == BoxesSize(dstOutbox) + NodeBoxesSize(dstNodeOutbox)
      {
        assert dstNodeOutbox[i..][1..] == dstNodeOutbox[i + 1..];
        var k := SumBoxes(dstNodeOutbox[i].1);
        n := n + k;
        i := i + 1;
      }
      var done: map<string, set<MessageId>> := if cfg.actorName in state.doneIds then state.doneIds[cfg.actorName] else map[];
      var rest := done;
      while rest != map[]
        invariant n + |DonePairs(rest)| == BoxesSize(dstOutbox) + NodeBoxesSize(dstNodeOutbox) + |DonePairs(done)|
        decreases |rest|
      {
        var node :| node in rest;
        DonePairsSplit(rest, node);
        n := n + |rest[node]|;
        rest := rest - {node};
      }
      assert DonePairs(rest) == {};
    }

    /** `is_inbox_empty()`. */
    method IsInboxEmpty() returns (b: bool)
      ensures b <==> inbox == []
    {
      b := |inbox| <= 0;
    }

    /** `is_outbox_full()`. */
    method IsOutboxFull() returns (b: bool)
      ensures b <==> OutboxSize(cfg, Current(), state.Current()) >= cfg.outboxHighsize
    {
      var n := OutboxSizeNow();
      b := n >= cfg.outboxHighsize;
    }

    /** `auto_schedule_fetcher()`; `random.sample` is any subset of the
        right size. */
    method AutoScheduleFetcher()
      modifies this
      ensures AutoFetched(cfg, old(Current()), state.Current(), Current())
    {
      if isFetching {
        return;
      }
      var size := OutboxSizeNow();
      if size > cfg.outboxHighsize {
        return;
      }
      if |inbox| > cfg.inboxLowsize {
        return;
      }
      var nodes := Members(UpstreamOf(state.Current(), cfg.actorName));
      var sample: set<string>;
      if |nodes| <= cfg.fetcherConcurrency {
        sample := nodes;
      } else {
        SubsetOfSize(nodes, cfg.fetcherConcurrency);
        sample :| sample <= nodes && |sample| == cfg.fetcherConcurrency;
      }
      if sample == {} {
        return;
      }
      scheduled := scheduled + [Fetcher(sample, cfg.inboxHighsize - |inbox|)];
      isFetching := true;
    }

    /** `op_notify(dst, src_node, available)`. */
    method OpNotify(dst: string, srcNode: string, available: bool)
      modifies this, state
      ensures state.Current() == NotifySpec(old(state.Current()), dst, srcNode, available)
      ensures AutoFetched(cfg, old(Current()), state.Current(), Current())
    {
      state.ApplyNotify(dst, srcNode, available);
      AutoScheduleFetcher();
    }

    /** `op_inbox(message)`: an expired message is dropped; any other is
        recorded INBOX and pushed to the inbox heap. */
    method OpInbox(msg: Message, expired: Message -> bool) returns (err: Option<QueueError>)
      modifies this, state
      ensures expired(msg) ==> err.None? && Current() == old(Current()) && state.Current() == old(state.Current())
      ensures !expired(msg) ==>
        var a := InboxSpec(old(state.Current()), msg);
        state.Current() == a.s &&
        (a.error.None? ==> err.None? && Current() == old(Current()).(inbox := old(inbox) + [msg])) &&
        (a.error.Some? ==> err == Some(StateFailed(a.error.value)) && Current() == old(Current()))
    {
      if expired(msg) {
        return None;
      }
      var e := state.ApplyInbox(msg);
      if e.Some? {
        return Some(StateFailed(e.value));
      }
      inbox := inbox + [msg];
      err := None;
    }

    /** `op_execute()`: pop a message and mark it EXECUTE; an expired one
        is completed as ERROR_NOTRY, which raises. */
    method OpExecute(expired: Message -> bool) returns (r: Result<Message, QueueError>)
      modifies this, state
      ensures var run := ExecuteRun(old(inbox), old(state.Current()), ExecuteSpec, CompleteNotry, expired);
        r == run.result && state.Current() == run.s &&
        (r.Ok? ==> AutoFetched(cfg, old(Current()).(inbox := run.box), run.s, Current())) &&
        (r.Err? ==> Current() == old(Current()).(inbox := run.box))
    {
      while true
        invariant var run := ExecuteRun(inbox, state.Current(), ExecuteSpec, CompleteNotry, expired);
          var orig := ExecuteRun(old(inbox), old(state.Current()), ExecuteSpec, CompleteNotry, expired);
          run.box == orig.box && run.s == orig.s && run.result == orig.result
        invariant Current() == old(Current()).(inbox := inbox)
        decreases |inbox|
      {
        if inbox == [] {
          return Err(EmptyHeap);
        }
        var p := Pop(inbox);
        inbox := p.1;
        var e := state.ApplyExecute(p.0.id);
        if e.Some? {
          return Err(StateFailed(e.value));
        }
        if expired(p.0) {
          var c := state.ApplyComplete(p.0.id, Some(ErrorNotry));
          if c.Some? {
            return Err(StateFailed(c.value));
          }
        } else {
          AutoScheduleFetcher();
          return Ok(p.0);
        }
      }
    }

    /** `push_outbox(message)`. */
    method PushOutbox(msg: Message)
      requires Valid()
      modifies this
      ensures Valid() && Current() == PushSpec(old(Current()), msg)
    {
      PushWellFormed(Current(), msg);
      match NodeOf(msg)
      case Some(node) =>
        var inner := Lookup(dstNodeOutbox, node).GetOr([]);
        var box := Lookup(inner, msg.dst).GetOr([]);
        dstNodeOutbox := Assign(dstNodeOutbox, node, Assign(inner, msg.dst, box + [msg]));
      case None =>
        var box := Lookup(dstOutbox, msg.dst).GetOr([]);
        dstOutbox := Assign(dstOutbox, msg.dst, box + [msg]);
    }

    /** `for outbox_message in outbox_messages: self.push_outbox(outbox_message)`. */
    method PushEach(msgs: seq<Message>)
      requires Valid()
      modifies this
      ensures Valid() && Current() == PushAll(old(Current()), msgs)
    {
      var i := 0;
      while i < |msgs|
        invariant 0 <= i <= |msgs|
        invariant Valid() && Current() == PushAll(old(Current()), msgs[..i])
      {
        assert msgs[..i + 1][..i] == msgs[..i];
        PushOutbox(msgs[i]);
        i := i + 1;
      }
      assert msgs[..|msgs|] == msgs;
    }

    /** `op_outbox(message_id, outbox_messages)`. */
    method OpOutbox(id: MessageId, msgs: seq<Message>) returns (err: Option<QueueError>)
      requires Valid()
      modifies this, state
      ensures Valid()
      ensures var a := OutboxSpec(old(state.Current()), id, msgs);
        state.Current() == a.s &&
        (a.error.None? ==> err.None? && Current() == PushAll(old(Current()), msgs)) &&
        (a.error.Some? ==> err == Some(StateFailed(a.error.value)) && Current() == old(Current()))
    {
      var e := state.ApplyOutbox(id, msgs);
      if e.Some? {
        return Some(StateFailed(e.value));
      }
      PushEach(msgs);
      err := None;
    }

    /** `_export_box` after the pop, on the message `msg`, with `n`
        messages exported so far. */
    method ExportOneNow(msg: Message, n: nat, base: int, expired: Message -> bool, jitter: nat -> int)
      returns (kept: bool, err: Option<QueueError>)
      modifies state
      ensures var st := ExportOne(cfg, msg, old(state.Current()), n, base, AckNotry, ExportSpec, expired, jitter);
        state.Current() == st.s && kept == st.kept && err == st.error
    {
      if expired(msg) {
        var e := state.ApplyAcked(msg.id, ErrorNotry);
        return false, if e.Some? then Some(StateFailed(e.value)) else None;
      }
      var os := GetOutboxState(state.Current(), msg.id);
      if os.Err? {
        return false, Some(os.error);
      }
      if os.value.executedCount.None? {
        return false, Some(NoCount);
      }
      var retryAt := base + Backoff(cfg, os.value.executedCount.value, jitter(n));
      var e := state.ApplyExport(msg.id, Some(retryAt));
      return e.None?, if e.Some? then Some(StateFailed(e.value)) else None;
    }

    /** `while len(ret) < maxsize and box: self._export_box(ret, box, base)`. */
    method ExportFrom(box: Box, ret: seq<Message>, maxsize: int, base: int, expired: Message -> bool, jitter: nat -> int)
      returns (left: Box, out: seq<Message>, err: Option<QueueError>)
      modifies state
      ensures var d := ExportBox(cfg, box, old(state.Current()), ret, maxsize, base, AckNotry, ExportSpec, expired, jitter);
        left == d.box && out == d.ret && err == d.error && state.Current() == d.s
    {
      left, out := box, ret;
      while |out| < maxsize && left != []
        invariant var d := ExportBox(cfg, left, state.Current(), out, maxsize, base, AckNotry, ExportSpec, expired, jitter);
          var o := ExportBox(cfg, box, old(state.Current()), ret, maxsize, base, AckNotry, ExportSpec, expired, jitter);
          d.box == o.box && d.ret == o.ret && d.error == o.error && d.s == o.s
        decreases |left|
      {
        var p := Pop(left);
        left := p.1;
        var kept, e := ExportOneNow(p.0, |out|, base, expired, jitter);
        if e.Some? {
          return left, out, e;
        }
        if kept {
          out := out + [p.0];
        }
      }
      err := None;
    }

    /** `op_export(dst, dst_node, maxsize)` at time `now`; `jitter(n)` is
        the random delay of the n-th exported message. */
    method OpExport(dst: string, dstNode: Option<string>, maxsize: int, now: int, expired: Message -> bool, jitter: nat -> int)
      returns (r: Result<seq<Message>, QueueError>)
      requires Valid()
      modifies this, state
      ensures Valid()
      ensures var e := ExportRun(cfg, old(Current()), old(state.Current()), dst, dstNode, maxsize, now, AckNotry, ExportSpec, expired, jitter);
        r == e.result && state.Current() == e.s &&
        (r.Ok? ==> AutoFetched(cfg, e.q, e.s, Current())) &&
        (r.Err? ==> Current() == e.q)
    {
      ExportWellFormed(cfg, Current(), state.Current(), dst, dstNode, maxsize, now, AckNotry, ExportSpec, expired, jitter);
      r := ExportDrain(dst, dstNode, maxsize, now, expired, jitter);
      if r.Ok? {
        AutoScheduleFetcher();
      }
    }

    /** `op_export` up to the fetcher it may schedule. */
    method ExportDrain(dst: string, dstNode: Option<string>, maxsize: int, now: int, expired: Message -> bool, jitter: nat -> int)
      returns (r: Result<seq<Message>, QueueError>)
      modifies this, state
      ensures var e := ExportRun(cfg, old(Current()), old(state.Current()), dst, dstNode, maxsize, now, AckNotry, ExportSpec, expired, jitter);
        r == e.result && state.Current() == e.s && Current() == e.q
    {
      var nd := NodeDict(Current(), dstNode);
      if nd.Some? && Lookup(nd.value, dst).None? {
        return Err(MissingKey);
      }
      r := ExportBoth(dst, dstNode, maxsize, now, expired, jitter);
    }

    /** `op_export` once the node dict, if any, has a box for `dst`. */
    method ExportBoth(dst: string, dstNode: Option<string>, maxsize: int, now: int, expired: Message -> bool, jitter: nat -> int)
      returns (r: Result<seq<Message>, QueueError>)
      requires NodeDict(Current(), dstNode).Some? ==> Lookup(NodeDict(Current(), dstNode).value, dst).Some?
      modifies this, state
      ensures var e := ExportRun(cfg, old(Current()), old(state.Current()), dst, dstNode, maxsize, now, AckNotry, ExportSpec, expired, jitter);
        r == e.result && state.Current() == e.s && Current() == e.q
    {
      var base := now + cfg.cycleTime * 1000;
      ghost var q0, m0 := Current(), state.Current();
      var left, ret, err := ExportFrom(NodeBox(Current(), dstNode, dst), [], maxsize, base, expired, jitter);
      ExportRunSplit(cfg, q0, m0, dst, dstNode, maxsize, now, base, AckNotry, ExportSpec, expired, jitter, left, ret, err, state.Current());
      WriteNodeBox(dstNode, dst, left);
      r := ExportGenericNow(dst, ret, err, maxsize, base, expired, jitter);
    }

    /** The drain of the generic box of `dst` after the node-specific one. */
    method ExportGenericNow(dst: string, ret: seq<Message>, err: Option<QueueError>, maxsize: int, base: int, expired: Message -> bool, jitter: nat -> int)
      returns (r: Result<seq<Message>, QueueError>)
      modifies this, state
      ensures var e := ExportGeneric(cfg, old(Current()), old(state.Current()), dst, ret, err, maxsize, base, AckNotry, ExportSpec, expired, jitter);
        r == e.result && state.Current() == e.s && Current() == e.q
    {
      if err.Some? {
        return Err(err.value);
      }
      var g := Lookup(dstOutbox, dst);
      var left, out, e := ExportFrom(g.GetOr([]), ret, maxsize, base, expired, jitter);
      if g.Some? {
        dstOutbox := Assign(dstOutbox, dst, left);
      }
      r := if e.Some? then Err(e.value) else Ok(out);
    }

    /** Writes the drained node-specific box back, when there is a node
        dict to hold it. */
    method WriteNodeBox(dstNode: Option<string>, dst: string, b: Box)
      modifies this
      ensures Current() == SetNodeBox(old(Current()), dstNode, dst, b)
    {
      var nd := NodeDict(Current(), dstNode);
      if nd.Some? {
        dstNodeOutbox := Assign(dstNodeOutbox, dstNode.value, Assign(nd.value, dst, b));
      }
    }

    /** `op_done(message_id, status)`. */
    method OpDone(id: MessageId, status: Status) returns (err: Option<QueueError>)
      modifies this, state
      ensures var a := DoneSpec(old(state.Current()), id, status);
        state.Current() == a.s &&
        (a.error.None? ==> err.None? && AutoFetched(cfg, old(Current()), a.s, Current())) &&
        (a.error.Some? ==> err == Some(StateFailed(a.error.value)) && Current() == old(Current()))
    {
      var e := state.ApplyDone(id, status);
      if e.Some? {
        return Some(StateFailed(e.value));
      }
      AutoScheduleFetcher();
      err := None;
    }

    /** `on_fetcher_done()`. */
    method OnFetcherDone()
      modifies this
      ensures AutoFetched(cfg, old(Current()).(isFetching := false), state.Current(), Current())
    {
      isFetching := false;
      AutoScheduleFetcher();
    }

    /** `op_acked(outbox_message_id, status)`. */
    method OpAcked(cid: MessageId, status: Status) returns (err: Option<QueueError>)
      modifies this, state
      ensures var a := AckedSpec(old(state.Current()), cid, status);
        state.Current() == a.s &&
        (a.error.None? ==> err.None? && AutoFetched(cfg, old(Current()), a.s, Current())) &&
        (a.error.Some? ==> err == Some(StateFailed(a.error.value)) && Current() == old(Current()))
    {
      var e := state.ApplyAcked(cid, status);
      if e.Some? {
        return Some(StateFailed(e.value));
      }
      AutoScheduleFetcher();
      err := None;
    }

    /** The keys of `b` whose boxes are not empty, collected in order. */
    static method NonEmptyKeys(b: Boxes) returns (ks: seq<string>)
      ensures ks == KeysWhere(b, NonEmpty)
    {
      ks := [];
      var i := 0;
      while i < |b|
        invariant 0 <= i <= |b|
        invariant KeysWhere(b, NonEmpty) == ks + KeysWhere(b[i..], NonEmpty)
      {
        assert b[i..][1..] == b[i + 1..];
        var head := if b[i].1 != [] then [b[i].0] else [];
        Text.ConcatAssoc(ks, head, KeysWhere(b[i + 1..], NonEmpty));
        ks := ks + head;
        i := i + 1;
      }
      assert b[i..] == [];
      assert ks + [] == ks;
    }

    /** The `(node, dst)` pairs of the non-empty boxes of one node dict,
        appended to `acc` one at a time. */
    static method AppendNodePairs(acc: seq<(string, string)>, node: string, d: Boxes) returns (pairs: seq<(string, string)>)
      ensures pairs == acc + Tagged(node, KeysWhere(d, NonEmpty))
    {
      pairs := acc;
      var k := 0;
      assert d[0..] == d && acc + [] == acc;
      while k < |d|
        invariant 0 <= k <= |d|
        invariant acc + Tagged(node, KeysWhere(d, NonEmpty)) == pairs + Tagged(node, KeysWhere(d[k..], NonEmpty))
      {
        assert d[k..][1..] == d[k + 1..];
        var head := if d[k].1 != [] then [d[k].0] else [];
        TaggedConcat(node, head, KeysWhere(d[k + 1..], NonEmpty));
        Text.ConcatAssoc(pairs, Tagged(node, head), Tagged(node, KeysWhere(d[k + 1..], NonEmpty)));
        pairs := pairs + Tagged(node, head);
        k := k + 1;
      }
      assert d[k..] == [];
      assert pairs + [] == pairs;
    }

    /** `outbox_info()`. */
    method OutboxInfo() returns (dsts: seq<string>, pairs: seq<(string, string)>)
      ensures (dsts, pairs) == OutboxInfoSpec(Current())
    {
      dsts := NonEmptyKeys(dstOutbox);
      pairs := [];
      var j := 0;
      assert dstNodeOutbox[0..] == dstNodeOutbox;
      while j < |dstNodeOutbox|
        invariant 0 <= j <= |dstNodeOutbox|
        invariant NodeInfo(dstNodeOutbox) == pairs + NodeInfo(dstNodeOutbox[j..])
      {
        assert dstNodeOutbox[j..][1..] == dstNodeOutbox[j + 1..];
        var before := pairs;
        pairs := AppendNodePairs(pairs, dstNodeOutbox[j].0, dstNodeOutbox[j].1);
        Text.ConcatAssoc(before, Tagged(dstNodeOutbox[j].0, KeysWhere(dstNodeOutbox[j].1, NonEmpty)), NodeInfo(dstNodeOutbox[j + 1..]));
        j := j + 1;
      }
      assert dstNodeOutbox[j..] == [];
      assert pairs + [] == pairs;
    }

    /** The inner loop of `check_timeout_and_retry` over one message's
        outbox states. */
    static method CollectChild(cfg: Config, outs: seq<(MessageId, OutboxState)>, now: int) returns (r: Result<Picks, QueueError>)
      ensures r == ChildPicks(cfg, outs, now)
    {
      var acc: Picks := ([], []);
      PrependNothing(acc, ChildPicks(cfg, outs, now));
      assert outs[0..] == outs;
      var i := 0;
      while i < |outs|
        invariant 0 <= i <= |outs|
        invariant ChildPicks(cfg, outs, now) == Prepend(acc, ChildPicks(cfg, outs[i..], now))
      {
        assert outs[i..][1..] == outs[i + 1..];
        var os := outs[i].1;
        if Due(os, now) {
          if os.executedCount.None? {
            return Err(NoCount);
          }
          var one: Picks := if Exhausted(cfg, os) then ([outs[i].0], []) else ([], [outs[i].0]);
          PrependTwice(acc, one, ChildPicks(cfg, outs[i + 1..], now));
          acc := (acc.0 + one.0, acc.1 + one.1);
        }
        i := i + 1;
      }
      PrependNothing(acc, Ok(([], [])));
      assert outs[i..] == [];
      r := Ok(acc);
    }

    /** The outer loop of `check_timeout_and_retry` over the messages. */
    static method CollectPicks(cfg: Config, st: seq<(MessageId, MsgState)>, now: int) returns (r: Result<Picks, QueueError>)
      ensures r == Picked(cfg, st, now)
    {
      var acc: Picks := ([], []);
      PrependNothing(acc, Picked(cfg, st, now));
      assert st[0..] == st;
      var i := 0;
      while i < |st|
        invariant 0 <= i <= |st|
        invariant Picked(cfg, st, now) == Prepend(acc, Picked(cfg, st[i..], now))
      {
        assert st[i..][1..] == st[i + 1..];
        var e := st[i].1;
        if e.status == Outbox {
          if e.outbox.None? {
            return Err(MissingKey);
          }
          var c := CollectChild(cfg, e.outbox.value, now);
          if c.Err? {
            return Err(c.error);
          }
          PrependTwice(acc, c.value, Picked(cfg, st[i + 1..], now));
          acc := (acc.0 + c.value.0, acc.1 + c.value.1);
        }
        i := i + 1;
      }
      PrependNothing(acc, Ok(([], [])));
      assert st[i..] == [];
      r := Ok(acc);
    }

    /** One pass of the retry loop of `check_timeout_and_retry`. */
    method RetryOneNow(id: MessageId, expired: Message -> bool) returns (err: Option<QueueError>)
      requires Valid()
      modifies this, state
      ensures Valid()
      ensures var r := RetryStep(Retried(old(Current()), old(state.Current()), None), id, expired);
        Current() == r.q && state.Current() == r.s && err == r.error
    {
      if id !in state.objects {
        return Some(MissingKey);
      }
      var msg := state.objects[id];
      if expired(msg) {
        var e := state.ApplyAcked(msg.id, ErrorNotry);
        return if e.Some? then Some(StateFailed(e.value)) else None;
      }
      var e := state.ApplyRetry(msg.id, None);
      if e.Some? {
        return Some(StateFailed(e.value));
      }
      PushOutbox(msg);
      err := None;
    }

    /** One pass of the first loop: `op_acked` with ERROR_NOTRY. */
    method AckNotryOne(cid: MessageId) returns (err: Option<QueueError>)
      modifies this, state
      ensures var a := AckNotry(old(state.Current()), cid);
        state.Current() == a.s && err == (if a.error.Some? then Some(StateFailed(a.error.value)) else None)
      ensures FetcherStep(old(Current()), Current())
    {
      err := OpAcked(cid, ErrorNotry);
      if err.None? {
        AutoFetchedStep(cfg, old(Current()), state.Current(), Current());
      }
    }

    /** The first loop of `check_timeout_and_retry`: `op_acked` with
        ERROR_NOTRY for each id, stopping at the first exception. */
    method AckNotryEach(ids: seq<MessageId>) returns (err: Option<QueueError>)
      modifies this, state
      ensures var a := AckAll(old(state.Current()), ids);
        state.Current() == a.s && err == (if a.error.Some? then Some(StateFailed(a.error.value)) else None)
      ensures Current() == old(Current()).(isFetching := isFetching, scheduled := scheduled)
      ensures FetchGrowth(old(Current()), Current())
    {
      ghost var m0 := state.Current();
      ghost var q0 := Current();
      var i := 0;
      while i < |ids|
        invariant 0 <= i <= |ids|
        invariant AckAll(m0, ids[..i]) == Applied(state.Current(), None)
        invariant FetcherStep(q0, Current())
      {
        AckAllNext(m0, ids, i);
        ghost var before := Current();
        var e := AckNotryOne(ids[i]);
        FetchGrowthTrans(q0, before, Current());
        if e.Some? {
          AckAllStops(m0, ids, i + 1);
          return e;
        }
        i := i + 1;
      }
      assert ids[..|ids|] == ids;
      err := None;
    }

    /** The second loop of `check_timeout_and_retry`: retry each id,
        stopping at the first exception. */
    method RetryEach(ids: seq<MessageId>, expired: Message -> bool) returns (err: Option<QueueError>)
      requires Valid()
      modifies this, state
      ensures Valid()
      ensures var t := RetryAll(old(Current()), old(state.Current()), ids, expired);
        Current() == t.q && state.Current() == t.s && err == t.error
    {
      ghost var q1 := Current();
      ghost var m1 := state.Current();
      var j := 0;
      while j < |ids|
        invariant 0 <= j <= |ids|
        invariant RetryAll(q1, m1, ids[..j], expired) == Retried(Current(), state.Current(), None)
        invariant Valid()
      {
        assert ids[..j + 1][..j] == ids[..j];
        assert RetryAll(q1, m1, ids[..j + 1], expired) ==
          RetryStep(Retried(Current(), state.Current(), None), ids[j], expired);
        var e := RetryOneNow(ids[j], expired);
        assert RetryAll(q1, m1, ids[..j + 1], expired) == Retried(Current(), state.Current(), e);
        if e.Some? {
          RetryAllStops(q1, m1, ids, expired, j + 1);
          return e;
        }
        j := j + 1;
      }
      assert ids[..|ids|] == ids;
      err := None;
    }

    /** `check_timeout_and_retry(now)`. */
    method CheckTimeoutAndRetry(now: int, expired: Message -> bool) returns (r: Result<int, QueueError>)
      requires Valid()
      modifies this, state
      ensures Valid()
      ensures var t := TimeoutRun(cfg, old(Current()), old(state.Current()), now, expired);
        r == t.result && state.Current() == t.s &&
        Current() == t.q.(isFetching := isFetching, scheduled := scheduled) &&
        FetchGrowth(old(Current()), Current())
    {
      var picks := CollectPicks(cfg, state.state, now);
      if picks.Err? {
        return Err(picks.error);
      }
      var c := picks.value;
      var e := AckNotryEach(c.0);
      if e.Some? {
        return Err(e.value);
      }
      ghost var m1 := state.Current();
      ghost var q1 := Current();
      e := RetryEach(c.1, expired);
      RetryAllFrame(old(Current()), m1, c.1, expired, q1.isFetching, q1.scheduled);
      if e.Some? {
        return Err(e.value);
      }
      r := Ok(|c.0|);
    }
  }
}
