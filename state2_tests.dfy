/** The transition sequences of `actorlib/tests/test_state.py`, replayed on
    the model of `actorlib/state2.py`. */
module StateV2Tests {
  import opened Wrappers
  import opened OrderedDict
  import opened StateV2

  /** A successful first step leaves the rest of the replay to the state
      it produces. */
  lemma {:induction false} Link(q: S2, x: Item, rest: seq<Item>, q1: S2)
    requires Apply(q, x) == Succeeded(q1)
    ensures Replay(q, [x] + rest) == Replay(q1, rest)
  {
    assert ([x] + rest)[0] == x;
    assert ([x] + rest)[1..] == rest;
  }

  lemma {:induction false} Cons2<T>(x: T, y: T, rest: seq<T>)
    ensures [x, y] + rest == [x] + ([y] + rest)
  {
    assert ([x] + ([y] + rest))[..2] == [x, y];
    assert ([x] + ([y] + rest))[2..] == rest;
  }

  lemma {:induction false} Cons3<T>(x: T, y: T, z: T, rest: seq<T>)
    ensures [x, y, z] + rest == [x] + ([y] + ([z] + rest))
  {
    Cons2(y, z, rest);
    assert [x, y, z] == [x] + [y, z];
  }

  const Parent := Message("parent", "test", "test_node", "test", Some("test_node"), 1, true, None, true)
  const Child := Message("test", "test", "test_node", "test", Some("test_node"), 1, true, Some("parent"), true)

  /** The parent in OUTBOX with the one outbox state `os` for the child. */
  function WithChild(os: OutboxState): S2 {
    S2([("parent", MsgState(Outbox, false, Some([("test", os)])))],
       map["parent" := Meta(Parent), "test" := Child], map[], [])
  }

  /** `test_inbox_execute_outbox_retry_complete`: inbox, execute, outbox
      with one child, then export, retry, export, an ERROR ack, retry,
      export and an OK ack of the child, and the parent's completion. */
  const RetryCompleteItems := Received + (ExportedRetried + (FailedRetried + (AckedCompleted + [])))

  const Received := [InboxItem(Parent), ExecuteItem("parent"), OutboxItem("parent", [Child])]
  const ExportedRetried := [ExportItem("test", None), RetryItem("test", None)]
  const FailedRetried := [ExportItem("test", None), AckedItem("test", Error), RetryItem("test", None)]
  const AckedCompleted := [ExportItem("test", None), AckedItem("test", Success), CompleteItem("parent", None)]

  lemma {:induction false} Distinct()
    ensures "parent" != "test"
  {
    assert "parent"[0] != "test"[0];
  }

  /** After `outbox`, the parent in OUTBOX holds the child. */
  const Executed := S2([("parent", MsgState(Execute, false, None))], map["parent" := Meta(Parent)], map[], [])

  lemma {:induction false} InboxExecuteOutbox()
    ensures Apply(Fresh, InboxItem(Parent)) ==
      Succeeded(S2([("parent", MsgState(Inbox, false, None))], map["parent" := Parent], map[], []))
    ensures Apply(S2([("parent", MsgState(Inbox, false, None))], map["parent" := Parent], map[], []), ExecuteItem("parent")) ==
      Succeeded(Executed)
    ensures Apply(Executed, OutboxItem("parent", [Child])) == Succeeded(WithChild(OutboxState(Outbox, Some(0), None)))
  {
    Distinct();
    assert FreshOutbox([Child]) == [("test", OutboxState(Outbox, Some(0), None))];
    assert AddObjects(Executed.objects, [Child]) == WithChild(OutboxState(Outbox, Some(0), None)).objects;
  }

  /** The child as `ChildOf` finds it in `WithChild(os)`. */
  lemma {:induction false} ChildFound(os: OutboxState)
    ensures ChildOf(WithChild(os), "test") ==
      Ok(StateV2.Child(Child, "parent", MsgState(Outbox, false, Some([("test", os)])), [("test", os)], os))
  {
    Distinct();
  }

  lemma {:induction false} Single<V>(k: MessageId, a: V, b: V)
    ensures Lookup([(k, a)], k) == Some(a)
    ensures Assign([(k, a)], k, b) == [(k, b)]
  {
    assert [(k, a)][1..] == [];
  }

  /** Replacing the child's outbox state gives the parent with the new one. */
  lemma {:induction false} SetChildWith(os: OutboxState, os2: OutboxState)
    ensures ChildOf(WithChild(os), "test").Ok?
    ensures SetChild(WithChild(os), ChildOf(WithChild(os), "test").value, os2) == WithChild(os2)
  {
    ChildFound(os);
    Single("test", os, os2);
    Single("parent", MsgState(Outbox, false, Some([("test", os)])), MsgState(Outbox, false, Some([("test", os2)])));
  }

  /** Export from OUTBOX and retry from EXPORT or ERROR, at any count. */
  lemma {:induction false} ExportRetry(n: int)
    ensures Apply(WithChild(OutboxState(Outbox, Some(n), None)), ExportItem("test", None)) ==
      Succeeded(WithChild(OutboxState(Export, Some(n), None)))
    ensures Apply(WithChild(OutboxState(Export, Some(n), None)), RetryItem("test", None)) ==
      Succeeded(WithChild(OutboxState(Outbox, Some(n + 1), None)))
    ensures Apply(WithChild(OutboxState(Error, Some(n), None)), RetryItem("test", None)) ==
      Succeeded(WithChild(OutboxState(Outbox, Some(n + 1), None)))
    ensures Apply(WithChild(OutboxState(Export, Some(n), None)), AckedItem("test", Error)) ==
      Succeeded(WithChild(OutboxState(Error, Some(n), None)))
  {
    SetChildWith(OutboxState(Outbox, Some(n), None), OutboxState(Export, Some(n), None));
    SetChildWith(OutboxState(Export, Some(n), None), OutboxState(Outbox, Some(n + 1), None));
    SetChildWith(OutboxState(Error, Some(n), None), OutboxState(Outbox, Some(n + 1), None));
    SetChildWith(OutboxState(Export, Some(n), None), OutboxState(Error, Some(n), None));
  }

  const Done := S2([("parent", MsgState(Success, false, None))], map["parent" := Meta(Parent)],
                   WithDone(map[], "test", "test_node", {"parent"}), [])
  const Completed := S2([("parent", MsgState(Success, true, None))], map["parent" := Meta(Parent)],
                        WithDone(WithDone(map[], "test", "test_node", {"parent"}), "test", "test_node", {}), [])

  /** The OK ack of the only child finishes the parent, which waits for
      its own ack; completing it acks it. */
  lemma {:induction false} AckComplete(n: int)
    ensures Apply(WithChild(OutboxState(Export, Some(n), None)), AckedItem("test", Success)) == Succeeded(Done)
    ensures Apply(Done, CompleteItem("parent", None)) == Succeeded(Completed)
  {
    Distinct();
    var os := OutboxState(Export, Some(n), None);
    var ok := OutboxState(Success, Some(n), None);
    SetChildWith(os, ok);
    var m := WithChild(os);
    var m1 := WithChild(ok);
    Single("test", os, ok);
    assert AllOk([("test", ok)]);
    var ks := KeySet([("test", ok)]);
    assert [("test", ok)][0].0 == "test";
    assert "test" in ks;
    assert ks == {"test"};
    assert m1.objects - ks == Done.objects;
    Single("parent", MsgState(Outbox, false, Some([("test", ok)])), MsgState(Success, false, None));
    assert DoneAt(map[], "test", "test_node") == {};
    assert {} + {"parent"} == {"parent"};
    assert DoneSpec(m1, "parent", Success) == Succeeded(Done);
    Single("parent", MsgState(Success, false, None), MsgState(Success, true, None));
    assert DoneAt(Done.doneIds, "test", "test_node") == {"parent"};
    assert {"parent"} - {"parent"} == {};
    assert CompleteSpec(Done, "parent", None) == Succeeded(Completed);
  }

  const Outboxed := WithChild(OutboxState(Outbox, Some(0), None))
  const Received1 := S2([("parent", MsgState(Inbox, false, None))], map["parent" := Parent], map[], [])

  function At(status: Status, n: int): S2 {
    WithChild(OutboxState(status, Some(n), None))
  }

  lemma {:induction false} ReceivedSteps(rest: seq<Item>)
    ensures Replay(Fresh, [InboxItem(Parent)] + rest) == Replay(Received1, rest)
    ensures Replay(Received1, [ExecuteItem("parent")] + rest) == Replay(Executed, rest)
    ensures Replay(Executed, [OutboxItem("parent", [Child])] + rest) == Replay(Outboxed, rest)
  {
    InboxExecuteOutbox();
    Link(Fresh, InboxItem(Parent), rest, Received1);
    Link(Received1, ExecuteItem("parent"), rest, Executed);
    Link(Executed, OutboxItem("parent", [Child]), rest, Outboxed);
  }

  lemma {:induction false} ExportSteps(n: int, rest: seq<Item>)
    ensures Replay(At(Outbox, n), [ExportItem("test", None)] + rest) == Replay(At(Export, n), rest)
    ensures Replay(At(Export, n), [RetryItem("test", None)] + rest) == Replay(At(Outbox, n + 1), rest)
    ensures Replay(At(Error, n), [RetryItem("test", None)] + rest) == Replay(At(Outbox, n + 1), rest)
    ensures Replay(At(Export, n), [AckedItem("test", Error)] + rest) == Replay(At(Error, n), rest)
  {
    ExportRetry(n);
    Link(At(Outbox, n), ExportItem("test", None), rest, At(Export, n));
    Link(At(Export, n), RetryItem("test", None), rest, At(Outbox, n + 1));
    Link(At(Error, n), RetryItem("test", None), rest, At(Outbox, n + 1));
    Link(At(Export, n), AckedItem("test", Error), rest, At(Error, n));
  }

  lemma {:induction false} CompleteSteps(n: int, rest: seq<Item>)
    ensures Replay(At(Export, n), [AckedItem("test", Success)] + rest) == Replay(Done, rest)
    ensures Replay(Done, [CompleteItem("parent", None)] + rest) == Replay(Completed, rest)
  {
    AckComplete(n);
    Link(At(Export, n), AckedItem("test", Success), rest, Done);
    Link(Done, CompleteItem("parent", None), rest, Completed);
  }

  /** `inbox`, `execute` and `outbox` of the parent with its child. */
  lemma {:induction false} InboxToOutbox(rest: seq<Item>)
    ensures Replay(Fresh, Received + rest) == Replay(Outboxed, rest)
  {
    var r2 := [OutboxItem("parent", [Child])] + rest;
    var r1 := [ExecuteItem("parent")] + r2;
    ReceivedSteps(rest);
    ReceivedSteps(r2);
    ReceivedSteps(r1);
    Cons3(InboxItem(Parent), ExecuteItem("parent"), OutboxItem("parent", [Child]), rest);
  }

  /** An export and a retry from EXPORT: the count goes from 0 to 1. */
  lemma {:induction false} ExportThenRetry(rest: seq<Item>)
    ensures Replay(Outboxed, ExportedRetried + rest) == Replay(At(Outbox, 1), rest)
  {
    var r1 := [RetryItem("test", None)] + rest;
    ExportSteps(0, rest);
    ExportSteps(0, r1);
    Cons2(ExportItem("test", None), RetryItem("test", None), rest);
  }

  /** An export, an ERROR ack and a retry from ERROR: the count goes from 1
      to 2. */
  lemma {:induction false} ExportErrorRetry(rest: seq<Item>)
    ensures Replay(At(Outbox, 1), FailedRetried + rest) == Replay(At(Outbox, 2), rest)
  {
    var r2 := [RetryItem("test", None)] + rest;
    var r1 := [AckedItem("test", Error)] + r2;
    ExportSteps(1, rest);
    ExportSteps(1, r2);
    ExportSteps(1, r1);
    Cons3(ExportItem("test", None), AckedItem("test", Error), RetryItem("test", None), rest);
  }

  /** An export, an OK ack and the parent's completion. */
  lemma {:induction false} ExportOkComplete(rest: seq<Item>)
    ensures Replay(At(Outbox, 2), AckedCompleted + rest) == Replay(Completed, rest)
  {
    var r2 := [CompleteItem("parent", None)] + rest;
    var r1 := [AckedItem("test", Success)] + r2;
    CompleteSteps(2, rest);
    CompleteSteps(2, r2);
    ExportSteps(2, r1);
    Cons3(ExportItem("test", None), AckedItem("test", Success), CompleteItem("parent", None), rest);
  }

  /** The sequence raises nothing; the parent ends completed OK, and the
      child's object is gone. The parent's own object stays: the line that
      would pop it is commented out in `apply_complete`. */
  lemma {:induction false} RetryCompleteAccepted()
    ensures var a := Replay(Fresh, RetryCompleteItems);
      a.error.None? &&
      Lookup(a.s.state, "parent") == Some(MsgState(Success, true, None)) &&
      "test" !in a.s.objects && "parent" in a.s.objects && a.s.objects["parent"] == Meta(Parent)
  {
    ExportOkComplete([]);
    ExportErrorRetry(AckedCompleted + []);
    ExportThenRetry(FailedRetried + (AckedCompleted + []));
    InboxToOutbox(ExportedRetried + (FailedRetried + (AckedCompleted + [])));
    CompletedParent();
  }

  /** The completed parent is acked OK and the only object left. */
  lemma {:induction false} CompletedParent()
    ensures Replay(Completed, []) == Succeeded(Completed)
    ensures Lookup(Completed.state, "parent") == Some(MsgState(Success, true, None))
    ensures "test" !in Completed.objects && "parent" in Completed.objects && Completed.objects["parent"] == Meta(Parent)
  {
    Distinct();
  }
}
