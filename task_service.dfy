/** The harbor's in-memory task queue: tasks found by the periodic feed
    queries are cached and handed to workers first in, first out. */
module TaskService {
  import opened Wrappers

  /** `RssantTask`; its `data` is a mapping of printed values. */
  datatype RssantTask = RssantTask(api: string, key: string, data: map<string, string>, priority: int, timestamp: int)

  /** A value of `to_dict`'s result. */
  datatype Field = Text(s: string) | Number(n: int) | Mapping(m: map<string, string>)

  /** `to_dict()`: exactly the five attributes, each under its own name. */
  function ToDict(t: RssantTask): (d: map<string, Field>)
    ensures d.Keys == {"api", "key", "data", "priority", "timestamp"}
    ensures d["api"] == Text(t.api) && d["key"] == Text(t.key) && d["data"] == Mapping(t.data)
    ensures d["priority"] == Number(t.priority) && d["timestamp"] == Number(t.timestamp)
  {
    map["api" := Text(t.api), "key" := Text(t.key), "data" := Mapping(t.data),
        "priority" := Number(t.priority), "timestamp" := Number(t.timestamp)]
  }

  /** A task is recovered from its dictionary. */
  function FromDict(d: map<string, Field>): Option<RssantTask> {
    if "api" in d && d["api"].Text? && "key" in d && d["key"].Text? && "data" in d && d["data"].Mapping? &&
       "priority" in d && d["priority"].Number? && "timestamp" in d && d["timestamp"].Number?
    then Some(RssantTask(d["api"].s, d["key"].s, d["data"].m, d["priority"].n, d["timestamp"].n))
    else None
  }

  lemma {:induction false} DictRoundTrip(t: RssantTask)
    ensures FromDict(ToDict(t)) == Some(t)
  {
  }

  /** `RssantTaskService` without its lock. */
  class RssantTaskService {
    var cache: seq<RssantTask>

    constructor ()
      ensures cache == []
    {
      cache := [];
    }

    /** `_add_task(task)`. */
    method AddTask(task: RssantTask)
      modifies this
      ensures cache == old(cache) + [task]
    {
      cache := cache + [task];
    }

    /** `_pick_task()`: the oldest task, or None when there is none. */
    method PickTask() returns (task: Option<RssantTask>)
      modifies this
      ensures (task, cache) == PickSpec(old(cache))
      ensures old(cache) == [] ==> task.None? && cache == []
      ensures old(cache) != [] ==> task == Some(old(cache)[0]) && cache == old(cache)[1..]
    {
      if cache == [] {
        return None;
      }
      task := Some(cache[0]);
      cache := cache[1..];
    }

    /** `get()`: a cached task if there is one; otherwise the tasks the two
        queries find (`fetched`, an input here) are cached and the oldest of
        them is returned. */
    method Get(fetched: seq<RssantTask>) returns (task: Option<RssantTask>)
      modifies this
      ensures old(cache) != [] ==> task == Some(old(cache)[0]) && cache == old(cache)[1..]
      ensures old(cache) == [] && fetched == [] ==> task.None? && cache == []
      ensures old(cache) == [] && fetched != [] ==> task == Some(fetched[0]) && cache == fetched[1..]
    {
      task := PickTask();
      if task.Some? {
        return task;
      }
      var i := 0;
      while i < |fetched|
        invariant 0 <= i <= |fetched|
        invariant cache == fetched[..i]
      {
        AddTask(fetched[i]);
        i := i + 1;
      }
      assert fetched[..i] == fetched;
      task := PickTask();
    }
  }

  /** What `PickTask` returns and leaves cached, given the cache before. */
  function PickSpec(cache: seq<RssantTask>): (Option<RssantTask>, seq<RssantTask>) {
    if cache == [] then (None, cache) else (Some(cache[0]), cache[1..])
  }

  /** A sequence of service calls. */
  datatype Op = Add(task: RssantTask) | Pick

  /** The cache left and the tasks picked after a sequence of calls, each
      call the postcondition of `AddTask` or `PickTask` on the cache before. */
  function Replay(cache: seq<RssantTask>, ops: seq<Op>): (r: (seq<RssantTask>, seq<RssantTask>))
    decreases |ops|
  {
    if ops == [] then (cache, [])
    else
      match ops[0]
      case Add(t) => Replay(cache + [t], ops[1..])
      case Pick =>
        var (task, left) := PickSpec(cache);
        var rest := Replay(left, ops[1..]);
        (rest.0, (if task.Some? then [task.value] else []) + rest.1)
  }

  function Added(ops: seq<Op>): seq<RssantTask>
    decreases |ops|
  {
    if ops == [] then [] else (if ops[0].Add? then [ops[0].task] else []) + Added(ops[1..])
  }

  /** First in, first out: the tasks picked, followed by those still cached,
      are the tasks cached before followed by those added, in order. */
  lemma {:induction false} Fifo(cache: seq<RssantTask>, ops: seq<Op>)
    ensures Replay(cache, ops).1 + Replay(cache, ops).0 == cache + Added(ops)
    decreases |ops|
  {
    if ops != [] {
      match ops[0]
      case Add(t) =>
        Fifo(cache + [t], ops[1..]);
      case Pick =>
        assert Added(ops) == Added(ops[1..]);
        if cache != [] {
          Fifo(cache[1..], ops[1..]);
          var rest := Replay(cache[1..], ops[1..]);
          assert Replay(cache, ops) == (rest.0, [cache[0]] + rest.1);
          assert [cache[0]] + rest.1 + rest.0 == [cache[0]] + (rest.1 + rest.0);
          assert cache == [cache[0]] + cache[1..];
        } else {
          Fifo(cache, ops[1..]);
          var rest := Replay(cache, ops[1..]);
          assert [] + rest.1 == rest.1;
        }
    }
  }
}
