/** The actor node registry of `actorlib/registery.py`: node infos built
    from specs, and the indexes from node name to reachable urls and from
    module to the nodes that serve it. A Python list made from a set has an
    arbitrary order; the model keeps it a set. `random.choice` is a
    nondeterministic pick. */
module Registry {
  import opened Wrappers
  import opened OrderedDict
  import Text

  /** `{name, modules, networks: [{name, url}]}`. */
  datatype NodeSpec = NodeSpec(name: string, modules: seq<string>, networks: seq<(string, string)>)

  /** `NodeInfo`: the modules as a set, the networks as network name to the
      set of its urls. */
  datatype NodeInfo = NodeInfo(name: string, modules: set<string>, networks: map<string, set<string>>)

  /** The network names a spec lists. */
  function NetNames(nets: seq<(string, string)>): set<string> {
    set i | 0 <= i < |nets| :: nets[i].0
  }

  /** The urls a spec lists under the network name `n`. */
  function UrlsNamed(nets: seq<(string, string)>, n: string): set<string> {
    set i | 0 <= i < |nets| && nets[i].0 == n :: nets[i].1
  }

  /** The networks of a spec, grouped by name. */
  function NetsOf(nets: seq<(string, string)>): map<string, set<string>> {
    map n | n in NetNames(nets) :: UrlsNamed(nets, n)
  }

  /** The node info `from_spec` builds. */
  function InfoOf(spec: NodeSpec): NodeInfo {
    NodeInfo(spec.name, Text.SetOf(spec.modules), NetsOf(spec.networks))
  }

  /** The (network name, url) pairs of a node info. */
  function PairsOf(info: NodeInfo): set<(string, string)> {
    set n, u | n in info.networks && u in info.networks[n] :: (n, u)
  }

  function PairSet(nets: seq<(string, string)>): set<(string, string)> {
    set i | 0 <= i < |nets| :: nets[i]
  }

  /** `networks[name].add(url)` for one more pair. */
  lemma {:induction false} NetsOfSnoc(nets: seq<(string, string)>, p: (string, string))
    ensures NetsOf(nets + [p]) == NetsOf(nets)[p.0 := (if p.0 in NetsOf(nets) then NetsOf(nets)[p.0] else {}) + {p.1}]
  {
    var s := nets + [p];
    assert NetNames(s) == NetNames(nets) + {p.0} by {
      forall i | 0 <= i < |nets| ensures s[i] == nets[i] { }
    }
    forall n | n in NetNames(s)
      ensures UrlsNamed(s, n) == (if n == p.0 then (if p.0 in NetsOf(nets) then NetsOf(nets)[p.0] else {}) + {p.1} else UrlsNamed(nets, n))
    {
      assert forall i :: 0 <= i < |nets| ==> s[i] == nets[i];
      assert s[|nets|] == p;
      if n == p.0 && p.0 !in NetsOf(nets) {
        assert UrlsNamed(nets, n) == {};
      }
    }
  }

  /** `from_spec` then `to_spec` keeps the name, the set of modules and the
      set of (network name, url) pairs. */
  lemma {:induction false} SpecRoundTrip(spec: NodeSpec)
    ensures InfoOf(spec).name == spec.name
    ensures InfoOf(spec).modules == Text.SetOf(spec.modules)
    ensures PairsOf(InfoOf(spec)) == PairSet(spec.networks)
  {
    var info := InfoOf(spec);
    forall q | q in PairSet(spec.networks) ensures q in PairsOf(info) {
      var i :| 0 <= i < |spec.networks| && spec.networks[i] == q;
      assert q.0 in NetNames(spec.networks);
      assert q.1 in UrlsNamed(spec.networks, q.0);
    }
  }

  /** `Actor.get_module(dst)`: the text before the first dot. */
  function ModuleOf(dst: string): (r: string)
    ensures '.' !in r
    ensures r == dst || Text.StartsWith(dst, r + ".")
  {
    match Text.SplitOnce(dst, '.')
    case None => dst
    case Some((a, b)) =>
      assert dst[..|a| + 1] == a + ".";
      a
  }

  /** The urls of `node` on the networks whose names `cur` also has. */
  function UrlsFor(node: NodeInfo, cur: NodeInfo): set<string> {
    set n, u | n in node.networks && n in cur.networks && u in node.networks[n] :: u
  }

  /** `_node_index` built over `all`: a later node of the same name
      replaces an earlier one. */
  function NodeIndexOf(all: seq<NodeInfo>, cur: NodeInfo): map<string, set<string>>
    decreases |all|
  {
    if all == [] then map[]
    else NodeIndexOf(all[..|all| - 1], cur)[all[|all| - 1].name := UrlsFor(all[|all| - 1], cur)]
  }

  /** `module_index[mod].add(node.name)` for every module of `node`. */
  function AddModules(mi: map<string, set<string>>, node: NodeInfo): map<string, set<string>> {
    map m | m in mi.Keys + node.modules ::
      (if m in mi then mi[m] else {}) + (if m in node.modules then {node.name} else {})
  }

  lemma {:induction false} AddNoModules(mi: map<string, set<string>>, node: NodeInfo)
    requires node.modules == {}
    ensures AddModules(mi, node) == mi
  {
    var l := AddModules(mi, node);
    assert l.Keys == mi.Keys;
    forall k | k in l.Keys ensures l[k] == mi[k] {
      assert l[k] == mi[k] + {};
    }
  }

  lemma {:induction false} AddOneModule(mi: map<string, set<string>>, node: NodeInfo, m: string)
    requires m !in node.modules
    ensures AddModules(mi, node.(modules := node.modules + {m})) ==
            AddModules(mi, node)[m := Get(AddModules(mi, node), m) + {node.name}]
  {
    var l := AddModules(mi, node.(modules := node.modules + {m}));
    var r := AddModules(mi, node)[m := Get(AddModules(mi, node), m) + {node.name}];
    assert l.Keys == r.Keys;
    forall k | k in l.Keys ensures l[k] == r[k] { }
  }

  /** `_module_index` built over `all`. */
  function ModuleIndexOf(all: seq<NodeInfo>): map<string, set<string>>
    decreases |all|
  {
    if all == [] then map[] else AddModules(ModuleIndexOf(all[..|all| - 1]), all[|all| - 1])
  }

  /** `{x.name: x for x in all}`. */
  function NodesOf(all: seq<NodeInfo>): seq<(string, NodeInfo)>
    decreases |all|
  {
    if all == [] then [] else Assign(NodesOf(all[..|all| - 1]), all[|all| - 1].name, all[|all| - 1])
  }

  /** `d[m]` of a defaultdict(set). */
  function Get(d: map<string, set<string>>, m: string): set<string> {
    if m in d then d[m] else {}
  }

  /** The nodes in `all` that list module `m`. */
  function ServingNodes(all: seq<NodeInfo>, m: string): set<string> {
    set i | 0 <= i < |all| && m in all[i].modules :: all[i].name
  }

  /** The module index maps each module to exactly the nodes that list it. */
  lemma {:induction false} ModuleIndexExact(all: seq<NodeInfo>, m: string)
    ensures Get(ModuleIndexOf(all), m) == ServingNodes(all, m)
    decreases |all|
  {
    if all != [] {
      var init := all[..|all| - 1];
      ModuleIndexExact(init, m);
      assert forall i :: 0 <= i < |init| ==> init[i] == all[i];
      var last := all[|all| - 1];
      assert ServingNodes(all, m) == ServingNodes(init, m) + (if m in last.modules then {last.name} else {});
    }
  }

  /** The node index lists, for each node name, the urls of the last node
      of that name on the networks the current node also has. */
  lemma {:induction false} NodeIndexExact(all: seq<NodeInfo>, cur: NodeInfo, j: nat)
    requires j < |all| && forall k :: j < k < |all| ==> all[k].name != all[j].name
    ensures all[j].name in NodeIndexOf(all, cur)
    ensures NodeIndexOf(all, cur)[all[j].name] == UrlsFor(all[j], cur)
    decreases |all|
  {
    if j < |all| - 1 {
      var init := all[..|all| - 1];
      assert forall i :: 0 <= i < |init| ==> init[i] == all[i];
      NodeIndexExact(init, cur, j);
    }
  }

  /** A name is in the node index exactly when some node has it. */
  lemma {:induction false} NodeIndexKeys(all: seq<NodeInfo>, cur: NodeInfo, name: string)
    ensures name in NodeIndexOf(all, cur) <==> exists i :: 0 <= i < |all| && all[i].name == name
    decreases |all|
  {
    if all != [] {
      var init := all[..|all| - 1];
      assert forall i :: 0 <= i < |init| ==> init[i] == all[i];
      NodeIndexKeys(init, cur, name);
    }
  }

  /** Every node in `all` is in the node dict. */
  lemma {:induction false} NodesOfKeys(all: seq<NodeInfo>, name: string)
    ensures Lookup(NodesOf(all), name).Some? <==> exists i :: 0 <= i < |all| && all[i].name == name
    decreases |all|
  {
    if all != [] {
      var init := all[..|all| - 1];
      assert forall i :: 0 <= i < |init| ==> init[i] == all[i];
      NodesOfKeys(init, name);
      AssignLookup(NodesOf(init), all[|all| - 1].name, all[|all| - 1], name);
    }
  }

  /** A message's routing fields; the empty text is Python's `None`. */
  datatype Message = Message(dst: string, srcNode: string, dstNode: string, dstUrl: string)

  /** `random.choice` of an empty list (`IndexError`), `_node_index` without
      the node (`KeyError`). */
  datatype RegistryError = NoChoice | UnknownNode

  /** The list `_update` indexes: the given nodes, then the current node,
      then the registry node if there is one. */
  function Indexed(nodes: seq<NodeInfo>, cur: NodeInfo, reg: Option<NodeInfo>): seq<NodeInfo> {
    nodes + [cur] + (if reg.Some? then [reg.value] else [])
  }

  /** `ActorRegistery`. */
  class ActorRegistery {
    const currentNode: NodeInfo
    const registeryNode: Option<NodeInfo>
    var nodes: seq<(string, NodeInfo)>
    var nodeIndex: map<string, set<string>>
    var moduleIndex: map<string, set<string>>
    /** The list the last `_update` indexed. */
    ghost var known: seq<NodeInfo>

    ghost predicate Valid()
      reads this
    {
      |known| >= 1 &&
      (registeryNode.None? ==> known[|known| - 1] == currentNode) &&
      (registeryNode.Some? ==> |known| >= 2 && known[|known| - 2] == currentNode && known[|known| - 1] == registeryNode.value) &&
      nodes == NodesOf(known) && nodeIndex == NodeIndexOf(known, currentNode) && moduleIndex == ModuleIndexOf(known)
    }

    constructor(current: NodeSpec, registery: Option<NodeSpec>, specs: seq<NodeSpec>)
      ensures Valid()
      ensures currentNode == InfoOf(current)
      ensures registeryNode == (if registery.Some? then Some(InfoOf(registery.value)) else None)
      ensures known == Indexed(InfoList(specs), currentNode, registeryNode)
    {
      if registery.Some? {
        var r := FromSpec(registery.value);
        registeryNode := Some(r);
      } else {
        registeryNode := None;
      }
      var c := FromSpec(current);
      currentNode := c;
      new;
      Update(specs);
    }

    /** The urls of `node` that `_update` collects. */
    method NodeUrls(node: NodeInfo) returns (urls: set<string>)
      ensures urls == UrlsFor(node, currentNode)
    {
      urls := {};
      var names := node.networks.Keys * currentNode.networks.Keys;
      ghost var seen: set<string> := {};
      while names != {}
        invariant names + seen == node.networks.Keys * currentNode.networks.Keys && names !! seen
        invariant urls == set n, u | n in seen && u in node.networks[n] :: u
        decreases names
      {
        var n :| n in names;
        urls := urls + node.networks[n];
        names := names - {n};
        seen := seen + {n};
      }
    }

    /** `for mod in node.modules: module_index[mod].add(node.name)`. */
    static method IndexModules(mi: map<string, set<string>>, node: NodeInfo) returns (r: map<string, set<string>>)
      ensures r == AddModules(mi, node)
    {
      r := mi;
      var mods := node.modules;
      AddNoModules(mi, node.(modules := {}));
      while mods != {}
        invariant mods <= node.modules
        invariant r == AddModules(mi, node.(modules := node.modules - mods))
        decreases mods
      {
        var m :| m in mods;
        AddOneModule(mi, node.(modules := node.modules - mods), m);
        assert (node.modules - mods) + {m} == node.modules - (mods - {m});
        r := r[m := Get(r, m) + {node.name}];
        mods := mods - {m};
      }
      assert node.(modules := node.modules - {}) == node;
    }

    /** `_update(nodes)`. */
    method Update1(given: seq<NodeInfo>)
      modifies this
      ensures Valid() && known == Indexed(given, currentNode, registeryNode)
    {
      var all := given + [currentNode];
      if registeryNode.Some? {
        all := all + [registeryNode.value];
      }
      var ni: map<string, set<string>> := map[];
      var mi: map<string, set<string>> := map[];
      var dict: seq<(string, NodeInfo)> := [];
      for i := 0 to |all|
        invariant ni == NodeIndexOf(all[..i], currentNode)
        invariant mi == ModuleIndexOf(all[..i])
        invariant dict == NodesOf(all[..i])
      {
        assert all[..i + 1][..i] == all[..i];
        var urls := NodeUrls(all[i]);
        ni := ni[all[i].name := urls];
        mi := IndexModules(mi, all[i]);
        dict := Assign(dict, all[i].name, all[i]);
      }
      assert all[..|all|] == all;
      nodeIndex := ni;
      moduleIndex := mi;
      nodes := dict;
      known := all;
    }

    /** `update(node_specs)`. */
    method Update(specs: seq<NodeSpec>)
      modifies this
      ensures Valid() && known == Indexed(InfoList(specs), currentNode, registeryNode)
    {
      var infos: seq<NodeInfo> := [];
      for i := 0 to |specs|
        invariant infos == InfoList(specs[..i])
      {
        assert specs[..i + 1][..i] == specs[..i];
        var info := FromSpec(specs[i]);
        infos := infos + [info];
      }
      assert specs[..|specs|] == specs;
      Update1(infos);
    }

    /** `add(node_spec)`: the nodes already known, then the new one. */
    method Add(spec: NodeSpec)
      modifies this
      ensures Valid() && known == Indexed(Values(old(nodes)) + [InfoOf(spec)], currentNode, registeryNode)
    {
      var info := FromSpec(spec);
      Update1(Values(nodes) + [info]);
    }

    /** `find_dst_nodes(dst)`: the nodes that list the module of `dst`. */
    method FindDstNodes(dst: string) returns (r: set<string>)
      requires Valid()
      ensures r == ServingNodes(known, ModuleOf(dst))
    {
      r := Get(moduleIndex, ModuleOf(dst));
      ModuleIndexExact(known, ModuleOf(dst));
    }

    predicate IsLocalMessage(msg: Message)
      reads this
    {
      msg.dstNode == currentNode.name
    }

    /** `complete_message(message)`: the source node defaults to the
        current node, the destination node to a node that serves the
        destination's module, and a message for another node gets one of
        that node's urls when it has none. */
    method CompleteMessage(msg: Message) returns (r: Result<Message, RegistryError>)
      requires Valid()
      ensures r.Ok? ==>
        r.value.dst == msg.dst &&
        r.value.srcNode == (if msg.srcNode == "" then currentNode.name else msg.srcNode) &&
        (msg.dstNode != "" ==> r.value.dstNode == msg.dstNode) &&
        (msg.dstNode == "" ==> r.value.dstNode in ServingNodes(known, ModuleOf(msg.dst))) &&
        (IsLocalMessage(r.value) || msg.dstUrl != "" ==> r.value.dstUrl == msg.dstUrl) &&
        (!IsLocalMessage(r.value) && msg.dstUrl == "" ==>
          r.value.dstNode in nodeIndex && r.value.dstUrl in nodeIndex[r.value.dstNode])
      ensures msg.dstNode == "" && ServingNodes(known, ModuleOf(msg.dst)) == {} ==> r == Err(NoChoice)
      ensures msg.dstNode != "" && msg.dstNode != currentNode.name && msg.dstUrl == "" ==>
        (r == Err(UnknownNode) <==> msg.dstNode !in nodeIndex)
    {
      var m := msg;
      if m.srcNode == "" {
        m := m.(srcNode := currentNode.name);
      }
      if m.dstNode == "" {
        var candidates := FindDstNodes(m.dst);
        if candidates == {} {
          return Err(NoChoice);
        }
        var n :| n in candidates;
        m := m.(dstNode := n);
      }
      if m.dstNode != currentNode.name && m.dstUrl == "" {
        if m.dstNode !in nodeIndex {
          return Err(UnknownNode);
        }
        var urls := nodeIndex[m.dstNode];
        if urls == {} {
          return Err(NoChoice);
        }
        var u :| u in urls;
        m := m.(dstUrl := u);
      }
      return Ok(m);
    }
  }

  /** `[NodeInfo.from_spec(spec) for spec in specs]`. */
  function InfoList(specs: seq<NodeSpec>): seq<NodeInfo>
    decreases |specs|
  {
    if specs == [] then [] else InfoList(specs[..|specs| - 1]) + [InfoOf(specs[|specs| - 1])]
  }

  /** `list(d.values())`. */
  function Values<K, V>(d: seq<(K, V)>): seq<V> {
    seq(|d|, i requires 0 <= i < |d| => d[i].1)
  }

  /** `NodeInfo.from_spec(spec)`: the networks grouped by name in a loop. */
  method FromSpec(spec: NodeSpec) returns (info: NodeInfo)
    ensures info == InfoOf(spec)
  {
    var nets: map<string, set<string>> := map[];
    for i := 0 to |spec.networks|
      invariant nets == NetsOf(spec.networks[..i])
    {
      var p := spec.networks[i];
      NetsOfSnoc(spec.networks[..i], p);
      assert spec.networks[..i + 1] == spec.networks[..i] + [p];
      nets := nets[p.0 := (if p.0 in nets then nets[p.0] else {}) + {p.1}];
    }
    assert spec.networks[..|spec.networks|] == spec.networks;
    info := NodeInfo(spec.name, Text.SetOf(spec.modules), nets);
  }

  /** The pairs of `info` whose network name is in `names`. */
  function PairsIn(info: NodeInfo, names: set<string>): set<(string, string)> {
    set n, u | n in names && n in info.networks && u in info.networks[n] :: (n, u)
  }

  lemma {:induction false} PairsInAdd(info: NodeInfo, names: set<string>, n: string)
    requires n in info.networks
    ensures PairsIn(info, names + {n}) == PairsIn(info, names) + set u | u in info.networks[n] :: (n, u)
  {
  }

  lemma {:induction false} PairSetConcat(a: seq<(string, string)>, b: seq<(string, string)>)
    ensures PairSet(a + b) == PairSet(a) + PairSet(b)
  {
    var s := a + b;
    forall q | q in PairSet(b) ensures q in PairSet(s) {
      var i :| 0 <= i < |b| && b[i] == q;
      assert s[|a| + i] == q;
    }
    forall q | q in PairSet(a) ensures q in PairSet(s) {
      var i :| 0 <= i < |a| && a[i] == q;
      assert s[i] == q;
    }
  }

  /** One pair per url of one network. */
  method PairsFor(n: string, urls: set<string>) returns (ps: seq<(string, string)>)
    ensures PairSet(ps) == set u | u in urls :: (n, u)
  {
    ps := [];
    var left := urls;
    while left != {}
      invariant left <= urls
      invariant PairSet(ps) == set u | u in urls - left :: (n, u)
      decreases left
    {
      var u :| u in left;
      PairSetConcat(ps, [(n, u)]);
      assert [(n, u)][0] == (n, u);
      assert PairSet([(n, u)]) == {(n, u)};
      ps := ps + [(n, u)];
      left := left - {u};
    }
  }

  /** `list(s)`: each element once, in some order. */
  /** One step of `ListOf`: moving `m` from the pending set to the list. */
  lemma {:induction false} ListStep(r: seq<string>, s: set<string>, left: set<string>, m: string)
    requires left <= s && m in left
    requires Text.SetOf(r) == s - left && |r| == |s - left|
    ensures Text.SetOf(r + [m]) == s - (left - {m}) && |r + [m]| == |s - (left - {m})|
  {
    assert m !in s - left;
    assert Text.SetOf(r + [m]) == Text.SetOf(r) + {m};
    assert s - (left - {m}) == (s - left) + {m};
  }

  method ListOf(s: set<string>) returns (r: seq<string>)
    ensures Text.SetOf(r) == s && |r| == |s|
  {
    r := [];
    var left := s;
    while left != {}
      invariant left <= s
      invariant Text.SetOf(r) == s - left && |r| == |s - left|
      decreases left
    {
      var m :| m in left;
      ListStep(r, s, left, m);
      r := r + [m];
      left := left - {m};
    }
  }

  /** `NodeInfo.to_spec()`: one pair per network name and url, and the
      modules listed once each. */
  method ToSpec(info: NodeInfo) returns (spec: NodeSpec)
    ensures spec.name == info.name
    ensures Text.SetOf(spec.modules) == info.modules && |spec.modules| == |info.modules|
    ensures PairSet(spec.networks) == PairsOf(info)
  {
    var nets: seq<(string, string)> := [];
    var names := info.networks.Keys;
    while names != {}
      invariant names <= info.networks.Keys
      invariant PairSet(nets) == PairsIn(info, info.networks.Keys - names)
      decreases names
    {
      var n :| n in names;
      var ps := PairsFor(n, info.networks[n]);
      PairSetConcat(nets, ps);
      PairsInAdd(info, info.networks.Keys - names, n);
      assert (info.networks.Keys - names) + {n} == info.networks.Keys - (names - {n});
      nets := nets + ps;
      names := names - {n};
    }
    assert PairsIn(info, info.networks.Keys) == PairsOf(info);
    var mods := ListOf(info.modules);
    spec := NodeSpec(info.name, mods, nets);
  }
}
