/**
 * A widget's own connection points: the per-direction, per-type node
 * counters and generated node ids, the expandable node groups that keep a
 * few free nodes available as connections come and go, and the layout
 * anchors nodes are positioned against.
 */
module WidgetNodes {
  import opened Wrappers
  import opened Text
  import opened Numbers
  import NodeGraph

  /** A node a widget owns; pixel placement is not part of the model. */
  datatype Node = Node(
    id: string,
    direction: NodeGraph.Direction,
    nodeType: string,
    nodeLabel: string,
    connections: set<string>,
    anchorId: Option<string>,
    minSpacing: int,
    anchorOffset: int,
    sectionId: Option<string>,
    allowMultipleConnections: bool,
    groupId: Option<string>)

  /** The options addNode reads. */
  datatype NodeOptions = NodeOptions(
    nodeId: Option<string>,
    anchorId: Option<string>,
    minSpacing: Option<int>,
    anchorOffset: Option<int>,
    sectionId: Option<string>,
    allowMultipleConnections: bool,
    groupId: Option<string>)

  /** An expandable group's settings and its member node ids, oldest first. */
  datatype Group = Group(
    baseLabel: string,
    direction: NodeGraph.Direction,
    nodeType: string,
    sectionId: Option<string>,
    anchorId: Option<string>,
    anchorOffset: int,
    minSpacing: int,
    minAvailable: int,
    maxFree: int,
    allowMultipleConnections: bool,
    nodes: seq<string>)

  /** The configuration createExpandableNodeGroup reads; a missing number is `None`. */
  datatype GroupConfig = GroupConfig(
    baseLabel: Option<string>,
    direction: Option<NodeGraph.Direction>,
    nodeType: string,
    sectionId: Option<string>,
    anchorId: Option<string>,
    anchorOffset: Option<int>,
    minSpacing: Option<int>,
    minAvailable: Option<int>,
    maxFree: Option<int>,
    allowMultipleConnections: bool,
    initialNodes: Option<int>)

  /** A layout anchor; the DOM element is stood for by its selector text. */
  datatype Anchor = Anchor(id: string, element: Option<string>, selector: Option<string>, offset: int, closest: Option<string>)

  /** The node bookkeeping of one widget. */
  datatype NodeState = NodeState(
    nodes: map<string, Node>,
    counters: map<string, nat>,
    groups: map<string, Group>,
    membership: map<string, string>)

  /** `s || null` for an optional string: the empty string counts as absent. */
  function Present(s: Option<string>): (r: Option<string>)
    ensures r.Some? <==> s.Some? && s.value != ""
  {
    if s.Some? && s.value != "" then s else None
  }

  /** `n || d` for an optional number: zero counts as absent. */
  function OrNumber(n: Option<int>, d: int): int
  {
    if n.Some? && n.value != 0 then n.value else d
  }

  /** The `type` text a node direction is written as. */
  function DirectionName(d: NodeGraph.Direction): string
  {
    match d
    case Input => "input"
    case Output => "output"
  }

  /** The counter key `type:nodeType`. */
  function CounterKey(d: NodeGraph.Direction, nodeType: string): string
  {
    DirectionName(d) + ":" + nodeType
  }

  function Counter(counters: map<string, nat>, key: string): nat
  {
    if key in counters then counters[key] else 0
  }

  /** A generated node id: `<widget id>-<counter key>-<n>`. */
  function GeneratedId(widgetId: string, key: string, n: nat): string
  {
    widgetId + "-" + key + "-" + NatToString(n)
  }

  // ------------------------------------------------------------------ nodes

  /** The node addNode stores: no connections, and every option defaulted. */
  function NewNode(id: string, d: NodeGraph.Direction, nodeType: string, nodeLabel: string, options: NodeOptions): Node
  {
    Node(id, d, nodeType, nodeLabel, {}, Present(options.anchorId), OrNumber(options.minSpacing, 28),
         OrNumber(options.anchorOffset, 0), Present(options.sectionId), options.allowMultipleConnections,
         Present(options.groupId))
  }

  /** addNode: the new state and the id the node was stored under. */
  function NodeAdded(s: NodeState, widgetId: string, d: NodeGraph.Direction, nodeType: string, nodeLabel: string,
                     options: NodeOptions): (NodeState, string)
  {
    var key := CounterKey(d, nodeType);
    var next := Counter(s.counters, key) + 1;
    var id := if Present(options.nodeId).Some? then options.nodeId.value else GeneratedId(widgetId, key, next);
    (s.(nodes := s.nodes[id := NewNode(id, d, nodeType, nodeLabel, options)], counters := s.counters[key := next]), id)
  }

  /**
   * Every addNode call moves its `type:nodeType` counter up by exactly one,
   * whether or not a node id was supplied, and no other counter; the node is
   * stored under the supplied id, or under the generated one naming the new
   * counter value, with no connections; every other node stays as it was.
   */
  lemma NodeAddedSpec(s: NodeState, widgetId: string, d: NodeGraph.Direction, nodeType: string, nodeLabel: string,
                      options: NodeOptions)
    ensures var (r, id) := NodeAdded(s, widgetId, d, nodeType, nodeLabel, options);
      var key := CounterKey(d, nodeType);
      && Counter(r.counters, key) == Counter(s.counters, key) + 1
      && (forall k :: k != key ==> Counter(r.counters, k) == Counter(s.counters, k))
      && (options.nodeId.Some? && options.nodeId.value != "" ==> id == options.nodeId.value)
      && ((options.nodeId.None? || options.nodeId.value == "") ==> id == GeneratedId(widgetId, key, Counter(r.counters, key)))
      && id in r.nodes && r.nodes[id].id == id && r.nodes[id].connections == {}
      && r.nodes[id].direction == d && r.nodes[id].nodeType == nodeType && r.nodes[id].nodeLabel == nodeLabel
      && r.nodes.Keys == s.nodes.Keys + {id}
      && (forall n :: n in s.nodes && n != id ==> r.nodes[n] == s.nodes[n])
      && r.groups == s.groups && r.membership == s.membership
  {
  }

  /** The first generated input id for node type Weapon of widget `widget-xxx` is `widget-xxx-input:Weapon-1`. */
  lemma GeneratedIdExample()
    ensures GeneratedId("widget-xxx", CounterKey(NodeGraph.Input, "Weapon"), 1) == "widget-xxx-input:Weapon-1"
  {
    assert NatToString(1) == "1";
  }

  /** Generated ids of one widget and counter key differ for different counter values. */
  lemma GeneratedIdInjective(widgetId: string, key: string, m: nat, n: nat)
    requires GeneratedId(widgetId, key, m) == GeneratedId(widgetId, key, n)
    ensures m == n
  {
    var p := widgetId + "-" + key + "-";
    assert GeneratedId(widgetId, key, m) == p + NatToString(m);
    assert GeneratedId(widgetId, key, n) == p + NatToString(n);
    assert NatToString(m) == (p + NatToString(m))[|p|..];
    assert NatToString(n) == (p + NatToString(n))[|p|..];
    NatToStringInjective(m, n);
  }

  /** A list without every occurrence of one element, order kept. */
  function Without(list: seq<string>, x: string): (r: seq<string>)
    ensures forall y :: y in r <==> y in list && y != x
    ensures |r| <= |list|
  {
    if list == [] then []
    else Without(list[..|list| - 1], x) + (if list[|list| - 1] != x then [list[|list| - 1]] else [])
  }

  /** removeNode: the node leaves the map, its group's list and the membership map. */
  function NodeRemoved(s: NodeState, id: string): (r: NodeState)
    ensures r.groups.Keys == s.groups.Keys
    ensures forall g :: g in s.groups ==> r.groups[g] == s.groups[g].(nodes := r.groups[g].nodes)
  {
    if id !in s.nodes then s
    else
      var node := s.nodes[id];
      var s1 := s.(nodes := s.nodes - {id});
      if node.groupId.None? then s1
      else
        var gid := node.groupId.value;
        var groups := if gid in s.groups then s.groups[gid := s.groups[gid].(nodes := Without(s.groups[gid].nodes, id))]
                      else s.groups;
        s1.(groups := groups, membership := s.membership - {id})
  }

  /**
   * Removing an unknown node changes nothing. Otherwise the node is gone,
   * every other node and every counter stays, and when it belonged to a
   * group it has left that group's list and the membership map while the
   * other members keep their order.
   */
  lemma NodeRemovedSpec(s: NodeState, id: string)
    ensures id !in s.nodes ==> NodeRemoved(s, id) == s
    ensures var r := NodeRemoved(s, id);
      && id !in r.nodes
      && r.nodes == s.nodes - {id}
      && r.counters == s.counters
      && (id in s.nodes && s.nodes[id].groupId.Some? ==>
            id !in r.membership &&
            (s.nodes[id].groupId.value in s.groups ==>
               r.groups[s.nodes[id].groupId.value].nodes == Without(s.groups[s.nodes[id].groupId.value].nodes, id)))
      && (forall g :: g in s.groups && (id !in s.nodes || s.nodes[id].groupId != Some(g)) ==> r.groups[g] == s.groups[g])
  {
  }

  // ----------------------------------------------------------------- groups

  /** The default label of a group's `index`-th node. */
  function GroupLabel(g: Group, index: nat): string
  {
    g.baseLabel + " " + NatToString(index)
  }

  /** addExpandableGroupNode: the new state and the id of the added node, if the group exists. */
  function GroupNodeAdded(s: NodeState, widgetId: string, gid: string): (r: (NodeState, Option<string>))
    ensures r.0.groups.Keys == s.groups.Keys
  {
    if gid !in s.groups then (s, None)
    else
      var g := s.groups[gid];
      var options := NodeOptions(None, g.anchorId, Some(g.minSpacing), Some(g.anchorOffset), g.sectionId,
                                 g.allowMultipleConnections, Some(gid));
      var (s1, id) := NodeAdded(s, widgetId, g.direction, g.nodeType, GroupLabel(g, |g.nodes| + 1), options);
      (s1.(groups := s1.groups[gid := g.(nodes := g.nodes + [id])], membership := s1.membership[id := gid]), Some(id))
  }

  /**
   * Adding a group node to an unknown group changes nothing and returns no
   * id. Otherwise exactly one node is added, labelled with its position in
   * the group, tagged with the group, appended to the group's list and
   * recorded in the membership map.
   */
  lemma GroupNodeAddedSpec(s: NodeState, widgetId: string, gid: string)
    ensures gid !in s.groups ==> GroupNodeAdded(s, widgetId, gid) == (s, None)
    ensures gid in s.groups ==>
      var (r, id) := GroupNodeAdded(s, widgetId, gid);
      var g := s.groups[gid];
      && id.Some?
      && r.nodes.Keys == s.nodes.Keys + {id.value}
      && r.nodes[id.value].nodeLabel == GroupLabel(g, |g.nodes| + 1)
      && (gid != "" ==> r.nodes[id.value].groupId == Some(gid)) && r.nodes[id.value].connections == {}
      && r.groups[gid].nodes == g.nodes + [id.value]
      && r.membership == s.membership[id.value := gid]
      && (forall h :: h in s.groups && h != gid ==> r.groups[h] == s.groups[h])
  {
  }

  /** The listed ids that still have a node. */
  function Existing(nodes: map<string, Node>, list: seq<string>): (r: seq<string>)
    ensures forall y :: y in r <==> y in list && y in nodes
    ensures |r| <= |list|
  {
    if list == [] then []
    else Existing(nodes, list[..|list| - 1]) + (if list[|list| - 1] in nodes then [list[|list| - 1]] else [])
  }

  /** The listed ids whose node has no connection. */
  function Free(nodes: map<string, Node>, list: seq<string>): (r: seq<string>)
    ensures forall y :: y in r <==> y in list && y in nodes && nodes[y].connections == {}
    ensures |r| <= |list|
  {
    if list == [] then []
    else
      var x := list[|list| - 1];
      Free(nodes, list[..|list| - 1]) + (if x in nodes && nodes[x].connections == {} then [x] else [])
  }

  /**
   * The trimming loop of updateExpandableGroup, popping candidates off the
   * end of `free`; it also stops once no candidate is left (see
   * TrimSpinsAsWritten for the loop without that stop).
   */
  function Trimmed(s: NodeState, gid: string, free: seq<string>): (r: NodeState)
    requires gid in s.groups
    ensures r.groups.Keys == s.groups.Keys
    ensures forall g :: g in s.groups ==> r.groups[g] == s.groups[g].(nodes := r.groups[g].nodes)
    decreases |free|
  {
    var g := s.groups[gid];
    if free != [] && |free| > g.maxFree && |g.nodes| > g.minAvailable then
      var id := free[|free| - 1];
      var s1 := if id in s.nodes && s.nodes[id].connections == {} then NodeRemoved(s, id) else s;
      Trimmed(s1, gid, free[..|free| - 1])
    else s
  }

  /** The loop condition of updateExpandableGroup as written. */
  predicate TrimContinuesAsWritten(s: NodeState, gid: string, free: seq<string>)
    requires gid in s.groups
  {
    |free| > s.groups[gid].maxFree && |s.groups[gid].nodes| > s.groups[gid].minAvailable
  }

  /**
   * One pass of that loop's body as written: popping an empty list yields
   * `undefined`, which names no node, so the pass `continue`s unchanged.
   */
  function TrimIterationAsWritten(s: NodeState, gid: string, free: seq<string>): (NodeState, seq<string>)
    requires gid in s.groups
  {
    if free == [] then (s, [])
    else
      var id := free[|free| - 1];
      ((if id in s.nodes && s.nodes[id].connections == {} then NodeRemoved(s, id) else s), free[..|free| - 1])
  }

  /**
   * With a negative `maxFree`, a group holding more than `minAvailable`
   * nodes and no free node never leaves the loop as written: its condition
   * holds and a pass changes nothing.
   */
  lemma TrimSpinsAsWritten(s: NodeState, gid: string)
    requires gid in s.groups && s.groups[gid].maxFree < 0 && |s.groups[gid].nodes| > s.groups[gid].minAvailable
    ensures TrimContinuesAsWritten(s, gid, []) && TrimIterationAsWritten(s, gid, []) == (s, [])
  {
  }

  /** updateExpandableGroup. */
  function GroupUpdated(s: NodeState, widgetId: string, gid: string): NodeState
  {
    if gid !in s.groups then s
    else
      var g := s.groups[gid];
      var kept := Existing(s.nodes, g.nodes);
      var s1 := s.(groups := s.groups[gid := g.(nodes := kept)]);
      var free := Free(s1.nodes, kept);
      if |free| < g.minAvailable then GroupNodeAdded(s1, widgetId, gid).0
      else Trimmed(s1, gid, free)
  }

  /** Trimming removes only unconnected candidates and leaves every other node as it was. */
  lemma {:induction false} TrimmedRemovesFree(s: NodeState, gid: string, free: seq<string>)
    requires gid in s.groups
    ensures var r := Trimmed(s, gid, free);
      && r.nodes.Keys <= s.nodes.Keys
      && (forall n :: n in r.nodes ==> r.nodes[n] == s.nodes[n])
      && (forall n :: n in s.nodes && n !in r.nodes ==> n in free && s.nodes[n].connections == {})
      && r.counters == s.counters
    decreases |free|
  {
    var g := s.groups[gid];
    if free != [] && |free| > g.maxFree && |g.nodes| > g.minAvailable {
      var id := free[|free| - 1];
      var s1 := if id in s.nodes && s.nodes[id].connections == {} then NodeRemoved(s, id) else s;
      TrimmedRemovesFree(s1, gid, free[..|free| - 1]);
      assert forall n :: n in free[..|free| - 1] ==> n in free;
    }
  }

  /**
   * updateExpandableGroup on an unknown group changes nothing. Otherwise it
   * first drops vanished ids from the group; then, with fewer free nodes
   * than the minimum, it adds exactly one node; else it removes only
   * unconnected members of the group, adds none and keeps every other node.
   */
  lemma GroupUpdatedSpec(s: NodeState, widgetId: string, gid: string)
    ensures gid !in s.groups ==> GroupUpdated(s, widgetId, gid) == s
    ensures gid in s.groups ==>
      var r := GroupUpdated(s, widgetId, gid);
      var g := s.groups[gid];
      var kept := Existing(s.nodes, g.nodes);
      if |Free(s.nodes, kept)| < g.minAvailable then
        exists id :: r.nodes.Keys == s.nodes.Keys + {id} && r.groups[gid].nodes == kept + [id]
      else
        && r.nodes.Keys <= s.nodes.Keys
        && (forall n :: n in r.nodes ==> r.nodes[n] == s.nodes[n])
        && (forall n :: n in s.nodes && n !in r.nodes ==> n in g.nodes && s.nodes[n].connections == {})
  {
    if gid in s.groups {
      var g := s.groups[gid];
      var kept := Existing(s.nodes, g.nodes);
      var s1 := s.(groups := s.groups[gid := g.(nodes := kept)]);
      var free := Free(s1.nodes, kept);
      if |free| < g.minAvailable {
        GroupNodeAddedSpec(s1, widgetId, gid);
        var id := GroupNodeAdded(s1, widgetId, gid).1.value;
        assert GroupUpdated(s, widgetId, gid).nodes.Keys == s.nodes.Keys + {id};
      } else {
        TrimmedRemovesFree(s1, gid, free);
      }
    }
  }

  /**
   * A widget's node record shares its `connections` set with the node
   * system, whose createConnection and removeConnection add and delete
   * connection ids in it. This is that write seen from the widget: the
   * node's set becomes `conns` and nothing else changes; an unknown id
   * changes nothing.
   */
  function ConnectionsSet(s: NodeState, nodeId: string, conns: set<string>): (r: NodeState)
    ensures r.nodes.Keys == s.nodes.Keys
    ensures r.counters == s.counters && r.groups == s.groups && r.membership == s.membership
    ensures nodeId in s.nodes ==> r.nodes[nodeId] == s.nodes[nodeId].(connections := conns)
    ensures forall n :: n in s.nodes && n != nodeId ==> r.nodes[n] == s.nodes[n]
  {
    if nodeId in s.nodes then s.(nodes := s.nodes[nodeId := s.nodes[nodeId].(connections := conns)]) else s
  }

  /** A stored node is free after the write exactly when it is given no connection. */
  lemma ConnectionsSetFree(s: NodeState, nodeId: string, conns: set<string>, list: seq<string>)
    requires nodeId in s.nodes
    ensures nodeId in Free(ConnectionsSet(s, nodeId, conns).nodes, list) <==> nodeId in list && conns == {}
  {
  }

  /** With every listed node connected, no node is free. */
  lemma {:induction false} FreeNone(nodes: map<string, Node>, list: seq<string>)
    requires forall y :: y in list && y in nodes ==> nodes[y].connections != {}
    ensures Free(nodes, list) == []
  {
    if list != [] {
      FreeNone(nodes, list[..|list| - 1]);
      assert list[|list| - 1] in list;
    }
  }

  /** The new state has grown the group by exactly one stored node. */
  ghost predicate GrewBy(s: NodeState, r: NodeState, gid: string, id: string)
    requires gid in r.groups
  {
    r.nodes.Keys == s.nodes.Keys + {id} && id in r.groups[gid].nodes
  }

  /**
   * Connecting the last free node of a group whose `minAvailable` is
   * positive makes the next updateExpandableGroup add a fresh node to the
   * group.
   */
  lemma ConnectingLastFreeGrows(s: NodeState, widgetId: string, gid: string, nodeId: string, conns: set<string>)
    requires gid in s.groups && s.groups[gid].minAvailable >= 1
    requires forall y :: y in s.groups[gid].nodes && y in s.nodes && s.nodes[y].connections == {} ==> y == nodeId
    requires conns != {}
    ensures var s1 := ConnectionsSet(s, nodeId, conns);
      exists id :: GrewBy(s, GroupUpdated(s1, widgetId, gid), gid, id)
  {
    var s1 := ConnectionsSet(s, nodeId, conns);
    var g := s1.groups[gid];
    var kept := Existing(s1.nodes, g.nodes);
    var free := Free(s1.nodes, kept);
    FreeNone(s1.nodes, kept);
    GroupUpdatedSpec(s1, widgetId, gid);
    var id :| GroupUpdated(s1, widgetId, gid).nodes.Keys == s1.nodes.Keys + {id}
              && GroupUpdated(s1, widgetId, gid).groups[gid].nodes == kept + [id];
    assert id in GroupUpdated(s1, widgetId, gid).groups[gid].nodes;
    assert GrewBy(s, GroupUpdated(s1, widgetId, gid), gid, id);
  }

  /**
   * Disconnecting a group member makes it free again: unless the group is
   * short of free nodes, the next updateExpandableGroup adds no node.
   */
  lemma DisconnectedIsFree(s: NodeState, widgetId: string, gid: string, nodeId: string)
    requires gid in s.groups && nodeId in s.nodes && nodeId in s.groups[gid].nodes
    ensures var s1 := ConnectionsSet(s, nodeId, {});
      && nodeId in Free(s1.nodes, Existing(s1.nodes, s.groups[gid].nodes))
      && (|Free(s1.nodes, Existing(s1.nodes, s.groups[gid].nodes))| >= s.groups[gid].minAvailable ==>
            GroupUpdated(s1, widgetId, gid).nodes.Keys <= s.nodes.Keys)
  {
    var s1 := ConnectionsSet(s, nodeId, {});
    GroupUpdatedSpec(s1, widgetId, gid);
  }

  // ----------------------------------------------- the trimming loop's result

  /** Each group's list has no repeats, and each listed node that exists is tagged with that group. */
  ghost predicate GroupsTidy(s: NodeState)
  {
    forall g :: g in s.groups ==>
      && (forall i, j :: 0 <= i < j < |s.groups[g].nodes| ==> s.groups[g].nodes[i] != s.groups[g].nodes[j])
      && (forall n :: n in s.groups[g].nodes && n in s.nodes ==> s.nodes[n].groupId == Some(g))
  }

  predicate Distinct(list: seq<string>)
  {
    forall i, j :: 0 <= i < j < |list| ==> list[i] != list[j]
  }

  lemma WithoutDistinct(list: seq<string>, x: string)
    requires Distinct(list)
    ensures Distinct(Without(list, x))
  {
    if list != [] {
      var init := list[..|list| - 1];
      assert Distinct(init);
      WithoutDistinct(init, x);
      if list[|list| - 1] != x {
        assert list[|list| - 1] !in init;
      }
    }
  }

  lemma ExistingDistinct(nodes: map<string, Node>, list: seq<string>)
    requires Distinct(list)
    ensures Distinct(Existing(nodes, list))
  {
    if list != [] {
      var init := list[..|list| - 1];
      assert Distinct(init);
      ExistingDistinct(nodes, init);
      assert list[|list| - 1] !in init;
    }
  }

  lemma {:induction false} FreeDistinct(nodes: map<string, Node>, list: seq<string>)
    requires Distinct(list)
    ensures Distinct(Free(nodes, list))
  {
    if list != [] {
      var init := list[..|list| - 1];
      assert Distinct(init);
      FreeDistinct(nodes, init);
      assert list[|list| - 1] !in init;
    }
  }

  lemma FreeSnoc(nodes: map<string, Node>, list: seq<string>, y: string)
    ensures Free(nodes, list + [y]) == Free(nodes, list) + (if y in nodes && nodes[y].connections == {} then [y] else [])
  {
    assert (list + [y])[..|list|] == list;
  }

  lemma WithoutSnoc(list: seq<string>, y: string, x: string)
    ensures Without(list + [y], x) == Without(list, x) + (if y != x then [y] else [])
  {
    assert (list + [y])[..|list|] == list;
  }

  /** Dropping a node from both the node map and the list drops it from the free list. */
  lemma {:induction false} FreeWithout(nodes: map<string, Node>, list: seq<string>, x: string)
    ensures Free(nodes - {x}, Without(list, x)) == Without(Free(nodes, list), x)
  {
    if list != [] {
      var init := list[..|list| - 1];
      var y := list[|list| - 1];
      var rest := nodes - {x};
      assert list == init + [y];
      FreeWithout(nodes, init, x);
      var yFree := y in nodes && nodes[y].connections == {};
      var kept := if y != x then [y] else [];
      WithoutSnoc(init, y, x);
      assert Without(list, x) == Without(init, x) + kept;
      FreeSnoc(nodes, init, y);
      assert Free(nodes, list) == Free(nodes, init) + (if yFree then [y] else []);
      if yFree {
        WithoutSnoc(Free(nodes, init), y, x);
      } else {
        assert Free(nodes, list) == Free(nodes, init);
      }
      assert Without(Free(nodes, list), x) == Without(Free(nodes, init), x) + (if yFree && y != x then [y] else []);
      if y != x {
        FreeSnoc(rest, Without(init, x), y);
        assert (y in rest && rest[y].connections == {}) == yFree;
      } else {
        assert Without(list, x) == Without(init, x);
      }
    }
  }

  lemma WithoutLast(list: seq<string>)
    requires list != [] && Distinct(list)
    ensures Without(list, list[|list| - 1]) == list[..|list| - 1]
  {
    var x := list[|list| - 1];
    var init := list[..|list| - 1];
    assert x !in init;
    WithoutAbsent(init, x);
  }

  lemma {:induction false} WithoutAbsent(list: seq<string>, x: string)
    requires x !in list
    ensures Without(list, x) == list
  {
    if list != [] {
      var init := list[..|list| - 1];
      assert list == init + [list[|list| - 1]];
      WithoutAbsent(init, x);
    }
  }

  /**
   * The trimming loop, started on the group's free members, stops with at
   * most `maxFree` free members left, with at most `minAvailable` members,
   * or with no free member left.
   */
  lemma {:induction false} TrimmedStops(s: NodeState, gid: string, free: seq<string>)
    requires gid in s.groups && Distinct(s.groups[gid].nodes)
    requires forall n :: n in s.groups[gid].nodes && n in s.nodes ==> s.nodes[n].groupId == Some(gid)
    requires free == Free(s.nodes, s.groups[gid].nodes)
    ensures var r := Trimmed(s, gid, free);
      || |Free(r.nodes, r.groups[gid].nodes)| <= s.groups[gid].maxFree
      || |r.groups[gid].nodes| <= s.groups[gid].minAvailable
      || Free(r.nodes, r.groups[gid].nodes) == []
    decreases |free|
  {
    var g := s.groups[gid];
    if free != [] && |free| > g.maxFree && |g.nodes| > g.minAvailable {
      var id := free[|free| - 1];
      assert id in free;
      var s1 := NodeRemoved(s, id);
      assert s1.nodes == s.nodes - {id};
      assert s1.groups[gid].nodes == Without(g.nodes, id);
      WithoutDistinct(g.nodes, id);
      FreeWithout(s.nodes, g.nodes, id);
      FreeDistinct(s.nodes, g.nodes);
      WithoutLast(free);
      TrimmedStops(s1, gid, free[..|free| - 1]);
    }
  }

  /**
   * When the groups are tidy and updateExpandableGroup does not add a node,
   * it stops with at most `maxFree` free members, at most `minAvailable`
   * members in the group, or no free member.
   */
  lemma GroupUpdatedStops(s: NodeState, widgetId: string, gid: string)
    requires gid in s.groups && GroupsTidy(s)
    requires |Free(s.nodes, Existing(s.nodes, s.groups[gid].nodes))| >= s.groups[gid].minAvailable
    ensures var r := GroupUpdated(s, widgetId, gid);
      || |Free(r.nodes, r.groups[gid].nodes)| <= s.groups[gid].maxFree
      || |r.groups[gid].nodes| <= s.groups[gid].minAvailable
      || Free(r.nodes, r.groups[gid].nodes) == []
  {
    var g := s.groups[gid];
    var kept := Existing(s.nodes, g.nodes);
    assert Distinct(g.nodes);
    ExistingDistinct(s.nodes, g.nodes);
    var s1 := s.(groups := s.groups[gid := g.(nodes := kept)]);
    TrimmedStops(s1, gid, Free(s1.nodes, kept));
  }

  /** `Math.max(config.initialNodes || 1, 1)`. */
  function InitialNodes(c: GroupConfig): (n: int)
    ensures n >= 1
  {
    if c.initialNodes.Some? then Max(c.initialNodes.value, 1) else 1
  }

  /** The group createExpandableNodeGroup registers, with every default filled in. */
  function NewGroup(c: GroupConfig): Group
  {
    Group(
      if Present(c.baseLabel).Some? then c.baseLabel.value else "Connection",
      c.direction.GetOr(NodeGraph.Input),
      c.nodeType,
      Present(c.sectionId),
      Present(c.anchorId),
      OrNumber(c.anchorOffset, 0),
      OrNumber(c.minSpacing, 28),
      c.minAvailable.GetOr(1),
      c.maxFree.GetOr(2),
      c.allowMultipleConnections,
      [])
  }

  /** `k` calls of addExpandableGroupNode. */
  function GroupNodesAdded(s: NodeState, widgetId: string, gid: string, k: nat): (r: NodeState)
    ensures r.groups.Keys == s.groups.Keys
  {
    if k == 0 then s else GroupNodeAdded(GroupNodesAdded(s, widgetId, gid, k - 1), widgetId, gid).0
  }

  /** createExpandableNodeGroup. */
  function GroupCreated(s: NodeState, widgetId: string, gid: string, c: GroupConfig): NodeState
  {
    var s1 := s.(groups := s.groups[gid := NewGroup(c)]);
    GroupUpdated(GroupNodesAdded(s1, widgetId, gid, InitialNodes(c)), widgetId, gid)
  }

  /**
   * `k` group-node additions append the ids generated from the next `k`
   * values of the group's counter and keep the group's settings.
   */
  lemma {:induction false} GroupNodesAddedSpec(s: NodeState, widgetId: string, gid: string, k: nat)
    requires gid in s.groups
    ensures var r := GroupNodesAdded(s, widgetId, gid, k);
      var g := s.groups[gid];
      var key := CounterKey(g.direction, g.nodeType);
      && r.groups[gid] == g.(nodes := g.nodes + GeneratedIds(widgetId, key, Counter(s.counters, key), k))
      && Counter(r.counters, key) == Counter(s.counters, key) + k
  {
    if k > 0 {
      GroupNodesAddedSpec(s, widgetId, gid, k - 1);
      var g := s.groups[gid];
      var key := CounterKey(g.direction, g.nodeType);
      GroupNodeAddedNext(GroupNodesAdded(s, widgetId, gid, k - 1), widgetId, gid, g, key, Counter(s.counters, key), k);
    }
  }

  /** The inductive step of GroupNodesAddedSpec, over any state that has reached step `k - 1`. */
  lemma GroupNodeAddedNext(p: NodeState, widgetId: string, gid: string, g: Group, key: string, c0: nat, k: nat)
    requires k > 0 && key == CounterKey(g.direction, g.nodeType)
    requires gid in p.groups && p.groups[gid] == g.(nodes := g.nodes + GeneratedIds(widgetId, key, c0, k - 1))
    requires Counter(p.counters, key) == c0 + k - 1
    ensures var r := GroupNodeAdded(p, widgetId, gid).0;
      && r.groups[gid] == g.(nodes := g.nodes + GeneratedIds(widgetId, key, c0, k))
      && Counter(r.counters, key) == c0 + k
      && r.nodes.Keys == p.nodes.Keys + {GeneratedId(widgetId, key, c0 + k)}
  {
    GroupNodeAddedStep(p, widgetId, gid, key, c0 + k);
    assert (g.nodes + GeneratedIds(widgetId, key, c0, k - 1)) + [GeneratedId(widgetId, key, c0 + k)]
        == g.nodes + GeneratedIds(widgetId, key, c0, k);
  }

  /** One group-node addition in the terms of GroupNodesAddedSpec. */
  lemma GroupNodeAddedStep(p: NodeState, widgetId: string, gid: string, key: string, next: nat)
    requires gid in p.groups && key == CounterKey(p.groups[gid].direction, p.groups[gid].nodeType)
    requires next == Counter(p.counters, key) + 1
    ensures var r := GroupNodeAdded(p, widgetId, gid).0;
      && r.groups[gid] == p.groups[gid].(nodes := p.groups[gid].nodes + [GeneratedId(widgetId, key, next)])
      && Counter(r.counters, key) == next
      && r.nodes.Keys == p.nodes.Keys + {GeneratedId(widgetId, key, next)}
  {
    var g := p.groups[gid];
    var options := NodeOptions(None, g.anchorId, Some(g.minSpacing), Some(g.anchorOffset), g.sectionId,
                               g.allowMultipleConnections, Some(gid));
    NodeAddedSpec(p, widgetId, g.direction, g.nodeType, GroupLabel(g, |g.nodes| + 1), options);
  }

  /** The ids generated from the `k` counter values after `c0`. */
  function GeneratedIds(widgetId: string, key: string, c0: nat, k: nat): (r: seq<string>)
    ensures |r| == k
  {
    if k == 0 then [] else GeneratedIds(widgetId, key, c0, k - 1) + [GeneratedId(widgetId, key, c0 + k)]
  }

  /** The `i`-th generated id names counter value `c0 + i + 1`. */
  lemma {:induction false} GeneratedIdsAt(widgetId: string, key: string, c0: nat, k: nat, i: nat)
    requires i < k
    ensures GeneratedIds(widgetId, key, c0, k)[i] == GeneratedId(widgetId, key, c0 + i + 1)
  {
    if i < k - 1 {
      GeneratedIdsAt(widgetId, key, c0, k - 1, i);
    }
  }

  /** Generated ids for different counter values are all different. */
  lemma GeneratedIdsDistinct(widgetId: string, key: string, c0: nat, k: nat)
    ensures Distinct(GeneratedIds(widgetId, key, c0, k))
  {
    var list := GeneratedIds(widgetId, key, c0, k);
    forall i, j | 0 <= i < j < |list| ensures list[i] != list[j] {
      GeneratedIdsAt(widgetId, key, c0, k, i);
      GeneratedIdsAt(widgetId, key, c0, k, j);
      if list[i] == list[j] {
        GeneratedIdInjective(widgetId, key, c0 + i + 1, c0 + j + 1);
      }
    }
  }

  /**
   * createExpandableNodeGroup adds at least one node to the new group, all
   * of them different, before it settles the group.
   */
  lemma GroupCreatedAddsNodes(s: NodeState, widgetId: string, gid: string, c: GroupConfig)
    ensures var s1 := s.(groups := s.groups[gid := NewGroup(c)]);
      var added := GroupNodesAdded(s1, widgetId, gid, InitialNodes(c));
      && gid in added.groups && |added.groups[gid].nodes| == InitialNodes(c) >= 1
      && added.groups[gid] == NewGroup(c).(nodes := added.groups[gid].nodes)
      && Distinct(added.groups[gid].nodes)
  {
    var s1 := s.(groups := s.groups[gid := NewGroup(c)]);
    GroupNodesAddedSpec(s1, widgetId, gid, InitialNodes(c));
    var key := CounterKey(NewGroup(c).direction, NewGroup(c).nodeType);
    GeneratedIdsDistinct(widgetId, key, Counter(s1.counters, key), InitialNodes(c));
  }

  /**
   * updateExpandableGroup never empties a group whose minimum is positive:
   * it either adds a node or trims no lower than the minimum.
   */
  lemma GroupUpdatedKeepsNode(s: NodeState, widgetId: string, gid: string)
    requires gid in s.groups && Distinct(s.groups[gid].nodes)
    ensures var r := GroupUpdated(s, widgetId, gid);
      gid in r.groups && |r.groups[gid].nodes| >= Min(1, s.groups[gid].minAvailable)
  {
    var g := s.groups[gid];
    var kept := Existing(s.nodes, g.nodes);
    ExistingDistinct(s.nodes, g.nodes);
    var s1 := s.(groups := s.groups[gid := g.(nodes := kept)]);
    var free := Free(s1.nodes, kept);
    if |free| < g.minAvailable {
      GroupNodeAddedSpec(s1, widgetId, gid);
    } else {
      TrimmedKeepsMin(s1, gid, free);
    }
  }

  /** With a positive minimum, a newly created group keeps at least one node. */
  lemma GroupCreatedKeepsNode(s: NodeState, widgetId: string, gid: string, c: GroupConfig)
    requires NewGroup(c).minAvailable >= 1
    ensures var r := GroupCreated(s, widgetId, gid, c);
      gid in r.groups && |r.groups[gid].nodes| >= 1
  {
    var s1 := s.(groups := s.groups[gid := NewGroup(c)]);
    GroupCreatedAddsNodes(s, widgetId, gid, c);
    GroupUpdatedKeepsNode(GroupNodesAdded(s1, widgetId, gid, InitialNodes(c)), widgetId, gid);
  }

  /** Trimming never takes a group below its minimum, once it is at or above it. */
  lemma {:induction false} TrimmedKeepsMin(s: NodeState, gid: string, free: seq<string>)
    requires gid in s.groups && Distinct(s.groups[gid].nodes) && |s.groups[gid].nodes| >= s.groups[gid].minAvailable
    ensures |Trimmed(s, gid, free).groups[gid].nodes| >= s.groups[gid].minAvailable
    decreases |free|
  {
    var g := s.groups[gid];
    if free != [] && |free| > g.maxFree && |g.nodes| > g.minAvailable {
      var id := free[|free| - 1];
      var s1 := if id in s.nodes && s.nodes[id].connections == {} then NodeRemoved(s, id) else s;
      WithoutAtMostOne(g.nodes, id);
      WithoutDistinct(g.nodes, id);
      TrimmedKeepsMin(s1, gid, free[..|free| - 1]);
    }
  }

  /** Removing an id from a list without repeats shortens it by at most one. */
  lemma {:induction false} WithoutAtMostOne(list: seq<string>, x: string)
    requires Distinct(list)
    ensures |Without(list, x)| >= |list| - 1
  {
    if list != [] {
      var init := list[..|list| - 1];
      assert Distinct(init);
      if list[|list| - 1] == x {
        assert x !in init;
        WithoutAbsent(init, x);
      } else {
        WithoutAtMostOne(init, x);
      }
    }
  }

  // ---------------------------------------------------------------- anchors

  /** addLayoutAnchor: an empty id is ignored; otherwise any anchor with that id is replaced by the new one, placed last. */
  function AnchorAdded(anchors: seq<Anchor>, a: Anchor): seq<Anchor>
  {
    if a.id == "" then anchors else WithoutAnchor(anchors, a.id) + [a]
  }

  function WithoutAnchor(anchors: seq<Anchor>, id: string): (r: seq<Anchor>)
    ensures forall x :: x in r <==> x in anchors && x.id != id
  {
    if anchors == [] then []
    else WithoutAnchor(anchors[..|anchors| - 1], id) + (if anchors[|anchors| - 1].id != id then [anchors[|anchors| - 1]] else [])
  }

  /** No two anchors share an id. */
  predicate UniqueAnchors(anchors: seq<Anchor>)
  {
    forall i, j :: 0 <= i < j < |anchors| ==> anchors[i].id != anchors[j].id
  }

  lemma {:induction false} WithoutAnchorUnique(anchors: seq<Anchor>, id: string)
    requires UniqueAnchors(anchors)
    ensures UniqueAnchors(WithoutAnchor(anchors, id))
  {
    if anchors != [] {
      var init := anchors[..|anchors| - 1];
      WithoutAnchorUnique(init, id);
      var r := WithoutAnchor(anchors, id);
      var ri := WithoutAnchor(init, id);
      if anchors[|anchors| - 1].id != id {
        forall i | 0 <= i < |ri| ensures ri[i].id != anchors[|anchors| - 1].id {
          assert ri[i] in init;
          var k :| 0 <= k < |init| && init[k] == ri[i];
        }
      }
    }
  }

  /**
   * After addLayoutAnchor with a non-empty id, exactly one anchor carries
   * that id and it is the new one, in last place; the other anchors keep
   * their order, and ids stay unique. An empty id changes nothing.
   */
  lemma AnchorAddedSpec(anchors: seq<Anchor>, a: Anchor)
    requires UniqueAnchors(anchors)
    ensures a.id == "" ==> AnchorAdded(anchors, a) == anchors
    ensures a.id != "" ==>
      var r := AnchorAdded(anchors, a);
      && r[|r| - 1] == a
      && (forall x :: x in r && x.id == a.id ==> x == a)
      && (forall x :: x in anchors && x.id != a.id ==> x in r)
      && UniqueAnchors(r)
  {
    if a.id != "" {
      var w := WithoutAnchor(anchors, a.id);
      WithoutAnchorUnique(anchors, a.id);
      var r := w + [a];
      forall i, j | 0 <= i < j < |r| ensures r[i].id != r[j].id {
        if j == |r| - 1 {
          assert r[i] in w;
        }
      }
    }
  }

  // -------------------------------------------------------------- the class

  /** The node bookkeeping part of a widget. */
  class WidgetNodeSet {
    const id: string
    var nodes: map<string, Node>
    var nodeCounters: map<string, nat>
    var expandableNodeGroups: map<string, Group>
    var nodeGroupMembership: map<string, string>
    var layoutAnchors: seq<Anchor>

    function State(): NodeState
      reads this
    {
      NodeState(nodes, nodeCounters, expandableNodeGroups, nodeGroupMembership)
    }

    constructor (widgetId: string)
      ensures id == widgetId && State() == NodeState(map[], map[], map[], map[]) && layoutAnchors == []
    {
      id := widgetId;
      nodes, nodeCounters, expandableNodeGroups, nodeGroupMembership := map[], map[], map[], map[];
      layoutAnchors := [];
    }

    method AddNode(d: NodeGraph.Direction, nodeType: string, nodeLabel: string, options: NodeOptions) returns (nodeId: string)
      modifies this
      ensures (State(), nodeId) == NodeAdded(old(State()), id, d, nodeType, nodeLabel, options)
      ensures layoutAnchors == old(layoutAnchors)
    {
      var counterKey := CounterKey(d, nodeType);
      var nextIndex := Counter(nodeCounters, counterKey) + 1;
      nodeCounters := nodeCounters[counterKey := nextIndex];
      if options.nodeId.None? || options.nodeId.value == "" {
        nodeId := GeneratedId(id, counterKey, nextIndex);
      } else {
        nodeId := options.nodeId.value;
      }
      nodes := nodes[nodeId := NewNode(nodeId, d, nodeType, nodeLabel, options)];
    }

    method RemoveNode(nodeId: string)
      modifies this
      ensures State() == NodeRemoved(old(State()), nodeId)
      ensures layoutAnchors == old(layoutAnchors)
    {
      if nodeId !in nodes {
        return;
      }
      var node := nodes[nodeId];
      nodes := nodes - {nodeId};
      if node.groupId.Some? {
        var groupId := node.groupId.value;
        if groupId in expandableNodeGroups {
          var group := expandableNodeGroups[groupId];
          expandableNodeGroups := expandableNodeGroups[groupId := group.(nodes := Without(group.nodes, nodeId))];
        }
        nodeGroupMembership := nodeGroupMembership - {nodeId};
      }
    }

    method AddExpandableGroupNode(groupId: string) returns (nodeId: Option<string>)
      modifies this
      ensures (State(), nodeId) == GroupNodeAdded(old(State()), id, groupId)
      ensures layoutAnchors == old(layoutAnchors)
    {
      if groupId !in expandableNodeGroups {
        return None;
      }
      var group := expandableNodeGroups[groupId];
      var index := |group.nodes| + 1;
      var nodeLabel := GroupLabel(group, index);
      var options := NodeOptions(None, group.anchorId, Some(group.minSpacing), Some(group.anchorOffset), group.sectionId,
                                 group.allowMultipleConnections, Some(groupId));
      var added := AddNode(group.direction, group.nodeType, nodeLabel, options);
      expandableNodeGroups := expandableNodeGroups[groupId := group.(nodes := group.nodes + [added])];
      nodeGroupMembership := nodeGroupMembership[added := groupId];
      nodeId := Some(added);
    }

    /** The node system's write into the node record it shares with this widget. */
    method SetNodeConnections(nodeId: string, conns: set<string>)
      modifies this
      ensures State() == ConnectionsSet(old(State()), nodeId, conns)
      ensures layoutAnchors == old(layoutAnchors)
    {
      if nodeId in nodes {
        nodes := nodes[nodeId := nodes[nodeId].(connections := conns)];
      }
    }

    method UpdateExpandableGroup(groupId: string)
      modifies this
      ensures State() == GroupUpdated(old(State()), id, groupId)
      ensures layoutAnchors == old(layoutAnchors)
    {
      if groupId !in expandableNodeGroups {
        return;
      }
      var group := expandableNodeGroups[groupId];
      var kept := Existing(nodes, group.nodes);
      expandableNodeGroups := expandableNodeGroups[groupId := group.(nodes := kept)];
      var freeNodes := Free(nodes, kept);
      if |freeNodes| < group.minAvailable {
        var _ := AddExpandableGroupNode(groupId);
        return;
      }
      ghost var start := State();
      ghost var free0 := freeNodes;
      while freeNodes != [] && |freeNodes| > group.maxFree && |expandableNodeGroups[groupId].nodes| > group.minAvailable
        invariant groupId in expandableNodeGroups
        invariant expandableNodeGroups[groupId] == group.(nodes := expandableNodeGroups[groupId].nodes)
        invariant Trimmed(State(), groupId, freeNodes) == Trimmed(start, groupId, free0)
        invariant layoutAnchors == old(layoutAnchors)
        decreases |freeNodes|
      {
        var nodeId := freeNodes[|freeNodes| - 1];
        freeNodes := freeNodes[..|freeNodes| - 1];
        if nodeId !in nodes || nodes[nodeId].connections != {} {
          continue;
        }
        RemoveNode(nodeId);
      }
    }

    method CreateExpandableNodeGroup(groupId: string, config: GroupConfig)
      modifies this
      ensures State() == GroupCreated(old(State()), id, groupId, config)
      ensures layoutAnchors == old(layoutAnchors)
    {
      expandableNodeGroups := expandableNodeGroups[groupId := NewGroup(config)];
      ghost var start := State();
      var initial := InitialNodes(config);
      for i := 0 to initial
        invariant State() == GroupNodesAdded(start, id, groupId, i)
        invariant layoutAnchors == old(layoutAnchors)
      {
        var _ := AddExpandableGroupNode(groupId);
      }
      UpdateExpandableGroup(groupId);
    }

    /** handleNodeConnectionChange: re-balance the group the node belongs to, if any. */
    method HandleNodeConnectionChange(nodeId: string)
      modifies this
      ensures nodeId !in old(nodeGroupMembership) || old(nodeGroupMembership)[nodeId] == "" ==> State() == old(State())
      ensures nodeId in old(nodeGroupMembership) && old(nodeGroupMembership)[nodeId] != "" ==>
                State() == GroupUpdated(old(State()), id, old(nodeGroupMembership)[nodeId])
      ensures layoutAnchors == old(layoutAnchors)
    {
      if nodeId !in nodeGroupMembership || nodeGroupMembership[nodeId] == "" {
        return;
      }
      UpdateExpandableGroup(nodeGroupMembership[nodeId]);
    }

    /** clearNodes: remove every node, then forget the groups, the memberships and the counters. */
    method ClearNodes()
      modifies this
      ensures State() == NodeState(map[], map[], map[], map[])
      ensures layoutAnchors == old(layoutAnchors)
    {
      while nodes.Keys != {}
        invariant layoutAnchors == old(layoutAnchors)
        decreases |nodes.Keys|
      {
        var nodeId :| nodeId in nodes;
        NodeRemovedSpec(State(), nodeId);
        RemoveNode(nodeId);
      }
      expandableNodeGroups, nodeGroupMembership, nodeCounters := map[], map[], map[];
    }

    method AddLayoutAnchor(anchorId: string, element: Option<string>, selector: Option<string>, offset: Option<int>,
                           closest: Option<string>)
      modifies this
      ensures layoutAnchors == AnchorAdded(old(layoutAnchors), Anchor(anchorId, element, Present(selector), OrNumber(offset, 0), Present(closest)))
      ensures State() == old(State())
    {
      if anchorId == "" {
        return;
      }
      var anchor := Anchor(anchorId, element, Present(selector), OrNumber(offset, 0), Present(closest));
      var kept: seq<Anchor> := [];
      for i := 0 to |layoutAnchors|
        invariant kept == WithoutAnchor(layoutAnchors[..i], anchorId)
      {
        assert layoutAnchors[..i + 1][..i] == layoutAnchors[..i];
        if layoutAnchors[i].id != anchorId {
          kept := kept + [layoutAnchors[i]];
        }
      }
      assert layoutAnchors[..|layoutAnchors|] == layoutAnchors;
      layoutAnchors := kept + [anchor];
    }
  }
}
