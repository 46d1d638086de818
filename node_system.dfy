// The connection graph between widget nodes: canonical connection ids, the
// node-type compatibility rule, the connection table and the per-node
// connection sets it is kept consistent with, and the parent/child links
// between widgets that output-to-input connections establish.

module NodeGraph {
  import opened Wrappers
  import opened Text
  import opened WidgetTree

  /** A node's `type`: which side of a connection it sits on. */
  datatype Direction = Input | Output

  /** A node as getNodeById returns it: its widget, its direction and its node type. */
  datatype Node = Node(widgetId: string, direction: Direction, nodeType: string)

  /** A connection record. */
  datatype Connection = Connection(id: string, source: string, target: string, selected: bool)

  /**
   * The connection world: every widget's nodes by id, each node's own
   * `connections` set (the one getNodeById's shallow copy shares), and the
   * connection table.
   */
  datatype Network = Network(
    nodes: map<string, Node>,
    nodeConns: map<string, set<string>>,
    conns: map<string, Connection>)

  function NodeConns(nc: map<string, set<string>>, n: string): set<string>
  {
    if n in nc then nc[n] else {}
  }

  // ------------------------------------------------------------ connection ids

  /** getConnectionId: `connection-<lower>-<higher>`, the two node ids in sorted order. */
  function ConnectionId(a: string, b: string): string
  {
    if LexLe(a, b) then "connection-" + a + "-" + b else "connection-" + b + "-" + a
  }

  /** The id does not depend on which end is the source. */
  lemma ConnectionIdSymmetric(a: string, b: string)
    ensures ConnectionId(a, b) == ConnectionId(b, a)
  {
    LexTotal(a, b);
    if LexLe(a, b) && LexLe(b, a) {
      LexAntisymmetric(a, b);
    }
  }

  /**
   * The id is not injective on unordered pairs: node ids containing `-` can
   * give two different pairs the same id, and canConnect then refuses the
   * second pair as already connected.
   */
  lemma ConnectionIdCollision()
    ensures ConnectionId("a-b", "c") == ConnectionId("a", "b-c")
    ensures {"a-b", "c"} != {"a", "b-c"}
  {
    assert LexLe("a-b", "c");
    assert LexLe("a", "b-c");
    assert "a-b" !in {"a", "b-c"};
  }

  // ------------------------------------------------------- type compatibility

  /** areNodeTypesCompatible's table: the node types each node type accepts. */
  const TypeCompatibility: map<string, seq<string>> := map[
    "power" := ["power"],
    "weapon" := ["weapon"],
    "magazine" := ["weapon"],
    "component" := ["component"],
    "data" := ["data"],
    "loadout" := ["loadout"],
    "powerplant" := ["powerplant"],
    "statistics" := ["statistics"],
    "outfit" := ["outfit"],
    "ship-class" := ["ship-class"],
    "information" := ["information"]
  ]

  function Accepts(t1: string, t2: string): bool
  {
    t1 in TypeCompatibility && t2 in TypeCompatibility[t1]
  }

  /** areNodeTypesCompatible: either type's table entry lists the other. */
  function TypesCompatible(t1: string, t2: string): bool
  {
    Accepts(t1, t2) || Accepts(t2, t1)
  }

  /** The node types that pair with themselves. */
  const SelfCompatible: set<string> :=
    {"power", "weapon", "component", "data", "loadout", "powerplant", "statistics", "outfit", "ship-class", "information"}

  /**
   * Compatibility is symmetric, and holds exactly between equal node types
   * of the self-compatible kinds and between magazine and weapon, in either
   * order.
   */
  lemma TypesCompatibleSpec(t1: string, t2: string)
    ensures TypesCompatible(t1, t2) == TypesCompatible(t2, t1)
    ensures TypesCompatible(t1, t2) <==>
      (t1 == t2 && t1 in SelfCompatible) || {t1, t2} == {"magazine", "weapon"}
  {
    if {t1, t2} == {"magazine", "weapon"} {
      assert t1 == "magazine" || t1 == "weapon";
      assert t1 == "magazine" ==> t2 == "weapon";
      assert t1 == "weapon" ==> t2 == "magazine";
    }
    if t1 == "magazine" && t2 == "weapon" {
      assert {t1, t2} == {"magazine", "weapon"};
    }
    if t1 == "weapon" && t2 == "magazine" {
      assert {t1, t2} == {"magazine", "weapon"};
    }
  }

  // ---------------------------------------------------------------- canConnect

  /** The rules a pair of nodes must meet to be connected, the id aside. */
  predicate PairOk(nodes: map<string, Node>, s: string, t: string)
  {
    && s != t && s in nodes && t in nodes
    && nodes[s].widgetId != nodes[t].widgetId
    && nodes[s].direction != nodes[t].direction
    && TypesCompatible(nodes[s].nodeType, nodes[t].nodeType)
  }

  /** canConnect. */
  function CanConnect(g: Network, s: string, t: string): bool
  {
    if s == t then false
    else if s !in g.nodes || t !in g.nodes then false
    else if g.nodes[s].widgetId == g.nodes[t].widgetId then false
    else if g.nodes[s].direction == g.nodes[t].direction then false
    else if ConnectionId(s, t) in g.conns then false
    else TypesCompatible(g.nodes[s].nodeType, g.nodes[t].nodeType)
  }

  /**
   * canConnect refuses identical ids, a missing node, two nodes of one
   * widget, two nodes of one direction and an existing connection id, and
   * otherwise answers type compatibility; it does not depend on the order
   * of the two nodes.
   */
  lemma CanConnectSpec(g: Network, s: string, t: string)
    ensures CanConnect(g, s, t) <==> PairOk(g.nodes, s, t) && ConnectionId(s, t) !in g.conns
    ensures s == t || s !in g.nodes || t !in g.nodes ==> !CanConnect(g, s, t)
    ensures s in g.nodes && t in g.nodes && g.nodes[s].widgetId == g.nodes[t].widgetId ==> !CanConnect(g, s, t)
    ensures s in g.nodes && t in g.nodes && g.nodes[s].direction == g.nodes[t].direction ==> !CanConnect(g, s, t)
    ensures ConnectionId(s, t) in g.conns ==> !CanConnect(g, s, t)
    ensures CanConnect(g, s, t) == CanConnect(g, t, s)
  {
    ConnectionIdSymmetric(s, t);
    if s in g.nodes && t in g.nodes {
      TypesCompatibleSpec(g.nodes[s].nodeType, g.nodes[t].nodeType);
    }
  }

  // -------------------------------------------------- the connection table

  /** Every id in a node's set names a connection that has that node as an end. */
  predicate SetsPointToTable(g: Network)
  {
    forall n, id :: n in g.nodeConns && id in g.nodeConns[n] ==>
      id in g.conns && (g.conns[id].source == n || g.conns[id].target == n)
  }

  /** Every connection is stored under its own id and is in the sets of both its (existing) ends. */
  predicate TableInSets(g: Network)
  {
    forall id :: id in g.conns ==>
      && g.conns[id].id == id
      && (g.conns[id].source in g.nodes ==> id in NodeConns(g.nodeConns, g.conns[id].source))
      && (g.conns[id].target in g.nodes ==> id in NodeConns(g.nodeConns, g.conns[id].target))
  }

  /** The connection table and the per-node connection sets agree. */
  predicate Consistent(g: Network)
  {
    g.nodes.Keys == g.nodeConns.Keys && SetsPointToTable(g) && TableInSets(g)
  }

  /** A connection that canConnect would have let through, stored under its canonical id. */
  predicate ValidConnection(nodes: map<string, Node>, id: string, c: Connection)
  {
    c.id == id && id == ConnectionId(c.source, c.target) && PairOk(nodes, c.source, c.target)
  }

  predicate AllValid(g: Network)
  {
    forall id :: id in g.conns ==> ValidConnection(g.nodes, id, g.conns[id])
  }

  /** A node set with an id added, when the node exists. */
  function Track(nodes: map<string, Node>, nc: map<string, set<string>>, n: string, id: string): map<string, set<string>>
  {
    if n in nodes then nc[n := NodeConns(nc, n) + {id}] else nc
  }

  /** A node set with an id deleted, when the node exists. */
  function Untrack(nodes: map<string, Node>, nc: map<string, set<string>>, n: string, id: string): map<string, set<string>>
  {
    if n in nodes then nc[n := NodeConns(nc, n) - {id}] else nc
  }

  /** createConnection's effect on the table and the node sets. */
  function AddConnection(g: Network, s: string, t: string): Network
  {
    var id := ConnectionId(s, t);
    g.(conns := g.conns[id := Connection(id, s, t, false)],
       nodeConns := Track(g.nodes, Track(g.nodes, g.nodeConns, s, id), t, id))
  }

  /** removeConnection's effect on the table and the node sets. */
  function DropConnection(g: Network, id: string): Network
  {
    if id !in g.conns then g
    else
      var c := g.conns[id];
      g.(conns := g.conns - {id},
         nodeConns := Untrack(g.nodes, Untrack(g.nodes, g.nodeConns, c.source, id), c.target, id))
  }

  /** What removeConnection does to the table, whatever the sets hold. */
  lemma DropConnectionTable(g: Network, id: string)
    ensures DropConnection(g, id).conns == g.conns - {id} && DropConnection(g, id).nodes == g.nodes
  {
  }

  /**
   * createConnection after a successful canConnect adds exactly the new
   * record under its canonical id, puts that id into both endpoints' sets,
   * changes no other set entry, and keeps the table and the sets consistent
   * and every connection valid.
   */
  lemma AddConnectionSpec(g: Network, s: string, t: string)
    requires Consistent(g) && CanConnect(g, s, t)
    ensures var r := AddConnection(g, s, t); var id := ConnectionId(s, t);
      && Consistent(r)
      && r.nodes == g.nodes
      && r.conns == g.conns[id := Connection(id, s, t, false)] && id !in g.conns
      && id in NodeConns(r.nodeConns, s) && id in NodeConns(r.nodeConns, t)
      && (forall n :: n != s && n != t ==> NodeConns(r.nodeConns, n) == NodeConns(g.nodeConns, n))
  {
    AddNodeSets(g, s, t);
    AddPointsToTable(g, s, t);
  }

  lemma AddPointsToTable(g: Network, s: string, t: string)
    requires SetsPointToTable(g) && ConnectionId(s, t) !in g.conns
    ensures SetsPointToTable(AddConnection(g, s, t))
  {
    var r := AddConnection(g, s, t);
    var id := ConnectionId(s, t);
    AddNodeSets(g, s, t);
    forall n, k | n in r.nodeConns && k in r.nodeConns[n]
      ensures k in r.conns && (r.conns[k].source == n || r.conns[k].target == n)
    {
      assert k in NodeConns(r.nodeConns, n);
      if k != id {
        assert k in NodeConns(g.nodeConns, n);
      }
    }
  }

  /**
   * removeConnection with an unknown id changes nothing; otherwise the id
   * leaves the table and every node's set (no other id moves), and the
   * table and the sets stay consistent.
   */
  lemma DropConnectionSpec(g: Network, id: string)
    requires Consistent(g)
    ensures var r := DropConnection(g, id);
      && Consistent(r)
      && r.nodes == g.nodes
      && r.conns == g.conns - {id}
      && (forall n :: NodeConns(r.nodeConns, n) == NodeConns(g.nodeConns, n) - {id})
      && (id !in g.conns ==> r == g)
  {
    var r := DropConnection(g, id);
    DropNodeSets(g, id);
    if id in g.conns {
      assert SetsPointToTable(r) by {
        forall n, k | n in r.nodeConns && k in r.nodeConns[n]
          ensures k in r.conns && (r.conns[k].source == n || r.conns[k].target == n)
        {
          assert k in NodeConns(r.nodeConns, n);
          assert k in NodeConns(g.nodeConns, n);
        }
      }
    }
  }

  /** Adding a connection puts its id into the sets of its existing ends and nowhere else. */
  lemma AddNodeSets(g: Network, s: string, t: string)
    ensures forall n ::
      NodeConns(AddConnection(g, s, t).nodeConns, n) ==
        NodeConns(g.nodeConns, n) + (if (n == s || n == t) && n in g.nodes then {ConnectionId(s, t)} else {})
  {
  }

  /** Removing a connection takes its id out of exactly the sets that held it. */
  lemma DropNodeSets(g: Network, id: string)
    requires SetsPointToTable(g) && g.nodeConns.Keys <= g.nodes.Keys
    ensures forall n :: NodeConns(DropConnection(g, id).nodeConns, n) == NodeConns(g.nodeConns, n) - {id}
  {
    if id in g.conns {
      var c := g.conns[id];
      var nc1 := Untrack(g.nodes, g.nodeConns, c.source, id);
      forall n ensures NodeConns(Untrack(g.nodes, nc1, c.target, id), n) == NodeConns(g.nodeConns, n) - {id} {
        assert NodeConns(nc1, n) == if n == c.source && n in g.nodes then NodeConns(g.nodeConns, n) - {id} else NodeConns(g.nodeConns, n);
        if n != c.source && n != c.target {
          assert n in g.nodeConns ==> id !in g.nodeConns[n];
        } else if n !in g.nodes {
          assert n !in g.nodeConns;
        }
      }
    } else {
      forall n ensures NodeConns(g.nodeConns, n) == NodeConns(g.nodeConns, n) - {id} {
        assert n in g.nodeConns ==> id !in g.nodeConns[n];
      }
    }
  }

  // ------------------------------------------------------------- the hierarchy

  /** The (parent widget, child widget) a connection defines: the output's widget over the input's. */
  function ParentChild(nodes: map<string, Node>, s: string, t: string): Option<(string, string)>
  {
    if s !in nodes || t !in nodes then None
    else if nodes[s].direction == Output && nodes[t].direction == Input then Some((nodes[s].widgetId, nodes[t].widgetId))
    else if nodes[t].direction == Output && nodes[s].direction == Input then Some((nodes[t].widgetId, nodes[s].widgetId))
    else None
  }

  /** Whether a connection other than `id` still links `parent`'s output to `child`'s input. */
  function StillLinked(g: Network, id: string, parent: string, child: string): bool
  {
    exists k :: k in g.conns && g.conns[k].id != id
      && ParentChild(g.nodes, g.conns[k].source, g.conns[k].target) == Some((parent, child))
  }

  /**
   * assignHierarchy: an output-to-input connection makes the output's
   * widget a parent of the input's, through addChild with its corrected
   * cycle check (WithChild; the check as written is WithChildAsWritten).
   */
  ghost function Linked(tr: Tree, nodes: map<string, Node>, s: string, t: string): Tree
  {
    match ParentChild(nodes, s, t)
    case None => tr
    case Some(pc) =>
      if pc.0 in tr.widgets && pc.1 in tr.widgets then WithChild(tr, pc.0, Some(pc.1)).0 else tr
  }

  /** removeConnection's effect on the hierarchy: the link goes with the last connection behind it. */
  function Unlinked(tr: Tree, g: Network, id: string): Tree
  {
    if id !in g.conns then tr
    else
      var c := g.conns[id];
      match ParentChild(g.nodes, c.source, c.target)
      case None => tr
      case Some(pc) =>
        if pc.0 in tr.widgets && pc.1 in tr.widgets && !StillLinked(g, id, pc.0, pc.1)
        then WithoutChild(tr, pc.0, Some(pc.1))
        else tr
  }

  /**
   * A new output-to-input connection between known widgets makes the
   * output's widget a parent of the input's unless the input's widget
   * already reaches the output's (the corrected addChild check); otherwise,
   * or when a widget is unknown, the hierarchy is unchanged. It stays
   * acyclic and mirrored.
   */
  lemma LinkedSpec(tr: Tree, nodes: map<string, Node>, s: string, t: string)
    requires Acyclic(tr) && Mirrored(tr) && PairOk(nodes, s, t)
    ensures var r := Linked(tr, nodes, s, t);
      && Acyclic(r) && Mirrored(r)
      && ParentChild(nodes, s, t).Some?
      && (var (p, c) := ParentChild(nodes, s, t).value;
          && (p in tr.widgets && c in tr.widgets && !Reachable(tr, c, p) ==>
                c in ChildrenOf(r, p) && p in ParentsOf(r, c))
          && (p !in tr.widgets || c !in tr.widgets || Reachable(tr, c, p) ==> r == tr))
  {
    var (p, c) := ParentChild(nodes, s, t).value;
    AddChildSpec(tr, p, Some(c));
  }

  /**
   * Removing a connection drops its parent/child link exactly when no other
   * connection still links the same two widgets the same way; otherwise
   * the hierarchy is unchanged. It stays acyclic and mirrored.
   */
  lemma UnlinkedSpec(tr: Tree, g: Network, id: string)
    requires Acyclic(tr) && Mirrored(tr)
    ensures var r := Unlinked(tr, g, id);
      && Acyclic(r) && Mirrored(r)
      && (id in g.conns && ParentChild(g.nodes, g.conns[id].source, g.conns[id].target).Some? ==>
            var (p, c) := ParentChild(g.nodes, g.conns[id].source, g.conns[id].target).value;
            && (p in tr.widgets && c in tr.widgets && !StillLinked(g, id, p, c) ==>
                  c !in ChildrenOf(r, p) && p !in ParentsOf(r, c))
            && (StillLinked(g, id, p, c) ==> r == tr))
      && (id !in g.conns ==> r == tr)
  {
    if id in g.conns {
      var cn := g.conns[id];
      match ParentChild(g.nodes, cn.source, cn.target)
      case None =>
      case Some(pc) => RemoveChildSpec(tr, pc.0, Some(pc.1));
    }
  }

  /** Some connection in `conns` makes `parent` the parent of `child`. */
  ghost predicate Backed(nodes: map<string, Node>, conns: map<string, Connection>, parent: string, child: string)
  {
    exists k :: k in conns && ParentChild(nodes, conns[k].source, conns[k].target) == Some((parent, child))
  }

  /** Every connection is stored under its own id, as the connection map keys it. */
  predicate Keyed(conns: map<string, Connection>)
  {
    forall k :: k in conns ==> conns[k].id == k
  }

  /**
   * A link that removing the connections of `before` not left in `after`
   * drops: both widgets are known, a removed connection stood for it, and
   * no remaining one does.
   */
  ghost predicate Dropped(tr: Tree, nodes: map<string, Node>, before: map<string, Connection>,
                          after: map<string, Connection>, parent: string, child: string)
  {
    && parent in tr.widgets && child in tr.widgets
    && Backed(nodes, before - after.Keys, parent, child)
    && !Backed(nodes, after, parent, child)
  }

  /**
   * The hierarchy `r` after removing, one by one and in any order, the
   * connections of `before` that are not in `after`: the widgets stay,
   * and exactly the dropped links are gone, in both directions.
   */
  ghost predicate UnlinkedAll(tr: Tree, r: Tree, nodes: map<string, Node>,
                              before: map<string, Connection>, after: map<string, Connection>)
  {
    && r.widgets == tr.widgets
    && (forall p, c :: c in ChildrenOf(r, p) <==> c in ChildrenOf(tr, p) && !Dropped(tr, nodes, before, after, p, c))
    && (forall p, c :: p in ParentsOf(r, c) <==> p in ParentsOf(tr, c) && !Dropped(tr, nodes, before, after, p, c))
  }

  /** Removing nothing drops no link. */
  lemma UnlinkedAllStart(tr: Tree, nodes: map<string, Node>, before: map<string, Connection>)
    ensures UnlinkedAll(tr, tr, nodes, before, before)
  {
    assert before - before.Keys == map[];
  }

  /** One more removeConnection keeps the account of the dropped links exact. */
  lemma UnlinkedAllStep(tr: Tree, h: Tree, g: Network, before: map<string, Connection>, id: string)
    requires Keyed(g.conns)
    requires forall k :: k in g.conns ==> k in before && before[k] == g.conns[k]
    requires UnlinkedAll(tr, h, g.nodes, before, g.conns)
    ensures UnlinkedAll(tr, Unlinked(h, g, id), g.nodes, before, g.conns - {id})
  {
    if id !in g.conns {
      assert g.conns - {id} == g.conns;
      return;
    }
    var after := g.conns - {id};
    var pc := ParentChild(g.nodes, g.conns[id].source, g.conns[id].target);
    forall p, c
      ensures Dropped(tr, g.nodes, before, after, p, c) <==>
        Dropped(tr, g.nodes, before, g.conns, p, c)
        || (pc == Some((p, c)) && p in tr.widgets && c in tr.widgets && !Backed(g.nodes, after, p, c))
    {
      var removed, removed' := before - g.conns.Keys, before - after.Keys;
      assert removed' == removed[id := g.conns[id]];
      if pc != Some((p, c)) {
        if Backed(g.nodes, g.conns, p, c) {
          var k :| k in g.conns && ParentChild(g.nodes, g.conns[k].source, g.conns[k].target) == Some((p, c));
          assert k in after;
        }
        if Backed(g.nodes, removed', p, c) {
          var k :| k in removed' && ParentChild(g.nodes, removed'[k].source, removed'[k].target) == Some((p, c));
          assert k in removed;
        }
      } else {
        assert id in removed';
      }
      if Backed(g.nodes, removed, p, c) {
        var k :| k in removed && ParentChild(g.nodes, removed[k].source, removed[k].target) == Some((p, c));
        assert k in removed';
      }
      if Backed(g.nodes, after, p, c) {
        var k :| k in after && ParentChild(g.nodes, after[k].source, after[k].target) == Some((p, c));
        assert k in g.conns;
      }
    }
    match pc
    case None =>
    case Some(link) =>
      if link.0 in h.widgets && link.1 in h.widgets {
        var (p, c) := link;
        assert StillLinked(g, id, p, c) <==> Backed(g.nodes, after, p, c) by {
          if StillLinked(g, id, p, c) {
            var k :| k in g.conns && g.conns[k].id != id
              && ParentChild(g.nodes, g.conns[k].source, g.conns[k].target) == Some((p, c));
            assert k in after;
          }
          if Backed(g.nodes, after, p, c) {
            var k :| k in after && ParentChild(g.nodes, after[k].source, after[k].target) == Some((p, c));
            assert g.conns[k].id == k;
          }
        }
      }
  }

  /** One removeConnection inside a batch: the facts the batch removals carry from step to step. */
  lemma RemoveStep(tr: Tree, h: Tree, g: Network, before: map<string, Connection>, id: string)
    requires forall k :: k in g.conns ==> k in before && before[k] == g.conns[k]
    ensures var (r, h') := (DropConnection(g, id), Unlinked(h, g, id));
      && r.nodes == g.nodes && r.conns == g.conns - {id}
      && (forall k :: k in r.conns ==> k in before && before[k] == r.conns[k])
      && (Consistent(g) ==> Consistent(r))
      && (Keyed(g.conns) && UnlinkedAll(tr, h, g.nodes, before, g.conns) ==>
            Keyed(r.conns) && UnlinkedAll(tr, h', g.nodes, before, r.conns))
      && (Acyclic(h) && Mirrored(h) ==> Acyclic(h') && Mirrored(h'))
  {
    DropConnectionTable(g, id);
    if Consistent(g) {
      DropConnectionSpec(g, id);
    }
    if Keyed(g.conns) && UnlinkedAll(tr, h, g.nodes, before, g.conns) {
      UnlinkedAllStep(tr, h, g, before, id);
    }
    if Acyclic(h) && Mirrored(h) {
      UnlinkedSpec(h, g, id);
    }
  }

  /** With an empty table, consistent node sets are all empty. */
  lemma EmptyTableEmptySets(g: Network)
    requires g.conns == map[]
    ensures Consistent(g) ==> forall n :: NodeConns(g.nodeConns, n) == {}
  {
    if Consistent(g) {
      forall n ensures NodeConns(g.nodeConns, n) <= g.conns.Keys {
        if n in g.nodeConns {
          assert forall id :: id in g.nodeConns[n] ==> id in g.conns;
        }
      }
    }
  }

  // ------------------------------------------------------------- selection

  /** deselectAllConnections. */
  function DeselectAll(conns: map<string, Connection>): map<string, Connection>
  {
    map k | k in conns :: conns[k].(selected := false)
  }

  /** selectConnection: everything deselected, then the named connection (if any) selected. */
  function Select(conns: map<string, Connection>, id: string): map<string, Connection>
  {
    var d := DeselectAll(conns);
    if id in d then d[id := d[id].(selected := true)] else d
  }

  /**
   * After selectConnection exactly the named connection is selected (none
   * when the id is unknown), and nothing but the flags changes.
   */
  lemma SelectSpec(conns: map<string, Connection>, id: string)
    ensures var r := Select(conns, id);
      && r.Keys == conns.Keys
      && (forall k :: k in r ==> (r[k].selected <==> k == id))
      && (forall k :: k in r ==> r[k].(selected := false) == conns[k].(selected := false))
  {
  }

  // --------------------------------------------- compatible widgets and nodes

  /** getCompatibleWidgetTypes's table: for each node type and direction, the widget types to create. */
  const WidgetsFor: map<string, (seq<string>, seq<string>)> := map[
    "power" := (["powerplants"], ["ship", "craft"]),
    "weapon" := (["missiles"], ["ship", "craft"]),
    "component" := (["factories"], ["ship", "craft", "troops"]),
    "magazine" := (["loadouts"], ["ship", "craft"]),
    "loadout" := (["loadouts"], ["ship", "craft"]),
    "powerplant" := (["powerplants"], ["ship", "craft"]),
    "data" := (["ship", "craft", "troops"], ["factories", "shipyards"]),
    "outfit" := (["ship", "craft"], ["outfit"]),
    "statistics" := (["ship", "craft"], ["statistics"]),
    "ship-class" := (["ship"], ["ship"])
  ]

  /** getCompatibleWidgetTypes: the table entry, or `[]` for a node type it does not list. */
  function CompatibleWidgetTypes(nodeType: string, dir: Direction): (r: seq<string>)
  {
    if nodeType !in WidgetsFor then []
    else if dir == Input then WidgetsFor[nodeType].0
    else WidgetsFor[nodeType].1
  }

  /**
   * The list is empty exactly for node types the table does not list (such
   * as `information`), so a drag from such a node creates no widget.
   */
  lemma CompatibleWidgetTypesSpec(nodeType: string, dir: Direction)
    ensures CompatibleWidgetTypes(nodeType, dir) == [] <==> nodeType !in WidgetsFor
    ensures CompatibleWidgetTypes("information", dir) == []
  {
  }

  /** Whether a node of a new widget can take a connection from the source node. */
  predicate Pairs(source: Node, n: Node)
  {
    n.direction != source.direction && TypesCompatible(source.nodeType, n.nodeType)
  }

  /** findCompatibleNode: the first of the widget's nodes, in order, of the other direction and a compatible type. */
  method FindCompatibleNode(widgetNodes: seq<(string, Node)>, source: Node) returns (r: Option<string>)
    ensures r.None? <==> forall i :: 0 <= i < |widgetNodes| ==> !Pairs(source, widgetNodes[i].1)
    ensures r.Some? ==> exists i :: (0 <= i < |widgetNodes| && widgetNodes[i].0 == r.value
      && Pairs(source, widgetNodes[i].1)
      && forall j :: 0 <= j < i ==> !Pairs(source, widgetNodes[j].1))
  {
    for i := 0 to |widgetNodes|
      invariant forall j :: 0 <= j < i ==> !Pairs(source, widgetNodes[j].1)
    {
      if Pairs(source, widgetNodes[i].1) {
        return Some(widgetNodes[i].0);
      }
    }
    return None;
  }

  // ------------------------------------------------------------ validation

  /** The connections validateConnections reports as errors: those with a missing end. */
  function MissingEnds(g: Network): set<string>
  {
    set id | id in g.conns && (g.conns[id].source !in g.nodes || g.conns[id].target !in g.nodes)
  }

  /**
   * Only stored connections are reported; a table of connections canConnect
   * let through reports none, and a connection whose end has gone is reported.
   */
  lemma MissingEndsSpec(g: Network, id: string)
    ensures MissingEnds(g) <= g.conns.Keys
    ensures AllValid(g) ==> MissingEnds(g) == {}
    ensures id in g.conns && (g.conns[id].source !in g.nodes || g.conns[id].target !in g.nodes) ==> id in MissingEnds(g)
  {
  }

  // ------------------------------------------------------------ serialisation

  /** toJSON: the (source, target) pair of every connection. */
  function Serialize(conns: map<string, Connection>): set<(string, string)>
  {
    set k | k in conns :: (conns[k].source, conns[k].target)
  }

  /** The ids a list of (source, target) pairs would be stored under. */
  function IdsOf(data: seq<(string, string)>): set<string>
  {
    set i | 0 <= i < |data| :: ConnectionId(data[i].0, data[i].1)
  }

  predicate IdsDistinct(data: seq<(string, string)>)
  {
    forall i, j :: 0 <= i < j < |data| ==> ConnectionId(data[i].0, data[i].1) != ConnectionId(data[j].0, data[j].1)
  }

  predicate PairsOk(nodes: map<string, Node>, data: seq<(string, string)>)
  {
    forall i :: 0 <= i < |data| ==> PairOk(nodes, data[i].0, data[i].1)
  }

  /**
   * Any duplicate-free listing of what toJSON gives for a table of valid
   * connections passes every connection rule and carries the table's own
   * ids, each once: fromJSON then rebuilds exactly those ids.
   */
  lemma SerializeListing(g: Network, data: seq<(string, string)>)
    requires AllValid(g)
    requires forall p :: p in data <==> p in Serialize(g.conns)
    requires forall i, j :: 0 <= i < j < |data| ==> data[i] != data[j]
    ensures PairsOk(g.nodes, data) && IdsDistinct(data) && IdsOf(data) == g.conns.Keys
  {
    forall i | 0 <= i < |data| ensures PairOk(g.nodes, data[i].0, data[i].1) {
      assert data[i] in Serialize(g.conns);
      var k :| k in g.conns && data[i] == (g.conns[k].source, g.conns[k].target);
    }
    forall i, j | 0 <= i < j < |data|
      ensures ConnectionId(data[i].0, data[i].1) != ConnectionId(data[j].0, data[j].1)
    {
      assert data[i] in Serialize(g.conns) && data[j] in Serialize(g.conns);
      var ki :| ki in g.conns && data[i] == (g.conns[ki].source, g.conns[ki].target);
      var kj :| kj in g.conns && data[j] == (g.conns[kj].source, g.conns[kj].target);
      assert ki != kj;
    }
    forall k | k in g.conns ensures k in IdsOf(data) {
      var p := (g.conns[k].source, g.conns[k].target);
      assert p in Serialize(g.conns);
      var i :| 0 <= i < |data| && data[i] == p;
    }
    forall x | x in IdsOf(data) ensures x in g.conns {
      var i :| 0 <= i < |data| && x == ConnectionId(data[i].0, data[i].1);
      assert data[i] in Serialize(g.conns);
      var k :| k in g.conns && data[i] == (g.conns[k].source, g.conns[k].target);
    }
  }

  // ------------------------------------------------------------ the node system

  class NodeSystem {
    var nodes: map<string, Node>
    var nodeConnections: map<string, set<string>>
    var connections: map<string, Connection>
    const hierarchy: Hierarchy

    function State(): Network
      reads this
    {
      Network(nodes, nodeConnections, connections)
    }

    /** A node system over the given nodes, each with an empty connection set, and no connections. */
    constructor (initialNodes: map<string, Node>, h: Hierarchy)
      ensures State() == Network(initialNodes, map n | n in initialNodes :: {}, map[])
      ensures Consistent(State())
      ensures hierarchy == h
    {
      nodes := initialNodes;
      nodeConnections := map n | n in initialNodes :: {};
      connections := map[];
      hierarchy := h;
    }

    /** createConnection (callers check canConnect first). */
    method CreateConnection(s: string, t: string)
      modifies this, hierarchy
      ensures State() == AddConnection(old(State()), s, t)
      ensures hierarchy.State() == Linked(old(hierarchy.State()), nodes, s, t)
    {
      var id := ConnectionId(s, t);
      connections := connections[id := Connection(id, s, t, false)];
      nodeConnections := Track(nodes, nodeConnections, s, id);
      nodeConnections := Track(nodes, nodeConnections, t, id);
      AssignHierarchy(s, t);
    }

    /** assignHierarchy, through the corrected addChild. */
    method AssignHierarchy(s: string, t: string)
      modifies hierarchy
      ensures hierarchy.State() == Linked(old(hierarchy.State()), nodes, s, t)
    {
      var pc := ParentChild(nodes, s, t);
      if pc.Some? && pc.value.0 in hierarchy.widgets && pc.value.1 in hierarchy.widgets {
        var _ := hierarchy.AddChild(pc.value.0, Some(pc.value.1));
      }
    }

    /** removeConnection. */
    method RemoveConnection(id: string)
      modifies this, hierarchy
      ensures State() == DropConnection(old(State()), id)
      ensures hierarchy.State() == Unlinked(old(hierarchy.State()), old(State()), id)
    {
      if id !in connections {
        return;
      }
      var c := connections[id];
      nodeConnections := Untrack(nodes, nodeConnections, c.source, id);
      nodeConnections := Untrack(nodes, nodeConnections, c.target, id);
      var pc := ParentChild(nodes, c.source, c.target);
      if pc.Some? && pc.value.0 in hierarchy.widgets && pc.value.1 in hierarchy.widgets {
        var stillLinked := StillLinked(Network(nodes, nodeConnections, connections), id, pc.value.0, pc.value.1);
        if !stillLinked {
          hierarchy.RemoveChild(pc.value.0, Some(pc.value.1));
        }
      }
      connections := connections - {id};
    }

    /**
     * removeNodeConnections: every connection in the node's set is removed;
     * when the table and the sets agree, the node ends with no connections.
     */
    method RemoveNodeConnections(n: string)
      modifies this, hierarchy
      ensures nodes == old(nodes)
      ensures n !in old(nodes) ==> State() == old(State())
      ensures n in old(nodes) ==> connections == old(connections) - NodeConns(old(nodeConnections), n)
      ensures Consistent(old(State())) ==> Consistent(State()) && NodeConns(nodeConnections, n) == {}
      ensures Keyed(old(connections)) ==>
        UnlinkedAll(old(hierarchy.State()), hierarchy.State(), nodes, old(connections), connections)
      ensures Acyclic(old(hierarchy.State())) && Mirrored(old(hierarchy.State())) ==>
        Acyclic(hierarchy.State()) && Mirrored(hierarchy.State())
    {
      ghost var tr := hierarchy.State();
      UnlinkedAllStart(tr, nodes, connections);
      if n !in nodes {
        return;
      }
      var toRemove := NodeConns(nodeConnections, n);
      var rest := toRemove;
      ghost var consistent := Consistent(State());
      ghost var keyed := Keyed(connections);
      ghost var sound := Acyclic(tr) && Mirrored(tr);
      while rest != {}
        invariant nodes == old(nodes) && rest <= toRemove
        invariant connections == old(connections) - (toRemove - rest)
        invariant consistent ==> Consistent(State()) && NodeConns(nodeConnections, n) <= rest
        invariant keyed ==> UnlinkedAll(tr, hierarchy.State(), nodes, old(connections), connections)
        invariant sound ==> Acyclic(hierarchy.State()) && Mirrored(hierarchy.State())
        decreases |rest|
      {
        var id :| id in rest;
        rest := rest - {id};
        ghost var before := State();
        ghost var h := hierarchy.State();
        RemoveConnection(id);
        DropConnectionTable(before, id);
        if consistent {
          DropConnectionSpec(before, id);
        }
        if keyed {
          UnlinkedAllStep(tr, h, before, old(connections), id);
        }
        if sound {
          UnlinkedSpec(h, before, id);
        }
      }
    }

    /** One step of fromJSON: connect the pair if canConnect allows it. */
    method RestoreConnection(s: string, t: string)
      modifies this, hierarchy
      ensures State() == Restore(old(State()), s, t)
      ensures hierarchy.State() ==
        if CanConnect(old(State()), s, t) then Linked(old(hierarchy.State()), nodes, s, t) else old(hierarchy.State())
    {
      if CanConnect(State(), s, t) {
        CreateConnection(s, t);
      }
    }

    /** validateConnections: the ids of the connections with a missing end (warnings are never produced). */
    method ValidateConnections() returns (errors: set<string>)
      ensures errors == MissingEnds(State())
    {
      errors := {};
      var rest := connections.Keys;
      while rest != {}
        invariant rest <= connections.Keys
        invariant errors == MissingEnds(State()) - rest
        decreases |rest|
      {
        var id :| id in rest;
        rest := rest - {id};
        var c := connections[id];
        if c.source !in nodes || c.target !in nodes {
          errors := errors + {id};
        }
      }
    }

    /** selectConnection (with deselectAllConnections). */
    method SelectConnection(id: string)
      modifies this
      ensures connections == Select(old(connections), id)
      ensures nodes == old(nodes) && nodeConnections == old(nodeConnections)
    {
      connections := DeselectAll(connections);
      if id in connections {
        connections := connections[id := connections[id].(selected := true)];
      }
    }

    /**
     * clearAllConnections: every connection is removed; when the table and
     * the sets agree, every node set ends empty.
     */
    method ClearAllConnections()
      modifies this, hierarchy
      ensures connections == map[] && nodes == old(nodes)
      ensures Consistent(old(State())) ==> Consistent(State()) && forall n :: NodeConns(nodeConnections, n) == {}
      ensures Keyed(old(connections)) ==>
        UnlinkedAll(old(hierarchy.State()), hierarchy.State(), nodes, old(connections), map[])
      ensures Acyclic(old(hierarchy.State())) && Mirrored(old(hierarchy.State())) ==>
        Acyclic(hierarchy.State()) && Mirrored(hierarchy.State())
    {
      var rest := connections.Keys;
      ghost var consistent := Consistent(State());
      ghost var tr := hierarchy.State();
      ghost var keyed := Keyed(connections);
      ghost var sound := Acyclic(tr) && Mirrored(tr);
      UnlinkedAllStart(tr, nodes, connections);
      while rest != {}
        invariant nodes == old(nodes) && connections.Keys <= rest
        invariant forall k :: k in connections ==> k in old(connections) && old(connections)[k] == connections[k]
        invariant consistent ==> Consistent(State())
        invariant keyed ==> Keyed(connections) && UnlinkedAll(tr, hierarchy.State(), nodes, old(connections), connections)
        invariant sound ==> Acyclic(hierarchy.State()) && Mirrored(hierarchy.State())
        decreases |rest|
      {
        var id :| id in rest;
        rest := rest - {id};
        ghost var before := State();
        ghost var h := hierarchy.State();
        RemoveConnection(id);
        RemoveStep(tr, h, before, old(connections), id);
      }
      assert connections == map[];
      EmptyTableEmptySets(State());
    }

    /**
     * fromJSON: the table is cleared, then each listed pair that passes
     * canConnect at its turn is connected. Every connection then stored is
     * valid and comes from the list; when every pair passes the rules and
     * the pairs have distinct ids, exactly their ids are stored.
     */
    method FromJSON(data: seq<(string, string)>)
      modifies this, hierarchy
      ensures nodes == old(nodes)
      ensures Consistent(old(State())) ==> Consistent(State())
      ensures AllValid(State()) && connections.Keys <= IdsOf(data)
      ensures PairsOk(nodes, data) && IdsDistinct(data) ==> connections.Keys == IdsOf(data)
      ensures exists cleared: Tree, sets: map<string, set<string>> ::
        RebuiltAfterClear(old(hierarchy.State()), old(connections), cleared, sets, data, hierarchy.State(), State())
      ensures Acyclic(old(hierarchy.State())) && Mirrored(old(hierarchy.State())) ==>
        Acyclic(hierarchy.State()) && Mirrored(hierarchy.State())
    {
      ClearAllConnections();
      ghost var cleared := hierarchy.State();
      ghost var start := State();
      ghost var consistent := Consistent(old(State()));
      ghost var sound := Acyclic(cleared) && Mirrored(cleared);
      for i := 0 to |data|
        invariant nodes == old(nodes)
        invariant consistent ==> Consistent(State())
        invariant AllValid(State())
        invariant connections.Keys <= IdsOf(data[..i])
        invariant PairsOk(nodes, data) && IdsDistinct(data) ==> connections.Keys == IdsOf(data[..i])
        invariant (hierarchy.State(), State()) == Rebuilt(cleared, start, data[..i])
        invariant sound ==> Acyclic(hierarchy.State()) && Mirrored(hierarchy.State())
      {
        ghost var before := State();
        ghost var h := hierarchy.State();
        if sound && CanConnect(before, data[i].0, data[i].1) {
          CanConnectSpec(before, data[i].0, data[i].1);
          LinkedSpec(h, nodes, data[i].0, data[i].1);
        }
        RestoreConnection(data[i].0, data[i].1);
        RestoreStep(before, data, i);
        assert data[..i + 1][..i] == data[..i];
      }
      assert data[..|data|] == data;
      assert start == Network(nodes, start.nodeConns, map[]);
      assert RebuiltAfterClear(old(hierarchy.State()), old(connections), cleared, start.nodeConns, data, hierarchy.State(), State());
    }
  }

  /** fromJSON's step on the table and the sets. */
  function Restore(g: Network, s: string, t: string): Network
  {
    if CanConnect(g, s, t) then AddConnection(g, s, t) else g
  }

  /**
   * fromJSON's rebuild from a cleared hierarchy and table: each listed pair,
   * in order, is connected, and its widgets linked, when canConnect allows it.
   */
  ghost function Rebuilt(tr: Tree, g: Network, data: seq<(string, string)>): (Tree, Network)
    decreases |data|
  {
    if data == [] then (tr, g)
    else
      var (tr1, g1) := Rebuilt(tr, g, data[..|data| - 1]);
      var (s, t) := data[|data| - 1];
      (if CanConnect(g1, s, t) then Linked(tr1, g1.nodes, s, t) else tr1, Restore(g1, s, t))
  }

  /**
   * fromJSON's outcome from the hierarchy `tr` and the table `conns`: the
   * table is cleared (leaving the hierarchy `cleared` and the node sets
   * `sets`), then rebuilt from `data`, ending in `r` and `g`.
   */
  ghost predicate RebuiltAfterClear(tr: Tree, conns: map<string, Connection>, cleared: Tree,
                                    sets: map<string, set<string>>, data: seq<(string, string)>, r: Tree, g: Network)
  {
    && (Keyed(conns) ==> UnlinkedAll(tr, cleared, g.nodes, conns, map[]))
    && (r, g) == Rebuilt(cleared, Network(g.nodes, sets, map[]), data)
  }

  /** One fromJSON step keeps the rebuild's invariants. */
  lemma RestoreStep(g: Network, data: seq<(string, string)>, i: nat)
    requires i < |data| && AllValid(g) && g.conns.Keys <= IdsOf(data[..i])
    ensures var r := Restore(g, data[i].0, data[i].1);
      && r.nodes == g.nodes && AllValid(r)
      && (Consistent(g) ==> Consistent(r))
      && r.conns.Keys <= IdsOf(data[..i + 1])
      && (PairsOk(g.nodes, data) && IdsDistinct(data) && g.conns.Keys == IdsOf(data[..i]) ==>
            r.conns.Keys == IdsOf(data[..i + 1]))
  {
    var (s, t) := data[i];
    assert IdsOf(data[..i + 1]) == IdsOf(data[..i]) + {ConnectionId(s, t)} by {
      assert forall j :: 0 <= j < i ==> data[..i + 1][j] == data[..i][j];
      assert data[..i + 1][i] == data[i];
    }
    FreshPair(g, data, i);
    if CanConnect(g, s, t) {
      if Consistent(g) {
        AddConnectionSpec(g, s, t);
      }
      AddValid(g, s, t);
    }
  }

  /** While fromJSON rebuilds a list of valid pairs with distinct ids, each next pair passes canConnect. */
  lemma FreshPair(g: Network, data: seq<(string, string)>, i: nat)
    requires i < |data|
    ensures PairsOk(g.nodes, data) && IdsDistinct(data) && g.conns.Keys == IdsOf(data[..i]) ==>
      CanConnect(g, data[i].0, data[i].1)
  {
    if PairsOk(g.nodes, data) && IdsDistinct(data) && g.conns.Keys == IdsOf(data[..i]) {
      CanConnectSpec(g, data[i].0, data[i].1);
      forall x | x in IdsOf(data[..i]) ensures x != ConnectionId(data[i].0, data[i].1) {
        var j :| 0 <= j < i && x == ConnectionId(data[..i][j].0, data[..i][j].1);
        assert data[..i][j] == data[j];
      }
    }
  }

  /** Adding a connection canConnect allows keeps every connection valid. */
  lemma AddValid(g: Network, s: string, t: string)
    requires AllValid(g) && CanConnect(g, s, t)
    ensures AllValid(AddConnection(g, s, t))
  {
    ConnectionIdSymmetric(s, t);
  }
}
