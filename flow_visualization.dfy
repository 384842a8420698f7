/** The level and connection analysis the flow diagram runs before it lays nodes out
    (src/components/Management/FlowVisualization.tsx): a breadth-first walk from the root over
    `next` and choice edges, then a added level for every node the walk did not reach. */
module FlowVisualization {
  import opened Wrappers
  import opened Strings
  import opened Types

  datatype ConnectionKind = NextEdge | ChoiceEdge

  /** A drawn arrow; `edgeLabel` is the choice text on a choice edge. */
  datatype Connection = Connection(from: string, to: string, edgeLabel: Option<string>, kind: ConnectionKind)

  /** A queue entry `{ id, level }`. */
  datatype Entry = Entry(id: string, level: nat)

  type Catalog = map<string, ChatNode>
  type Levels = map<string, nat>

  // ---------------------------------------------------------------------------------------------
  // The graph
  // ---------------------------------------------------------------------------------------------

  /** The connections a processed node emits, in order: its `next` edge when `next` is truthy,
      then one edge per choice, labelled with the choice text. */
  function Outgoing(from: string, node: ChatNode): seq<Connection> {
    (if Truthy(node.next) then [Connection(from, node.next.value, None, NextEdge)] else [])
    + ChoiceConnections(from, node.choices)
  }

  function ChoiceConnections(from: string, choices: seq<Choice>): (r: seq<Connection>)
    ensures |r| == |choices|
  {
    if choices == [] then []
    else [Connection(from, choices[0].next, Some(choices[0].text), ChoiceEdge)] + ChoiceConnections(from, choices[1..])
  }

  /** The ids the connections lead to, in order. */
  function Targets(conns: seq<Connection>): (r: seq<string>)
    ensures |r| == |conns|
    ensures forall i :: 0 <= i < |conns| ==> r[i] == conns[i].to
  {
    if conns == [] then [] else [conns[0].to] + Targets(conns[1..])
  }

  /** An edge of the diagram: `u` is in the catalog and one of its connections leads to `v`. */
  predicate Edge(catalog: Catalog, u: string, v: string) {
    u in catalog && v in Targets(Outgoing(u, catalog[u]))
  }

  /** A walk along edges; `p` lists the ids visited, so it has `|p| - 1` hops. */
  predicate IsPath(catalog: Catalog, p: seq<string>) {
    |p| >= 1 && forall i :: 0 <= i < |p| - 1 ==> Edge(catalog, p[i], p[i + 1])
  }

  /** The node the walk starts from: `start` when the catalog has it, else its first id. */
  function Root(nodeIds: seq<string>): (r: string)
    requires nodeIds != []
    ensures r in nodeIds
    ensures r == "start" <==> "start" in nodeIds
    ensures r != "start" ==> r == nodeIds[0]
  {
    if "start" in nodeIds then "start" else nodeIds[0]
  }

  /** The connections of the processed ids, in processing order; an id missing from the catalog
      contributes none. */
  function ConnectionsOf(catalog: Catalog, order: seq<string>): seq<Connection> {
    if order == [] then []
    else
      var u := order[|order| - 1];
      ConnectionsOf(catalog, order[..|order| - 1]) + (if u in catalog then Outgoing(u, catalog[u]) else [])
  }

  // ---------------------------------------------------------------------------------------------
  // What the walk establishes
  // ---------------------------------------------------------------------------------------------

  /** No edge out of a processed id skips a level: its target has a level at most one more. */
  ghost predicate Relaxed(catalog: Catalog, levels: Levels, done: set<string>) {
    forall u, v :: u in done && u in levels && Edge(catalog, u, v) ==> v in levels && levels[v] <= levels[u] + 1
  }

  /** Every levelled id of `s` other than the root was discovered from a processed id one level
      up. */
  ghost predicate Parented(catalog: Catalog, root: string, levels: Levels, s: set<string>, done: set<string>) {
    forall v :: v in s && v in levels && v != root ==>
      exists u :: u in done && u in levels && Edge(catalog, u, v) && levels[v] == levels[u] + 1
  }

  predicate Distinct(order: seq<string>) {
    forall i, j :: 0 <= i < j < |order| ==> order[i] != order[j]
  }

  // ---------------------------------------------------------------------------------------------
  // The walk
  // ---------------------------------------------------------------------------------------------

  /** Queue entries for `ids`, all on level `level`. */
  function Entries(ids: seq<string>, level: nat): (r: seq<Entry>)
    ensures |r| == |ids|
    ensures forall i :: 0 <= i < |ids| ==> r[i] == Entry(ids[i], level)
  {
    if ids == [] then [] else [Entry(ids[0], level)] + Entries(ids[1..], level)
  }

  /** What emitting the connections `conns` of a node on level `level` does: they are appended;
      the ids in `added` had no level, now have `level + 1` and join the queue in that order; no
      other level changes; and every target ends up with a level of at most `level + 1`. */
  ghost predicate Extended(conns: seq<Connection>, level: nat, levels0: Levels, queue0: seq<Entry>, connections0: seq<Connection>,
    levels: Levels, queue: seq<Entry>, connections: seq<Connection>, added: seq<string>)
  {
    connections == connections0 + conns
    && queue == queue0 + Entries(added, level + 1)
    && (forall x :: x in levels0 ==> x in levels && levels[x] == levels0[x])
    && (forall x :: x in levels ==> x in levels0 || (x in added && levels[x] == level + 1 && x in Targets(conns)))
    && (forall x :: x in added ==> x in levels && x !in levels0)
    && (forall x :: x in Targets(conns) ==> x in levels && levels[x] <= level + 1)
  }

  /** The edges of a node on level `level`, emitted one by one as the loop does: each becomes a
      connection, and a target without a level gets `level + 1` and joins the queue. Every level
      present is at most `level + 1`. The ids that joined the queue are returned as `added`. */
  method Discover(conns: seq<Connection>, level: nat, levels0: Levels, queue0: seq<Entry>, connections0: seq<Connection>)
    returns (levels: Levels, queue: seq<Entry>, connections: seq<Connection>, ghost added: seq<string>)
    requires forall x :: x in levels0 ==> levels0[x] <= level + 1
    ensures Extended(conns, level, levels0, queue0, connections0, levels, queue, connections, added)
  {
    levels, queue, connections, added := levels0, queue0, connections0, [];
    var targets := Targets(conns);
    for k := 0 to |conns|
      invariant Discovered(conns, k, level, levels0, queue0, connections0, levels, queue, connections, added)
    {
      var levels1, queue1, connections1, added1 := Emit(conns[k], level, levels, queue, connections, added);
      EmitKeeps(conns, k, level, levels0, queue0, connections0, levels, queue, connections, added,
        levels1, queue1, connections1, added1);
      levels, queue, connections, added := levels1, queue1, connections1, added1;
    }
    DiscoveredAll(conns, level, levels0, queue0, connections0, levels, queue, connections, added);
  }

  /** The state after the first `k` connections. */
  ghost predicate Discovered(conns: seq<Connection>, k: nat, level: nat, levels0: Levels, queue0: seq<Entry>,
    connections0: seq<Connection>, levels: Levels, queue: seq<Entry>, connections: seq<Connection>, added: seq<string>)
  {
    k <= |conns|
    && connections == connections0 + conns[..k]
    && queue == queue0 + Entries(added, level + 1)
    && (forall x :: x in levels0 ==> x in levels && levels[x] == levels0[x])
    && (forall x :: x in levels ==> x in levels0 || (x in added && levels[x] == level + 1 && x in Targets(conns)))
    && (forall x :: x in added ==> x in levels && x !in levels0)
    && (forall j :: 0 <= j < k ==> conns[j].to in levels)
  }

  lemma EmitKeeps(conns: seq<Connection>, k: nat, level: nat, levels0: Levels, queue0: seq<Entry>,
    connections0: seq<Connection>, levels: Levels, queue: seq<Entry>, connections: seq<Connection>, added: seq<string>,
    levels1: Levels, queue1: seq<Entry>, connections1: seq<Connection>, added1: seq<string>)
    requires k < |conns|
    requires Discovered(conns, k, level, levels0, queue0, connections0, levels, queue, connections, added)
    requires connections1 == connections + [conns[k]]
    requires conns[k].to in levels ==> levels1 == levels && queue1 == queue && added1 == added
    requires conns[k].to !in levels ==>
      levels1 == levels[conns[k].to := level + 1]
      && queue1 == queue + [Entry(conns[k].to, level + 1)] && added1 == added + [conns[k].to]
    ensures Discovered(conns, k + 1, level, levels0, queue0, connections0, levels1, queue1, connections1, added1)
  {
    assert conns[..k + 1] == conns[..k] + [conns[k]];
    if conns[k].to in levels {
      EmitKnown(conns, k, level, levels0, queue0, connections0, levels, queue, connections, added, connections1);
    } else {
      EmitNew(conns, k, level, levels0, queue0, connections0, levels, queue, connections, added, connections1);
    }
  }

  lemma EmitKnown(conns: seq<Connection>, k: nat, level: nat, levels0: Levels, queue0: seq<Entry>,
    connections0: seq<Connection>, levels: Levels, queue: seq<Entry>, connections: seq<Connection>, added: seq<string>,
    connections1: seq<Connection>)
    requires k < |conns| && conns[k].to in levels
    requires Discovered(conns, k, level, levels0, queue0, connections0, levels, queue, connections, added)
    requires connections1 == connections0 + conns[..k + 1]
    ensures Discovered(conns, k + 1, level, levels0, queue0, connections0, levels, queue, connections1, added)
  {
  }

  lemma EmitNew(conns: seq<Connection>, k: nat, level: nat, levels0: Levels, queue0: seq<Entry>,
    connections0: seq<Connection>, levels: Levels, queue: seq<Entry>, connections: seq<Connection>, added: seq<string>,
    connections1: seq<Connection>)
    requires k < |conns| && conns[k].to !in levels
    requires Discovered(conns, k, level, levels0, queue0, connections0, levels, queue, connections, added)
    requires connections1 == connections0 + conns[..k + 1]
    ensures var to := conns[k].to;
      Discovered(conns, k + 1, level, levels0, queue0, connections0, levels[to := level + 1],
        queue + [Entry(to, level + 1)], connections1, added + [to])
  {
    var to := conns[k].to;
    assert to in Targets(conns);
    EntriesAppend(added, to, level + 1);
  }

  lemma DiscoveredAll(conns: seq<Connection>, level: nat, levels0: Levels, queue0: seq<Entry>,
    connections0: seq<Connection>, levels: Levels, queue: seq<Entry>, connections: seq<Connection>, added: seq<string>)
    requires forall x :: x in levels0 ==> levels0[x] <= level + 1
    requires Discovered(conns, |conns|, level, levels0, queue0, connections0, levels, queue, connections, added)
    ensures Extended(conns, level, levels0, queue0, connections0, levels, queue, connections, added)
  {
    FullSlice(conns);
  }

  /** One connection: it is recorded, and its target joins the queue on `level + 1` unless it
      already has a level. */
  method Emit(c: Connection, level: nat, levels0: Levels, queue0: seq<Entry>, connections0: seq<Connection>, ghost added0: seq<string>)
    returns (levels: Levels, queue: seq<Entry>, connections: seq<Connection>, ghost added: seq<string>)
    ensures connections == connections0 + [c]
    ensures c.to in levels0 ==> levels == levels0 && queue == queue0 && added == added0
    ensures c.to !in levels0 ==>
      levels == levels0[c.to := level + 1] && queue == queue0 + [Entry(c.to, level + 1)] && added == added0 + [c.to]
  {
    levels, queue, added := levels0, queue0, added0;
    connections := connections0 + [c];
    if c.to !in levels {
      levels := levels[c.to := level + 1];
      queue := queue + [Entry(c.to, level + 1)];
      added := added + [c.to];
    }
  }

  lemma EntriesAppend(ids: seq<string>, id: string, level: nat)
    ensures Entries(ids + [id], level) == Entries(ids, level) + [Entry(id, level)]
  {
  }
  lemma EntriesConcat(a: seq<string>, b: seq<string>, level: nat)
    ensures Entries(a + b, level) == Entries(a, level) + Entries(b, level)
  {
    assert Entries(a + b, level) == Entries(a, level) + Entries(b, level);
  }

  // ---------------------------------------------------------------------------------------------
  // The walk loop
  // ---------------------------------------------------------------------------------------------

  /** Every id the walk can give a level to: the root, the catalog ids and every edge target. */
  ghost function Universe(catalog: Catalog, root: string): set<string> {
    {root} + catalog.Keys + (set u, v | u in catalog && v in Targets(Outgoing(u, catalog[u])) :: v)
  }

  /** The queue holds the ids `now` on level `d` followed by the ids `next` on level `d + 1`;
      every levelled id has been processed or waits in the queue, and processed ids sit no deeper
      than `d`. */
  ghost predicate Frontier(queue: seq<Entry>, now: seq<string>, next: seq<string>, d: nat, levels: Levels, visited: set<string>) {
    queue == Entries(now, d) + Entries(next, d + 1)
    && (forall x :: x in now ==> x in levels && levels[x] == d)
    && (forall x :: x in next ==> x in levels && levels[x] == d + 1)
    && (forall x :: x in levels ==> x in visited || x in now || x in next)
    && (forall x :: x in visited ==> x in levels && levels[x] <= d)
  }

  /** `order` lists the processed ids once each, and the connections are theirs. */
  ghost predicate Processed(catalog: Catalog, visited: set<string>, connections: seq<Connection>, order: seq<string>) {
    Distinct(order) && (forall x :: x in order <==> x in visited) && connections == ConnectionsOf(catalog, order)
  }

  /** The invariant of the walk loop. */
  ghost predicate Walking(catalog: Catalog, root: string, queue: seq<Entry>, now: seq<string>, next: seq<string>, d: nat,
    levels: Levels, visited: set<string>, connections: seq<Connection>, order: seq<string>)
  {
    root in levels && levels[root] == 0 && levels.Keys <= Universe(catalog, root)
    && Frontier(queue, now, next, d, levels, visited)
    && Relaxed(catalog, levels, visited)
    && Parented(catalog, root, levels, levels.Keys, visited)
    && Processed(catalog, visited, connections, order)
  }

  /** The breadth-first walk from `root`: the levels it assigns, the connections it draws, and
      (as `order`) the ids it processes. Every levelled id is processed exactly once, the root is
      on level 0, no edge out of a levelled id skips a level, and every other levelled id was
      discovered from an id one level up. */
  method Walk(catalog: Catalog, root: string) returns (levels: Levels, connections: seq<Connection>, ghost order: seq<string>)
    ensures root in levels && levels[root] == 0
    ensures Distinct(order) && forall x :: x in levels <==> x in order
    ensures connections == ConnectionsOf(catalog, order)
    ensures Relaxed(catalog, levels, levels.Keys)
    ensures Parented(catalog, root, levels, levels.Keys, levels.Keys)
  {
    var queue := [Entry(root, 0)];
    levels := map[root := 0];
    var visited: set<string> := {};
    connections := [];
    order := [];
    ghost var now, next, d := [root], [], 0;
    WalkStarts(catalog, root);
    while queue != []
      invariant Walking(catalog, root, queue, now, next, d, levels, visited, connections, order)
      decreases |Universe(catalog, root) - visited|, |queue|
    {
      queue, levels, connections, visited, order, now, next, d :=
        Visit(catalog, root, queue, levels, connections, visited, order, now, next, d);
    }
    WalkEnds(catalog, root, now, next, d, levels, visited, connections, order);
  }

  lemma WalkStarts(catalog: Catalog, root: string)
    ensures Walking(catalog, root, [Entry(root, 0)], [root], [], 0, map[root := 0], {}, [], [])
  {
    assert Entries([root], 0) + Entries([], 1) == [Entry(root, 0)];
  }

  lemma WalkEnds(catalog: Catalog, root: string, now: seq<string>, next: seq<string>, d: nat,
    levels: Levels, visited: set<string>, connections: seq<Connection>, order: seq<string>)
    requires Walking(catalog, root, [], now, next, d, levels, visited, connections, order)
    ensures root in levels && levels[root] == 0
    ensures Distinct(order) && forall x :: x in levels <==> x in order
    ensures connections == ConnectionsOf(catalog, order)
    ensures Relaxed(catalog, levels, levels.Keys)
    ensures Parented(catalog, root, levels, levels.Keys, levels.Keys)
  {
    assert |Entries(now, d)| == 0 && |Entries(next, d + 1)| == 0;
    assert levels.Keys == visited;
  }

  /** One turn of the walk loop: the head leaves the queue; unless it was processed before, it is
      marked processed and, when the catalog has it, its connections are emitted. */
  method Visit(catalog: Catalog, root: string, queue0: seq<Entry>, levels0: Levels, connections0: seq<Connection>,
    visited0: set<string>, ghost order0: seq<string>, ghost now0: seq<string>, ghost next0: seq<string>, ghost d0: nat)
    returns (queue: seq<Entry>, levels: Levels, connections: seq<Connection>, visited: set<string>,
      ghost order: seq<string>, ghost now: seq<string>, ghost next: seq<string>, ghost d: nat)
    requires queue0 != []
    requires Walking(catalog, root, queue0, now0, next0, d0, levels0, visited0, connections0, order0)
    ensures Walking(catalog, root, queue, now, next, d, levels, visited, connections, order)
    ensures (visited == visited0 && |queue| < |queue0|)
      || |Universe(catalog, root) - visited| < |Universe(catalog, root) - visited0|
  {
    queue, levels, connections, visited, order, now, next, d :=
      queue0, levels0, connections0, visited0, order0, now0, next0, d0;
    if now == [] {
      Advance(queue, next, d, levels, visited);
      now, next, d := next, [], d + 1;
    }
    var head := queue[0];
    Pop(queue, now, next, d, levels, visited);
    if head.id in visited {
      queue := queue[1..];
      now := now[1..];
    } else {
      queue, levels, connections, visited, order, now, next :=
        ProcessHead(catalog, root, queue, levels, connections, visited, order, now, next, d);
    }
  }

  /** One step of the walk on a head id not processed before: its outgoing edges are drawn and
      its new targets queued one level down, and it joins the processed ids. */
  method ProcessHead(catalog: Catalog, root: string, queue0: seq<Entry>, levels0: Levels, connections0: seq<Connection>,
    visited0: set<string>, ghost order0: seq<string>, ghost now0: seq<string>, ghost next0: seq<string>, ghost d: nat)
    returns (queue: seq<Entry>, levels: Levels, connections: seq<Connection>, visited: set<string>,
      ghost order: seq<string>, ghost now: seq<string>, ghost next: seq<string>)
    requires now0 != [] && queue0 != [] && queue0[0].id !in visited0
    requires Walking(catalog, root, queue0, now0, next0, d, levels0, visited0, connections0, order0)
    ensures Walking(catalog, root, queue, now, next, d, levels, visited, connections, order)
    ensures |Universe(catalog, root) - visited| < |Universe(catalog, root) - visited0|
  {
    queue, levels, connections, visited, order, now, next :=
      queue0, levels0, connections0, visited0, order0, now0, next0;
    var head := queue[0];
    Pop(queue, now, next, d, levels, visited);
    Shrinks(Universe(catalog, root), visited, head.id);
    ProcessedStep(catalog, visited, connections, order, head.id);
    if head.id !in catalog {
      queue := queue[1..];
      now := now[1..];
    } else {
      var node := catalog[head.id];
      var levels1, queue1, connections1, added :=
        Discover(Outgoing(head.id, node), head.level, levels, queue[1..], connections);
      VisitQueue(Outgoing(head.id, node), queue, now, next, d, levels, visited, connections, levels1, queue1, connections1, added);
      VisitEdges(catalog, root, head.id, d, levels, visited, Outgoing(head.id, node), queue[1..], connections,
        levels1, queue1, connections1, added);
      levels, queue, connections := levels1, queue1, connections1;
      now, next := now[1..], next + added;
    }
    visited := visited + {head.id};
    order := order + [head.id];
  }

  lemma Shrinks(u: set<string>, v: set<string>, x: string)
    requires x in u && x !in v
    ensures |u - (v + {x})| < |u - v|
  {
    assert u - v == (u - (v + {x})) + {x};
  }

  /** Processing one more id appends its connections. */
  lemma ProcessedStep(catalog: Catalog, visited: set<string>, connections: seq<Connection>, order: seq<string>, u: string)
    requires Processed(catalog, visited, connections, order) && u !in visited
    ensures Processed(catalog, visited + {u}, connections + (if u in catalog then Outgoing(u, catalog[u]) else []), order + [u])
  {
    assert (order + [u])[..|order|] == order;
  }

  /** Once level `d` is exhausted, the walk moves on to level `d + 1`. */
  lemma Advance(queue: seq<Entry>, next: seq<string>, d: nat, levels: Levels, visited: set<string>)
    requires Frontier(queue, [], next, d, levels, visited)
    ensures Frontier(queue, next, [], d + 1, levels, visited)
  {
    assert queue == Entries(next, d + 1);
  }

  /** The head of the queue is the first id of `now`, on level `d`; dropping it (because it was
      processed before, or is processed now without edges) keeps the frontier. */
  lemma Pop(queue: seq<Entry>, now: seq<string>, next: seq<string>, d: nat, levels: Levels, visited: set<string>)
    requires now != [] && Frontier(queue, now, next, d, levels, visited)
    ensures queue != [] && queue[0] == Entry(now[0], d) && queue[1..] == Entries(now[1..], d) + Entries(next, d + 1)
    ensures now[0] in levels && levels[now[0]] == d
    ensures forall x :: x in levels ==> levels[x] <= d + 1
    ensures Frontier(queue[1..], now[1..], next, d, levels, visited + {now[0]})
  {
    assert now == [now[0]] + now[1..];
    EntriesConcat([now[0]], now[1..], d);
  }

  /** Processing an id of the catalog keeps the frontier: its new targets join `next`. */
  lemma VisitQueue(conns: seq<Connection>, queue: seq<Entry>, now: seq<string>, next: seq<string>, d: nat,
    levels: Levels, visited: set<string>, connections: seq<Connection>,
    levels1: Levels, queue1: seq<Entry>, connections1: seq<Connection>, added: seq<string>)
    requires now != [] && Frontier(queue, now, next, d, levels, visited)
    requires queue != [] && queue[1..] == Entries(now[1..], d) + Entries(next, d + 1)
    requires Extended(conns, d, levels, queue[1..], connections, levels1, queue1, connections1, added)
    ensures Frontier(queue1, now[1..], next + added, d, levels1, visited + {now[0]})
  {
    EntriesConcat(next, added, d + 1);
    AppendAssoc(Entries(now[1..], d), Entries(next, d + 1), Entries(added, d + 1));
    VisitLevels(conns, now, next, d, levels, visited, levels1, added);
  }

  lemma AppendAssoc<T>(a: seq<T>, b: seq<T>, c: seq<T>)
    ensures (a + b) + c == a + (b + c)
  {
  }

  lemma VisitLevels(conns: seq<Connection>, now: seq<string>, next: seq<string>, d: nat,
    levels: Levels, visited: set<string>, levels1: Levels, added: seq<string>)
    requires now != []
    requires forall x :: x in now ==> x in levels && levels[x] == d
    requires forall x :: x in next ==> x in levels && levels[x] == d + 1
    requires forall x :: x in levels ==> x in visited || x in now || x in next
    requires forall x :: x in visited ==> x in levels && levels[x] <= d
    requires forall x :: x in levels ==> x in levels1 && levels1[x] == levels[x]
    requires forall x :: x in levels1 ==> x in levels || (x in added && levels1[x] == d + 1 && x in Targets(conns))
    requires forall x :: x in added ==> x in levels1 && x !in levels
    ensures forall x :: x in now[1..] ==> x in levels1 && levels1[x] == d
    ensures forall x :: x in next + added ==> x in levels1 && levels1[x] == d + 1
    ensures forall x :: x in levels1 ==> x in visited + {now[0]} || x in now[1..] || x in next + added
    ensures forall x :: x in visited + {now[0]} ==> x in levels1 && levels1[x] <= d
  {
    assert now == [now[0]] + now[1..];
  }

  /** Processing an id of the catalog keeps the level invariants of the edges. */
  lemma VisitEdges(catalog: Catalog, root: string, u: string, d: nat, levels: Levels, visited: set<string>,
    conns: seq<Connection>, rest: seq<Entry>, connections: seq<Connection>,
    levels1: Levels, queue1: seq<Entry>, connections1: seq<Connection>, added: seq<string>)
    requires u in catalog && conns == Outgoing(u, catalog[u]) && u in levels && levels[u] == d
    requires forall x :: x in visited ==> x in levels
    requires Relaxed(catalog, levels, visited)
    requires Parented(catalog, root, levels, levels.Keys, visited)
    requires levels.Keys <= Universe(catalog, root)
    requires Extended(conns, d, levels, rest, connections, levels1, queue1, connections1, added)
    ensures Relaxed(catalog, levels1, visited + {u})
    ensures Parented(catalog, root, levels1, levels1.Keys, visited + {u})
    ensures levels1.Keys <= Universe(catalog, root)
  {
    var visited1 := visited + {u};
    forall w, v | w in visited1 && w in levels1 && Edge(catalog, w, v)
      ensures v in levels1 && levels1[v] <= levels1[w] + 1
    {
      if w == u {
        assert v in Targets(conns);
      } else {
        assert v in levels && levels[v] <= levels[w] + 1;
      }
    }
    forall v | v in levels1 && v != root
      ensures exists w :: w in visited1 && w in levels1 && Edge(catalog, w, v) && levels1[v] == levels1[w] + 1
    {
      if v in levels {
        var w :| w in visited && w in levels && Edge(catalog, w, v) && levels[v] == levels[w] + 1;
        assert w in visited1 && w in levels1 && levels1[v] == levels1[w] + 1;
      } else {
        assert Edge(catalog, u, v);
      }
    }
    forall v | v in levels1
      ensures v in Universe(catalog, root)
    {
      if v !in levels {
        assert v in Targets(Outgoing(u, catalog[u]));
      }
    }
  }

  // ---------------------------------------------------------------------------------------------
  // Levels are hop counts
  // ---------------------------------------------------------------------------------------------

  /** The levels of `reached` are shortest hop counts from `root`: every walk from the root ends
      in `reached` at a level no larger than its number of hops, and every id of `reached` is the
      end of a walk from the root with exactly its level in hops. */
  ghost predicate HopCounts(catalog: Catalog, root: string, levels: Levels, reached: set<string>) {
    reached <= levels.Keys
    && (forall p :: IsPath(catalog, p) && p[0] == root ==> p[|p| - 1] in reached && levels[p[|p| - 1]] <= |p| - 1)
    && (forall v :: v in reached ==>
          exists p :: IsPath(catalog, p) && p[0] == root && p[|p| - 1] == v && |p| == levels[v] + 1)
  }

  /** What the walk establishes makes its levels the shortest hop counts. */
  lemma WalkHopCounts(catalog: Catalog, root: string, levels: Levels)
    requires root in levels && levels[root] == 0
    requires Relaxed(catalog, levels, levels.Keys)
    requires Parented(catalog, root, levels, levels.Keys, levels.Keys)
    ensures HopCounts(catalog, root, levels, levels.Keys)
  {
    forall p | IsPath(catalog, p) && p[0] == root
      ensures p[|p| - 1] in levels && levels[p[|p| - 1]] <= |p| - 1
    {
      PathBound(catalog, root, levels, p);
    }
    forall v | v in levels
      ensures exists p :: IsPath(catalog, p) && p[0] == root && p[|p| - 1] == v && |p| == levels[v] + 1
    {
      var p := PathTo(catalog, root, levels, v);
    }
  }

  /** No walk from the root reaches an id in fewer hops than its level. */
  lemma {:induction false} PathBound(catalog: Catalog, root: string, levels: Levels, p: seq<string>)
    requires root in levels && levels[root] == 0
    requires Relaxed(catalog, levels, levels.Keys)
    requires IsPath(catalog, p) && p[0] == root
    ensures p[|p| - 1] in levels && levels[p[|p| - 1]] <= |p| - 1
    decreases |p|
  {
    if |p| > 1 {
      var q := p[..|p| - 1];
      forall i | 0 <= i < |q| - 1
        ensures Edge(catalog, q[i], q[i + 1])
      {
        assert q[i] == p[i] && q[i + 1] == p[i + 1];
      }
      PathBound(catalog, root, levels, q);
      assert Edge(catalog, p[|p| - 2], p[|p| - 1]);
    }
  }

  /** Following the discoverers back from `v` gives a walk from the root of `levels[v]` hops. */
  lemma {:induction false} PathTo(catalog: Catalog, root: string, levels: Levels, v: string) returns (p: seq<string>)
    requires root in levels && levels[root] == 0
    requires Parented(catalog, root, levels, levels.Keys, levels.Keys)
    requires v in levels
    ensures IsPath(catalog, p) && p[0] == root && p[|p| - 1] == v && |p| == levels[v] + 1
    decreases levels[v]
  {
    if v == root {
      p := [root];
    } else {
      var u :| u in levels.Keys && u in levels && Edge(catalog, u, v) && levels[v] == levels[u] + 1;
      var q := PathTo(catalog, root, levels, u);
      p := q + [v];
      forall i | 0 <= i < |p| - 1
        ensures Edge(catalog, p[i], p[i + 1])
      {
        if i < |q| - 1 {
          assert p[i] == q[i] && p[i + 1] == q[i + 1];
        }
      }
    }
  }

  /** Adding levels for other ids keeps the hop counts of `reached`. */
  lemma HopCountsKept(catalog: Catalog, root: string, levels0: Levels, levels: Levels, reached: set<string>)
    requires HopCounts(catalog, root, levels0, reached)
    requires forall x :: x in levels0 ==> x in levels && levels[x] == levels0[x]
    ensures HopCounts(catalog, root, levels, reached)
  {
    forall v | v in reached
      ensures exists p :: IsPath(catalog, p) && p[0] == root && p[|p| - 1] == v && |p| == levels[v] + 1
    {
      var p :| IsPath(catalog, p) && p[0] == root && p[|p| - 1] == v && |p| == levels0[v] + 1;
    }
  }

  // ---------------------------------------------------------------------------------------------
  // Unreached nodes
  // ---------------------------------------------------------------------------------------------

  /** The largest level, or -1 when there is none. */
  method MaxLevel(levels: Levels) returns (m: int)
    ensures m >= -1
    ensures forall x :: x in levels ==> levels[x] <= m
    ensures levels == map[] ==> m == -1
    ensures levels != map[] ==> exists x :: x in levels && levels[x] == m
  {
    m := -1;
    var rest := levels.Keys;
    while rest != {}
      invariant rest <= levels.Keys && m >= -1
      invariant forall x :: x in levels && x !in rest ==> levels[x] <= m
      invariant m == -1 || exists x :: x in levels && levels[x] == m
      decreases rest
    {
      var x :| x in rest;
      if levels[x] > m {
        m := levels[x];
      }
      rest := rest - {x};
    }
    if levels != map[] {
      var x :| x in levels;
      assert levels[x] <= m;
    }
  }

  /** The largest level (-1 when there is none), as a function. */
  ghost function Highest(levels: Levels, keys: set<string>): (m: int)
    requires keys <= levels.Keys
    ensures m >= -1
    ensures forall x :: x in keys ==> levels[x] <= m
    ensures keys == {} ==> m == -1
    ensures keys != {} ==> exists x :: x in keys && levels[x] == m
    decreases keys
  {
    if keys == {} then -1
    else
      var x :| x in keys;
      var m := Highest(levels, keys - {x});
      if levels[x] > m then levels[x] else m
  }

  /** The pass over `nodeIds` that gives every id without a level the level one above the
      current highest. The ids it levels are returned, in order, as `unreached`: the first gets
      one above the highest level of `levels0`, each next one more. */
  method AddUnreached(nodeIds: seq<string>, levels0: Levels) returns (levels: Levels, ghost unreached: seq<string>)
    ensures forall x :: x in levels0 ==> x in levels && levels[x] == levels0[x]
    ensures forall x :: x in levels <==> x in levels0 || x in unreached
    ensures forall x :: x in unreached <==> x in nodeIds && x !in levels0
    ensures Distinct(unreached)
    ensures forall k :: 0 <= k < |unreached| ==> levels[unreached[k]] == Highest(levels0, levels0.Keys) + 1 + k
  {
    levels := levels0;
    unreached := [];
    ghost var base := Highest(levels0, levels0.Keys);
    for i := 0 to |nodeIds|
      invariant forall x :: x in levels0 ==> x in levels && levels[x] == levels0[x]
      invariant forall x :: x in levels <==> x in levels0 || x in unreached
      invariant forall x :: x in unreached <==> x in nodeIds[..i] && x !in levels0
      invariant Distinct(unreached)
      invariant forall k :: 0 <= k < |unreached| ==> levels[unreached[k]] == base + 1 + k
    {
      var id := nodeIds[i];
      assert nodeIds[..i + 1] == nodeIds[..i] + [id];
      if id !in levels {
        var m := MaxLevel(levels);
        HighestAfter(levels0, levels, unreached, base, m);
        levels := levels[id := m + 1];
        unreached := unreached + [id];
      }
    }
    assert nodeIds[..|nodeIds|] == nodeIds;
  }

  /** While unreached ids are being added, the highest level is the last one added. */
  lemma HighestAfter(levels0: Levels, levels: Levels, unreached: seq<string>, base: int, m: int)
    requires base == Highest(levels0, levels0.Keys)
    requires forall x :: x in levels0 ==> x in levels && levels[x] == levels0[x]
    requires forall x :: x in levels ==> x in levels0 || x in unreached
    requires forall x :: x in unreached ==> x !in levels0
    requires forall k :: 0 <= k < |unreached| ==> unreached[k] in levels && levels[unreached[k]] == base + 1 + k
    requires forall x :: x in levels ==> levels[x] <= m
    requires levels == map[] ==> m == -1
    requires levels != map[] ==> exists x :: x in levels && levels[x] == m
    ensures m == base + |unreached|
  {
    forall y | y in levels
      ensures levels[y] <= base + |unreached|
    {
      if y !in levels0 {
        var k :| 0 <= k < |unreached| && unreached[k] == y;
      }
    }
    if unreached != [] {
      assert levels[unreached[|unreached| - 1]] == base + |unreached|;
    } else if levels0 != map[] {
      var y :| y in levels0.Keys && levels0[y] == base;
      assert levels[y] == base;
    }
  }

  // ---------------------------------------------------------------------------------------------
  // The analysis
  // ---------------------------------------------------------------------------------------------

  /** The analysis of a catalog whose keys, in `Object.keys` order, are `nodeIds`. An empty
      catalog yields nothing. Otherwise: the walk from the root (`start` when present, else the
      first key) levels exactly the ids `reached`, processing each once in `order` and drawing
      their connections; those levels are shortest hop counts from the root; and the catalog ids
      left over (`unreached`) get consecutive levels starting one above the highest reached
      level, so that every catalog id has a level. */
  method AnalyzeFlow(catalog: Catalog, nodeIds: seq<string>)
    returns (levels: Levels, connections: seq<Connection>,
      ghost reached: set<string>, ghost order: seq<string>, ghost unreached: seq<string>)
    requires forall id :: id in catalog <==> id in nodeIds
    ensures nodeIds == [] ==> levels == map[] && connections == []
    ensures forall x :: x in levels <==> x in reached || x in unreached
    ensures nodeIds != [] ==> Root(nodeIds) in reached && levels[Root(nodeIds)] == 0
    ensures nodeIds != [] ==> HopCounts(catalog, Root(nodeIds), levels, reached)
    ensures Distinct(order) && (forall x :: x in order <==> x in reached)
    ensures connections == ConnectionsOf(catalog, order)
    ensures forall x :: x in unreached <==> x in nodeIds && x !in reached
    ensures Distinct(unreached)
    ensures forall k :: 0 <= k < |unreached| ==> levels[unreached[k]] == Highest(levels, reached) + 1 + k
    ensures forall id :: id in nodeIds ==> id in levels
  {
    if |nodeIds| == 0 {
      return map[], [], {}, [], [];
    }
    var root := Root(nodeIds);
    var found;
    found, connections, order := Walk(catalog, root);
    WalkHopCounts(catalog, root, found);
    reached := found.Keys;
    levels, unreached := AddUnreached(nodeIds, found);
    HopCountsKept(catalog, root, found, levels, reached);
    HighestKept(found, levels, reached);
  }

  /** The highest level over a set of keys depends only on their levels. */
  lemma HighestKept(levels0: Levels, levels: Levels, keys: set<string>)
    requires keys <= levels0.Keys
    requires forall x :: x in levels0 ==> x in levels && levels[x] == levels0[x]
    ensures Highest(levels, keys) == Highest(levels0, keys)
  {
    var a, b := Highest(levels, keys), Highest(levels0, keys);
    if keys != {} {
      var x :| x in keys && levels[x] == a;
      var y :| y in keys && levels0[y] == b;
    }
  }

  // ---------------------------------------------------------------------------------------------
  // Connections
  // ---------------------------------------------------------------------------------------------

  /** A node with a truthy `next` emits one `next` connection to it, followed by one choice
      connection per choice, to the choice's `next` and labelled with its text. */
  lemma OutgoingEdges(from: string, node: ChatNode)
    ensures var r := Outgoing(from, node);
      var k := if Truthy(node.next) then 1 else 0;
      |r| == k + |node.choices|
      && (Truthy(node.next) ==> r[0] == Connection(from, node.next.value, None, NextEdge))
      && forall i :: 0 <= i < |node.choices| ==>
           r[k + i] == Connection(from, node.choices[i].next, Some(node.choices[i].text), ChoiceEdge)
  {
    ChoiceConnectionsAt(from, node.choices);
  }

  lemma {:induction false} ChoiceConnectionsAt(from: string, choices: seq<Choice>)
    ensures forall i :: 0 <= i < |choices| ==>
      ChoiceConnections(from, choices)[i] == Connection(from, choices[i].next, Some(choices[i].text), ChoiceEdge)
  {
    if choices != [] {
      ChoiceConnectionsAt(from, choices[1..]);
    }
  }

  /** Every connection drawn leaves a processed id that the catalog has: an id missing from the
      catalog gets a level but no outgoing connection. */
  lemma {:induction false} ConnectionsFromCatalog(catalog: Catalog, order: seq<string>)
    ensures forall c :: c in ConnectionsOf(catalog, order) ==> c.from in catalog && c.from in order
  {
    if order != [] {
      var u := order[|order| - 1];
      var init := order[..|order| - 1];
      ConnectionsFromCatalog(catalog, init);
      if u in catalog {
        OutgoingEdges(u, catalog[u]);
        forall c | c in Outgoing(u, catalog[u])
          ensures c.from == u
        {
          var node := catalog[u];
          var r := Outgoing(u, node);
          var k := if Truthy(node.next) then 1 else 0;
          var i :| 0 <= i < |r| && r[i] == c;
          if i >= k {
            var j := i - k;
            assert r[k + j] == Connection(u, node.choices[j].next, Some(node.choices[j].text), ChoiceEdge);
          }
        }
      }
      assert forall x :: x in init ==> x in order;
    }
  }
}
