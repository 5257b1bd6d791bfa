/**
 * The relationship view (src/components/server-relationship-view.tsx):
 * dependency edges inferred from `waitFor` and `readyWhen.http.url`, and
 * the three-column grid the server cards are laid out on.
 */
module RelationshipView {
  import opened Wrappers
  import opened McpConfig

  datatype EdgeKind = Wait | Http

  /** An edge of the graph; `kind` stands for the edge's label. */
  datatype Edge = Edge(source: string, target: string, kind: EdgeKind) {
    /** The edge's id: `source-target` for a wait edge, `source-target-http` for an HTTP edge. */
    function Id(): (id: string)
      ensures |id| == |source| + |target| + (if kind == Wait then 1 else 6)
      ensures source + "-" <= id
      ensures id[|source| + 1..|source| + 1 + |target|] == target
      ensures kind == Http ==> id[|id| - 5..] == "-http"
    {
      if kind == Wait then source + "-" + target else source + "-" + target + "-http"
    }
  }

  /** Ids are not unique: a wait edge to a server named `b-http` has the id of the HTTP edge to `b`. */
  lemma IdsCollide()
    ensures Edge("a", "b-http", Wait).Id() == Edge("a", "b", Http).Id()
  {
  }

  /** A server card: its name and its position on the canvas. */
  datatype Node = Node(id: string, x: int, y: int)

  // ---------------------------------------------------------------------
  // Edge inference.
  // ---------------------------------------------------------------------

  /** `url.includes(t)`: `t` occurs somewhere in `url` (the empty string occurs everywhere). */
  predicate Contains(url: string, t: string)
    ensures t <= url ==> Contains(url, t)
    ensures Contains(url, t) ==> |t| <= |url|
  {
    assert url[0..] == url;
    exists i :: 0 <= i <= |url| && t <= url[i..]
  }

  /** The URL of `readyWhen.http`, when `readyWhen`, `http` and `url` are all present. */
  function HttpUrl(e: Entry): (u: Option<string>)
    ensures u.Some? <==> e.readyWhen.Some? && e.readyWhen.value.http.Some? && e.readyWhen.value.http.value.url.Some?
  {
    if e.readyWhen.Some? && e.readyWhen.value.http.Some? then e.readyWhen.value.http.value.url else None
  }

  function WaitEdge(s: string, t: string): Edge {
    Edge(s, t, Wait)
  }

  function HttpEdge(s: string, t: string): Edge {
    Edge(s, t, Http)
  }

  /** The `waitFor` items that are server names, in order, repeats kept. */
  function Known(ws: seq<string>, names: seq<string>): (ks: seq<string>)
    ensures |ks| <= |ws|
    ensures forall t :: t in ks <==> t in ws && t in names
    ensures forall t :: multiset(ks)[t] == if t in names then multiset(ws)[t] else 0
  {
    if ws == [] then []
    else
      var init, last := ws[..|ws| - 1], ws[|ws| - 1];
      assert ws == init + [last];
      Known(init, names) + (if last in names then [last] else [])
  }

  /** The wait edges from `s` for the items `ws`. */
  function WaitEdges(s: string, ws: seq<string>, names: seq<string>): (r: seq<Edge>)
    ensures |r| <= |ws|
    ensures forall e :: e in r ==> e.source == s && e.kind == Wait && e.target in ws && e.target in names
  {
    if ws == [] then []
    else WaitEdges(s, ws[..|ws| - 1], names) + (if ws[|ws| - 1] in names then [WaitEdge(s, ws[|ws| - 1])] else [])
  }

  /** The HTTP edges from `s` to those of `targets` other than `s` that occur in `url`. */
  function HttpEdges(s: string, url: string, targets: seq<string>): (r: seq<Edge>)
    ensures |r| <= |targets|
    ensures forall e :: e in r ==> e.source == s && e.kind == Http && e.target in targets && e.target != s
  {
    if targets == [] then []
    else
      var t := targets[|targets| - 1];
      HttpEdges(s, url, targets[..|targets| - 1]) + (if s != t && Contains(url, t) then [HttpEdge(s, t)] else [])
  }

  /** The edges one source contributes: its wait edges, then its HTTP edges. */
  function EdgesFrom(s: string, e: Entry, names: seq<string>): seq<Edge> {
    WaitEdges(s, e.waitFor.GetOr([]), names)
    + (if HttpUrl(e).Some? then HttpEdges(s, HttpUrl(e).value, names) else [])
  }

  /** The edges of the first `k` sources, in the order `analyzeDependencies` pushes them. */
  function EdgesUpTo(names: seq<string>, configs: map<string, Entry>, k: nat): (r: seq<Edge>)
    requires k <= |names|
    requires forall n :: n in names ==> n in configs
    ensures forall e :: e in r ==> e.source in names && e.target in names
  {
    if k == 0 then []
    else EdgesUpTo(names, configs, k - 1) + EdgesFrom(names[k - 1], configs[names[k - 1]], names)
  }

  /** Every edge `analyzeDependencies` produces for the servers `names`. */
  function InferEdges(names: seq<string>, configs: map<string, Entry>): (r: seq<Edge>)
    requires forall n :: n in names ==> n in configs
    ensures forall e :: e in r ==> e.source in names && e.target in names
  {
    EdgesUpTo(names, configs, |names|)
  }

  /** When `e` is an edge from the server `s`, whose entry is `c`, independently of the order of the loops. */
  predicate FromEntry(e: Edge, s: string, c: Entry, names: seq<string>) {
    && e.source == s && e.target in names
    && match e.kind
       case Wait => e.target in c.waitFor.GetOr([])
       case Http => s != e.target && HttpUrl(c).Some? && Contains(HttpUrl(c).value, e.target)
  }

  /** When an edge belongs in the graph of the servers `names`. */
  predicate Inferred(e: Edge, names: seq<string>, configs: map<string, Entry>)
    requires forall n :: n in names ==> n in configs
  {
    e.source in names && FromEntry(e, e.source, configs[e.source], names)
  }

  /** `analyzeDependencies`' inner `waitFor` loop, pushing onto `edges`. */
  method PushWaitEdges(edges: seq<Edge>, s: string, ws: seq<string>, names: seq<string>) returns (r: seq<Edge>)
    ensures r == edges + WaitEdges(s, ws, names)
  {
    r := edges;
    var j := 0;
    while j < |ws|
      invariant 0 <= j <= |ws|
      invariant r == edges + WaitEdges(s, ws[..j], names)
    {
      assert ws[..j + 1][..j] == ws[..j];
      if ws[j] in names {
        r := r + [WaitEdge(s, ws[j])];
      }
      j := j + 1;
    }
    assert ws[..|ws|] == ws;
  }

  /** `analyzeDependencies`' inner `readyWhen` loop, pushing onto `edges`. */
  method PushHttpEdges(edges: seq<Edge>, s: string, url: string, names: seq<string>) returns (r: seq<Edge>)
    ensures r == edges + HttpEdges(s, url, names)
  {
    r := edges;
    var j := 0;
    while j < |names|
      invariant 0 <= j <= |names|
      invariant r == edges + HttpEdges(s, url, names[..j])
    {
      assert names[..j + 1][..j] == names[..j];
      if s != names[j] && Contains(url, names[j]) {
        r := r + [HttpEdge(s, names[j])];
      }
      j := j + 1;
    }
    assert names[..|names|] == names;
  }

  /** `analyzeDependencies`: a fresh edge list built source by source. */
  method AnalyzeDependencies(names: seq<string>, configs: map<string, Entry>) returns (edges: seq<Edge>)
    requires forall n :: n in names ==> n in configs
    ensures edges == InferEdges(names, configs)
  {
    edges := [];
    var i := 0;
    while i < |names|
      invariant 0 <= i <= |names|
      invariant edges == EdgesUpTo(names, configs, i)
    {
      var source := names[i];
      var config := configs[source];
      ghost var before := edges;
      if config.waitFor.Some? {
        edges := PushWaitEdges(edges, source, config.waitFor.value, names);
      }
      if config.readyWhen.Some? && config.readyWhen.value.http.Some? {
        var url := config.readyWhen.value.http.value.url;
        if url.Some? {
          edges := PushHttpEdges(edges, source, url.value, names);
        }
      }
      assert edges == before + EdgesFrom(source, config, names);
      i := i + 1;
    }
  }

  /** The wait edges from `s` are one per known `waitFor` item, in the items' order, repeats kept. */
  lemma {:induction false} WaitEdgesFollowKnownItems(s: string, ws: seq<string>, names: seq<string>)
    ensures |WaitEdges(s, ws, names)| == |Known(ws, names)|
    ensures forall k :: 0 <= k < |Known(ws, names)| ==> WaitEdges(s, ws, names)[k] == WaitEdge(s, Known(ws, names)[k])
  {
    if ws != [] {
      WaitEdgesFollowKnownItems(s, ws[..|ws| - 1], names);
    }
  }

  lemma {:induction false} WaitEdgesMembership(s: string, ws: seq<string>, names: seq<string>, e: Edge)
    ensures e in WaitEdges(s, ws, names) <==> e == WaitEdge(s, e.target) && e.target in ws && e.target in names
  {
    if ws != [] {
      var ws' := ws[..|ws| - 1];
      WaitEdgesMembership(s, ws', names, e);
      assert ws == ws' + [ws[|ws| - 1]];
    }
  }

  lemma {:induction false} HttpEdgesMembership(s: string, url: string, targets: seq<string>, e: Edge)
    ensures e in HttpEdges(s, url, targets) <==>
      e == HttpEdge(s, e.target) && e.target in targets && e.target != s && Contains(url, e.target)
  {
    if targets != [] {
      var ts := targets[..|targets| - 1];
      HttpEdgesMembership(s, url, ts, e);
      assert targets == ts + [targets[|targets| - 1]];
    }
  }

  lemma EdgesFromMembership(s: string, c: Entry, names: seq<string>, e: Edge)
    ensures e in EdgesFrom(s, c, names) <==> FromEntry(e, s, c, names)
  {
    WaitEdgesMembership(s, c.waitFor.GetOr([]), names, e);
    if HttpUrl(c).Some? {
      HttpEdgesMembership(s, HttpUrl(c).value, names, e);
    }
  }

  /** Every edge of the first `k` sources comes from one of them and meets its source's condition. */
  lemma {:induction false} EdgesUpToSound(names: seq<string>, configs: map<string, Entry>, k: nat, e: Edge)
    requires k <= |names|
    requires forall n :: n in names ==> n in configs
    requires e in EdgesUpTo(names, configs, k)
    ensures e.source in names[..k] && FromEntry(e, e.source, configs[e.source], names)
  {
    var s := names[k - 1];
    var prev := EdgesUpTo(names, configs, k - 1);
    assert EdgesUpTo(names, configs, k) == prev + EdgesFrom(s, configs[s], names);
    assert names[..k] == names[..k - 1] + [s];
    if e in prev {
      EdgesUpToSound(names, configs, k - 1, e);
    } else {
      EdgesFromMembership(s, configs[s], names, e);
    }
  }

  /** Every edge that meets the condition of one of the first `k` sources is among their edges. */
  lemma {:induction false} EdgesUpToComplete(names: seq<string>, configs: map<string, Entry>, k: nat, e: Edge)
    requires k <= |names|
    requires forall n :: n in names ==> n in configs
    requires e.source in names[..k] && FromEntry(e, e.source, configs[e.source], names)
    ensures e in EdgesUpTo(names, configs, k)
  {
    var s := names[k - 1];
    var prev := EdgesUpTo(names, configs, k - 1);
    assert EdgesUpTo(names, configs, k) == prev + EdgesFrom(s, configs[s], names);
    assert names[..k] == names[..k - 1] + [s];
    if e.source == s {
      EdgesFromMembership(s, configs[s], names, e);
    } else {
      EdgesUpToComplete(names, configs, k - 1, e);
    }
  }

  /**
   * An edge is inferred exactly when it joins two servers and either the
   * target is in the source's `waitFor`, or it is another server whose
   * name occurs in the source's `readyWhen.http.url`.
   */
  lemma InferredEdgesExactly(names: seq<string>, configs: map<string, Entry>, e: Edge)
    requires forall n :: n in names ==> n in configs
    ensures e in InferEdges(names, configs) <==> Inferred(e, names, configs)
  {
    assert names[..|names|] == names;
    if e in InferEdges(names, configs) {
      EdgesUpToSound(names, configs, |names|, e);
    }
    if Inferred(e, names, configs) {
      EdgesUpToComplete(names, configs, |names|, e);
    }
  }

  /** No HTTP edge starts and ends at the same server. */
  lemma NoHttpSelfEdges(names: seq<string>, configs: map<string, Entry>, s: string)
    requires forall n :: n in names ==> n in configs
    ensures HttpEdge(s, s) !in InferEdges(names, configs)
  {
    InferredEdgesExactly(names, configs, HttpEdge(s, s));
  }

  /** A server without `readyWhen.http.url` is the source of no HTTP edge. */
  lemma NoHttpEdgesWithoutUrl(names: seq<string>, configs: map<string, Entry>, s: string, t: string)
    requires forall n :: n in names ==> n in configs
    requires s in configs && HttpUrl(configs[s]).None?
    ensures HttpEdge(s, t) !in InferEdges(names, configs)
  {
    InferredEdgesExactly(names, configs, HttpEdge(s, t));
  }

  // ---------------------------------------------------------------------
  // Layout.
  // ---------------------------------------------------------------------

  /** The grid slot of card `i`: three columns 400 apart, rows 300 apart. */
  function Position(i: nat): (p: (int, int))
    ensures p.0 in {0, 400, 800} && p.1 >= 0 && p.1 % 300 == 0
  {
    ((i % 3) * 400, (i / 3) * 300)
  }

  /** Distinct cards get distinct slots. */
  lemma PositionInjective(i: nat, j: nat)
    requires i != j
    ensures Position(i) != Position(j)
  {
  }

  /** `initialNodes`: one card per server name, on its grid slot. */
  function InitialNodes(names: seq<string>): (ns: seq<Node>)
    ensures |ns| == |names|
    ensures forall i :: 0 <= i < |ns| ==> ns[i].id == names[i] && (ns[i].x, ns[i].y) == Position(i)
  {
    seq(|names|, i requires 0 <= i < |names| => Node(names[i], Position(i).0, Position(i).1))
  }

  /** `resetLayout`: every card back on the slot of its index. */
  function Relaid(nodes: seq<Node>): (ns: seq<Node>)
    ensures |ns| == |nodes|
    ensures forall i :: 0 <= i < |ns| ==> ns[i].id == nodes[i].id && (ns[i].x, ns[i].y) == Position(i)
  {
    seq(|nodes|, i requires 0 <= i < |nodes| => nodes[i].(x := Position(i).0, y := Position(i).1))
  }

  /** Resetting the initial layout reproduces it, and resetting twice is resetting once. */
  lemma ResetRestoresInitialLayout(names: seq<string>, nodes: seq<Node>)
    ensures Relaid(InitialNodes(names)) == InitialNodes(names)
    ensures Relaid(Relaid(nodes)) == Relaid(nodes)
  {
  }

  /** The view's node and edge state. */
  class View {
    var nodes: seq<Node>
    var edges: seq<Edge>

    /** The cards start on the grid and there are no edges. */
    constructor (names: seq<string>)
      ensures nodes == InitialNodes(names) && edges == []
    {
      nodes := InitialNodes(names);
      edges := [];
    }

    /** The "reset layout" button. */
    method ResetLayout()
      modifies this`nodes
      ensures nodes == Relaid(old(nodes))
    {
      nodes := Relaid(nodes);
    }

    /** The "analyse dependencies" button: the previous edges are replaced, not extended. */
    method Analyze(names: seq<string>, configs: map<string, Entry>)
      requires forall n :: n in names ==> n in configs
      modifies this`edges
      ensures edges == InferEdges(names, configs)
    {
      edges := AnalyzeDependencies(names, configs);
    }
  }
}
