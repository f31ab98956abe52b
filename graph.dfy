/**
 * Turning an edge list (the `source` and `target` columns of a CSV file) into
 * the `{"nodes": [...], "links": [...]}` payload that the scripts hand to the
 * force layout.
 *
 * Two node builders exist in the scripts: the letter-cluster one (network7.py,
 * network8.py, NetworkCharts.py), a loop that indexes the first character of
 * every id, and the constant-group one (network4.py, network5.py), a
 * comprehension that gives every node group 1.
 */
module GraphBuild {
  import opened Wrappers

  /** One row of the CSV file. */
  datatype Row = Row(source: string, target: string)

  datatype Node = Node(id: string, group: int)

  datatype Link = Link(source: string, target: string)

  datatype Graph = Graph(nodes: seq<Node>, links: seq<Link>)

  /** `n[0]` on an empty id raises IndexError. */
  datatype BuildError = EmptyId

  predicate Distinct<T(==)>(s: seq<T>) {
    forall i, j :: 0 <= i < j < |s| ==> s[i] != s[j]
  }

  /** `set(df["source"]).union(set(df["target"]))` */
  function Endpoints(rows: seq<Row>): set<string> {
    (set r | r in rows :: r.source) + (set r | r in rows :: r.target)
  }

  function Ids(nodes: seq<Node>): set<string> {
    set n | n in nodes :: n.id
  }

  /** The ids of the nodes, in node order. */
  function IdList(nodes: seq<Node>): seq<string> {
    seq(|nodes|, i requires 0 <= i < |nodes| => nodes[i].id)
  }

  predicate DistinctIds(nodes: seq<Node>) {
    Distinct(IdList(nodes))
  }

  /** No duplicate node and no dangling link endpoint: what the layout's link force needs. */
  predicate WellFormed(g: Graph) {
    && DistinctIds(g.nodes)
    && forall j :: 0 <= j < |g.links| ==> g.links[j].source in Ids(g.nodes) && g.links[j].target in Ids(g.nodes)
  }

  predicate Incident(links: seq<Link>, id: string) {
    exists j :: 0 <= j < |links| && (links[j].source == id || links[j].target == id)
  }

  /** Every node is an endpoint of some link. */
  predicate NoIsolated(g: Graph) {
    forall i :: 0 <= i < |g.nodes| ==> Incident(g.links, g.nodes[i].id)
  }

  /** What every build promises: the node ids are the endpoints, each once, and one link per row. */
  predicate Assembled(rows: seq<Row>, g: Graph) {
    && Ids(g.nodes) == Endpoints(rows)
    && DistinctIds(g.nodes)
    && g.links == LinksOf(rows)
  }

  /** `str.upper` restricted to ASCII. */
  function Upper(c: char): char {
    if 'a' <= c <= 'z' then (c as int - 32) as char else c
  }

  /** `ord(n[0].upper()) % 10` */
  function Cluster(id: string): (g: int)
    requires id != ""
    ensures 0 <= g <= 9
  {
    (Upper(id[0]) as int) % 10
  }

  /** The group depends only on the first character. */
  lemma ClusterOfFirstChar(a: string, b: string)
    requires a != "" && b != "" && a[0] == b[0]
    ensures Cluster(a) == Cluster(b)
  {
  }

  /** Ids whose first letters differ only in case share a group. */
  lemma ClusterIgnoresCase(a: string, b: string)
    requires a != "" && b != ""
    requires 'a' <= a[0] <= 'z' && b[0] as int == a[0] as int - 32
    ensures Cluster(a) == Cluster(b)
  {
  }

  /** The link comprehension: one link per row, in row order, endpoints copied unchanged. */
  function LinksOf(rows: seq<Row>): (links: seq<Link>)
    ensures |links| == |rows|
    ensures forall j :: 0 <= j < |rows| ==> links[j].source == rows[j].source && links[j].target == rows[j].target
  {
    if rows == [] then [] else [Link(rows[0].source, rows[0].target)] + LinksOf(rows[1..])
  }

  /** `list(...)` of a set: every element once, in an order the set chooses. */
  method EnumerateIds(ids: set<string>) returns (s: seq<string>)
    ensures Distinct(s)
    ensures forall x :: x in s <==> x in ids
  {
    s := [];
    var rest := ids;
    while rest != {}
      invariant rest <= ids
      invariant Distinct(s)
      invariant forall x :: x in s <==> x in ids && x !in rest
      decreases rest
    {
      var x :| x in rest;
      s := s + [x];
      rest := rest - {x};
    }
  }

  lemma {:induction false} EndpointIsIncident(rows: seq<Row>, id: string)
    requires id in Endpoints(rows)
    ensures Incident(LinksOf(rows), id)
  {
    var r :| r in rows && (r.source == id || r.target == id);
    var j :| 0 <= j < |rows| && rows[j] == r;
    assert LinksOf(rows)[j].source == id || LinksOf(rows)[j].target == id;
  }

  /** An assembled graph is well formed and has no isolated node. */
  lemma {:induction false} AssembledIsWellFormed(rows: seq<Row>, g: Graph)
    requires Assembled(rows, g)
    ensures WellFormed(g) && NoIsolated(g)
  {
    forall j | 0 <= j < |g.links|
      ensures g.links[j].source in Ids(g.nodes) && g.links[j].target in Ids(g.nodes)
    {
      assert rows[j].source in Endpoints(rows) && rows[j].target in Endpoints(rows);
    }
    forall i | 0 <= i < |g.nodes|
      ensures Incident(g.links, g.nodes[i].id)
    {
      assert g.nodes[i].id in Ids(g.nodes);
      EndpointIsIncident(rows, g.nodes[i].id);
    }
  }

  /**
   * The letter-cluster build: `for n in node_ids: nodes.append({"id": n, "group": ord(n[0].upper()) % 10})`.
   * It fails exactly when some endpoint is the empty string.
   */
  method BuildClusteredGraph(rows: seq<Row>) returns (r: Result<Graph, BuildError>)
    ensures r.Failure? <==> "" in Endpoints(rows)
    ensures r.Success? ==> Assembled(rows, r.value) && WellFormed(r.value) && NoIsolated(r.value)
    ensures r.Success? ==> forall n :: n in r.value.nodes ==> n.id != "" && n.group == Cluster(n.id) && 0 <= n.group <= 9
  {
    var ids := EnumerateIds(Endpoints(rows));
    var nodes: seq<Node> := [];
    var i := 0;
    while i < |ids|
      invariant 0 <= i <= |ids|
      invariant |nodes| == i
      invariant forall k :: 0 <= k < i ==> ids[k] != "" && nodes[k] == Node(ids[k], Cluster(ids[k]))
    {
      if ids[i] == "" {
        return Failure(EmptyId);
      }
      nodes := nodes + [Node(ids[i], Cluster(ids[i]))];
      i := i + 1;
    }
    assert Ids(nodes) == Endpoints(rows) by {
      forall x | x in Endpoints(rows) ensures x in Ids(nodes) {
        var k :| 0 <= k < |ids| && ids[k] == x;
        assert nodes[k].id == x;
      }
    }
    var g := Graph(nodes, LinksOf(rows));
    AssembledIsWellFormed(rows, g);
    r := Success(g);
  }

  /** `[{"id": n, "group": group} for n in ids]` */
  function ConstantNodes(ids: seq<string>, group: int): seq<Node> {
    seq(|ids|, i requires 0 <= i < |ids| => Node(ids[i], group))
  }

  /** The constant-group build of network4.py and network5.py; it cannot fail. */
  method BuildConstantGraph(rows: seq<Row>, group: int) returns (g: Graph)
    ensures Assembled(rows, g) && WellFormed(g) && NoIsolated(g)
    ensures forall n :: n in g.nodes ==> n.group == group
  {
    var ids := EnumerateIds(Endpoints(rows));
    g := Graph(ConstantNodes(ids, group), LinksOf(rows));
    assert Ids(g.nodes) == Endpoints(rows) by {
      forall x | x in Endpoints(rows) ensures x in Ids(g.nodes) {
        var k :| 0 <= k < |ids| && ids[k] == x;
        assert g.nodes[k].id == x;
      }
    }
    AssembledIsWellFormed(rows, g);
  }
}
