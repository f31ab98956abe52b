/**
 * The interactive page around the graph: the click handlers of network8.py and
 * NetworkCharts.py, and the node and cluster dropdowns of NetworkCharts.py.
 * Each handler replaces the rendered highlight state with `Render` of its own
 * arguments, so calling a handler twice leaves the page as calling it once.
 */
module Page {
  import opened Wrappers
  import opened GraphBuild
  import opened Highlight

  /** An `<option>` element: its `value` and its `text`. */
  datatype MenuItem = MenuItem(value: string, text: string)

  function NodeItem(n: Node): MenuItem {
    MenuItem(n.id, n.id)
  }

  /** `opt.value = g; opt.text = "Cluster " + g` */
  function ClusterItem(group: int): MenuItem {
    MenuItem(Decimal(group), "Cluster " + Decimal(group))
  }

  function Groups(nodes: seq<Node>): seq<int> {
    seq(|nodes|, i requires 0 <= i < |nodes| => nodes[i].group)
  }

  /**
   * `[...new Set(xs)]`, with the values in `seen` already in the set: each
   * value once, in the order of its first occurrence.
   */
  function Unique(xs: seq<int>, seen: set<int>): (r: seq<int>)
    ensures Distinct(r)
    ensures forall x :: x in r <==> x in xs && x !in seen
  {
    if xs == [] then []
    else if xs[0] in seen then Unique(xs[1..], seen)
    else [xs[0]] + Unique(xs[1..], seen + {xs[0]})
  }

  /** The index of the first occurrence of x in xs. */
  function FirstIndex(xs: seq<int>, x: int): (k: nat)
    requires x in xs
    ensures k < |xs| && xs[k] == x && x !in xs[..k]
  {
    if xs[0] == x then 0 else 1 + FirstIndex(xs[1..], x)
  }

  /** `Unique` keeps the values in the order in which they first occur. */
  lemma {:induction false} UniqueFollowsFirstOccurrence(xs: seq<int>, seen: set<int>, i: int, j: int)
    requires 0 <= i < j < |Unique(xs, seen)|
    ensures FirstIndex(xs, Unique(xs, seen)[i]) < FirstIndex(xs, Unique(xs, seen)[j])
  {
    var r := Unique(xs, seen);
    if xs[0] in seen {
      UniqueFollowsFirstOccurrence(xs[1..], seen, i, j);
      assert r[i] != xs[0] && r[j] != xs[0];
    } else {
      var rest := Unique(xs[1..], seen + {xs[0]});
      assert r == [xs[0]] + rest;
      if i == 0 {
        assert r[j] != xs[0];
      } else {
        UniqueFollowsFirstOccurrence(xs[1..], seen + {xs[0]}, i - 1, j - 1);
        assert r[i] == rest[i - 1] && r[j] == rest[j - 1];
        assert r[i] != xs[0] && r[j] != xs[0];
      }
    }
  }

  /** The placeholder options the HTML declares. */
  const NodePlaceholder := MenuItem("", "--Select Node--")
  const ClusterPlaceholder := MenuItem("", "--Select Cluster--")

  class Chart {
    const style: HighlightStyle
    const graph: Graph
    /** Whether the page has the two dropdowns (NetworkCharts.py) or not (network8.py). */
    const withMenus: bool

    /** The highlight attributes last set; `None` until the first call of `highlight`. */
    var view: Option<View>
    var nodeMenu: seq<MenuItem>
    var clusterMenu: seq<MenuItem>
    var nodeSelectValue: string
    var clusterSelectValue: string

    ghost predicate Valid() {
      WellFormed(graph)
    }

    constructor (style: HighlightStyle, graph: Graph, withMenus: bool)
      requires WellFormed(graph)
      ensures Valid()
      ensures this.style == style && this.graph == graph && this.withMenus == withMenus
      ensures view == None
      ensures nodeMenu == (if withMenus then [NodePlaceholder] else [])
      ensures clusterMenu == (if withMenus then [ClusterPlaceholder] else [])
      ensures nodeSelectValue == "" && clusterSelectValue == ""
    {
      this.style := style;
      this.graph := graph;
      this.withMenus := withMenus;
      view := None;
      nodeMenu := if withMenus then [NodePlaceholder] else [];
      clusterMenu := if withMenus then [ClusterPlaceholder] else [];
      nodeSelectValue, clusterSelectValue := "", "";
    }

    /** `highlight(sel, arg)` */
    method Highlight(sel: Option<string>, arg: GroupArg)
      requires Valid()
      modifies this`view
      ensures view == Some(Render(style, sel, arg, graph))
    {
      view := Some(Render(style, sel, arg, graph));
    }

    /** The node dropdown gets one option per node, in `graph.nodes` order, value and text the id. */
    method PopulateNodeMenu()
      requires Valid() && withMenus
      modifies this`nodeMenu
      ensures |nodeMenu| == |old(nodeMenu)| + |graph.nodes|
      ensures nodeMenu[..|old(nodeMenu)|] == old(nodeMenu)
      ensures forall i :: 0 <= i < |graph.nodes| ==> nodeMenu[|old(nodeMenu)| + i] == NodeItem(graph.nodes[i])
    {
      var i := 0;
      while i < |graph.nodes|
        invariant 0 <= i <= |graph.nodes|
        invariant |nodeMenu| == |old(nodeMenu)| + i
        invariant nodeMenu[..|old(nodeMenu)|] == old(nodeMenu)
        invariant forall k :: 0 <= k < i ==> nodeMenu[|old(nodeMenu)| + k] == NodeItem(graph.nodes[k])
      {
        nodeMenu := nodeMenu + [NodeItem(graph.nodes[i])];
        i := i + 1;
      }
    }

    /**
     * The cluster dropdown gets one option per distinct group, in first-occurrence
     * order; no two of the new options share a value.
     */
    method PopulateClusterMenu()
      requires Valid() && withMenus
      modifies this`clusterMenu
      ensures var clusters := Unique(Groups(graph.nodes), {});
        && |clusterMenu| == |old(clusterMenu)| + |clusters|
        && clusterMenu[..|old(clusterMenu)|] == old(clusterMenu)
        && forall i :: 0 <= i < |clusters| ==> clusterMenu[|old(clusterMenu)| + i] == ClusterItem(clusters[i])
      ensures forall i, j :: |old(clusterMenu)| <= i < j < |clusterMenu| ==> clusterMenu[i].value != clusterMenu[j].value
    {
      var clusters := Unique(Groups(graph.nodes), {});
      var i := 0;
      while i < |clusters|
        invariant 0 <= i <= |clusters|
        invariant |clusterMenu| == |old(clusterMenu)| + i
        invariant clusterMenu[..|old(clusterMenu)|] == old(clusterMenu)
        invariant forall k :: 0 <= k < i ==> clusterMenu[|old(clusterMenu)| + k] == ClusterItem(clusters[k])
      {
        clusterMenu := clusterMenu + [ClusterItem(clusters[i])];
        i := i + 1;
      }
      ghost var start := |old(clusterMenu)|;
      forall a, b | start <= a < b < |clusterMenu| ensures clusterMenu[a].value != clusterMenu[b].value {
        if clusterMenu[a].value == clusterMenu[b].value {
          DecimalInjective(clusters[a - start], clusters[b - start]);
        }
      }
    }

    /** A node-dropdown change: `highlight(this.value || null, null)`. */
    method OnNodeSelectChange(value: string)
      requires Valid() && withMenus
      modifies this`view, this`nodeSelectValue
      ensures nodeSelectValue == value
      ensures view == Some(Render(style, if value == "" then None else Some(value), Null, graph))
      ensures forall i :: 0 <= i < |graph.nodes| ==>
        view.value.nodes[i] == NodeStyleOf(value == "" || graph.nodes[i].id == value, graph.nodes[i].group)
    {
      nodeSelectValue := value;
      var nodeId := if value == "" then None else Some(value);
      Highlight(nodeId, Null);
      if value == "" {
        NothingSelectedLightsAll(style, nodeId, Null, graph);
      } else {
        IdOnlyLightsIncident(style, graph, value);
      }
    }

    /** A cluster-dropdown change: `highlight(null, this.value || null)` dims nothing. */
    method OnClusterSelectChange(value: string)
      requires Valid() && withMenus
      modifies this`view, this`clusterSelectValue
      ensures clusterSelectValue == value
      ensures view == Some(Render(style, None, if value == "" then Null else Text(value), graph))
      ensures forall i :: 0 <= i < |graph.nodes| ==> view.value.nodes[i] == NodeStyleOf(true, graph.nodes[i].group)
      ensures forall j :: 0 <= j < |graph.links| ==> view.value.links[j] == LinkStyle(6, 0.8)
    {
      clusterSelectValue := value;
      var clusterId := if value == "" then Null else Text(value);
      Highlight(None, clusterId);
      NothingSelectedLightsAll(style, None, clusterId, graph);
    }

    /** A click on node k: `highlight(d.id, d.group)`; the dropdowns keep their values. */
    method OnNodeClick(k: int)
      requires Valid() && 0 <= k < |graph.nodes|
      modifies this`view
      ensures view == Some(Render(style, Some(graph.nodes[k].id), Num(graph.nodes[k].group), graph))
      ensures graph.nodes[k].id != "" ==> forall i :: 0 <= i < |graph.nodes| ==>
        view.value.nodes[i] == NodeStyleOf(graph.nodes[i].group == graph.nodes[k].group, graph.nodes[i].group)
    {
      Highlight(Some(graph.nodes[k].id), Num(graph.nodes[k].group));
      if graph.nodes[k].id != "" {
        NodeClickLightsGroup(style, graph, k);
      }
    }

    /**
     * A click on the page: when it landed on the `<svg>` background itself,
     * `highlight(null, null)` and, on the page with dropdowns, both values reset to `""`.
     */
    method OnSvgClick(targetTag: string)
      requires Valid()
      modifies this`view, this`nodeSelectValue, this`clusterSelectValue
      ensures targetTag != "svg" ==> view == old(view)
      ensures targetTag == "svg" ==> view == Some(Render(style, None, Null, graph))
      ensures targetTag == "svg" ==> forall i :: 0 <= i < |graph.nodes| ==>
        view.value.nodes[i] == NodeStyleOf(true, graph.nodes[i].group)
      ensures targetTag == "svg" ==> forall j :: 0 <= j < |graph.links| ==> view.value.links[j] == LinkStyle(6, 0.8)
      ensures if targetTag == "svg" && withMenus
        then nodeSelectValue == "" && clusterSelectValue == ""
        else nodeSelectValue == old(nodeSelectValue) && clusterSelectValue == old(clusterSelectValue)
    {
      if targetTag == "svg" {
        Highlight(None, Null);
        NothingSelectedLightsAll(style, None, Null, graph);
        if withMenus {
          nodeSelectValue := "";
          clusterSelectValue := "";
        }
      }
    }
  }
}
