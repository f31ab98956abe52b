/**
 * The per-script settings of the shared modules, and the inline graph of
 * network3.py.
 *
 *   script            node build      highlight            resting alphaTarget
 *   network3.py       inline graph    none                 0
 *   network4.py       group 1         none                 0
 *   network5.py       group 1         none                 0
 *   network7.py       letter cluster  none                 0
 *   network8.py       letter cluster  `===`, dim width 1   0
 *   NetworkCharts.py  letter cluster  `==`,  dim width 3   0.05, with dropdowns
 *
 * "group 1" is BuildConstantGraph with group 1; "letter cluster" is BuildClusteredGraph.
 */
module Scripts {
  import opened GraphBuild
  import opened Highlight
  import opened Drag

  const Network8Style := HighlightStyle(Strict, 1)
  const NetworkChartsStyle := HighlightStyle(Loose, 3)

  /** NetworkCharts.py sets this target at construction; the other scripts keep the layout's default 0. */
  const NetworkChartsResting := 0.05

  /** A lit link is 6 wide in both scripts; a dimmed one is 1 wide in network8.py and 3 in NetworkCharts.py. */
  lemma DimmedLinkWidths()
    ensures LinkStyleOf(Network8Style, true) == LinkStyleOf(NetworkChartsStyle, true) == LinkStyle(6, 0.8)
    ensures LinkStyleOf(Network8Style, false) == LinkStyle(1, 0.05)
    ensures LinkStyleOf(NetworkChartsStyle, false) == LinkStyle(3, 0.05)
  {
  }

  /**
   * One drag gesture on a NetworkCharts.py node, with no other gesture active:
   * pressed at (x, y), moved to (px, py), released there. During the move the
   * node is pinned at the pointer with target 0.3; afterwards it is free and the
   * target is back at 0.05, not 0.
   */
  method NetworkChartsDragGesture(x: real, y: real, px: real, py: real)
    returns (targetDuring: real, pinDuring: (real, real), targetAfter: real, pinnedAfter: bool)
    ensures targetDuring == 0.3 && pinDuring == (px, py)
    ensures targetAfter == NetworkChartsResting && !pinnedAfter
  {
    var sim := new Simulation(NetworkChartsResting);
    var d := new SimNode("A", 5, x, y);
    DragStarted(sim, DragEvent(0, x, y), d);
    Dragged(DragEvent(0, px, py), d);
    targetDuring, pinDuring := sim.alphaTarget, (d.fx.value, d.fy.value);
    DragEnded(sim, DragEvent(0, px, py), d);
    targetAfter, pinnedAfter := sim.alphaTarget, d.Pinned();
  }

  /** The graph network3.py writes out by hand. */
  function InlineGraph(): Graph {
    Graph(
      [Node("A", 1), Node("B", 1), Node("C", 2), Node("D", 2), Node("E", 3)],
      [Link("A", "B"), Link("A", "C"), Link("B", "D"), Link("C", "D"), Link("D", "E")])
  }

  /** The declared ids are exactly A to E. */
  lemma InlineIds()
    ensures Ids(InlineGraph().nodes) == {"A", "B", "C", "D", "E"}
  {
    var g := InlineGraph();
    assert g.nodes[0].id == "A" && g.nodes[1].id == "B" && g.nodes[2].id == "C";
    assert g.nodes[3].id == "D" && g.nodes[4].id == "E";
  }

  /** The five ids are distinct, every link names declared nodes, and every node has a link. */
  lemma InlineGraphIsWellFormed()
    ensures WellFormed(InlineGraph()) && NoIsolated(InlineGraph())
    ensures Ids(InlineGraph().nodes) == {"A", "B", "C", "D", "E"}
  {
    var g := InlineGraph();
    InlineIds();
    assert DistinctIds(g.nodes) by {
      forall i, j | 0 <= i < j < |g.nodes| ensures g.nodes[i].id != g.nodes[j].id {
        assert g.nodes[i].id[0] != g.nodes[j].id[0];
      }
    }
    assert Incident(g.links, "A") by { assert g.links[0].source == "A"; }
    assert Incident(g.links, "B") by { assert g.links[0].target == "B"; }
    assert Incident(g.links, "C") by { assert g.links[1].target == "C"; }
    assert Incident(g.links, "D") by { assert g.links[2].target == "D"; }
    assert Incident(g.links, "E") by { assert g.links[4].target == "E"; }
  }

  /** The groups used are exactly 1, 2 and 3. */
  lemma InlineGroups()
    ensures (set n | n in InlineGraph().nodes :: n.group) == {1, 2, 3}
  {
    var g := InlineGraph();
    assert g.nodes[0].group == 1 && g.nodes[2].group == 2 && g.nodes[4].group == 3;
  }
}
