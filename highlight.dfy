/**
 * The selection rule of `highlight(selectionNode, selectionGroup)` and the
 * attributes it gives every node circle, node label and link line.
 *
 * A node is lit iff there is no node selection, or its id is the selected id,
 * or its group equals the selected group. A link is lit iff the same test
 * holds of its source or of its target node. The result depends on the
 * arguments only, never on what was shown before.
 */
module Highlight {
  import opened Wrappers
  import opened GraphBuild

  /** network8.py compares groups with `===`, NetworkCharts.py with `==`. */
  datatype Equality = Strict | Loose

  /**
   * The `selectionGroup` argument: `null`, a number (a node's group), or a
   * string (a dropdown option's value).
   */
  datatype GroupArg = Null | Num(n: int) | Text(s: string)

  /** The per-script constants of the rule: the equality and the width of a dimmed link. */
  datatype HighlightStyle = HighlightStyle(equality: Equality, dimLinkWidth: int)

  /** The circle fill: the group's palette colour, or grey `#555`. */
  datatype Fill = GroupColour(group: int) | Grey

  datatype NodeStyle = NodeStyle(radius: int, fill: Fill, opacity: real, labelOpacity: real)

  datatype LinkStyle = LinkStyle(width: int, opacity: real)

  /** The attributes of every node (in `graph.nodes` order) and every link (in `graph.links` order). */
  datatype View = View(nodes: seq<NodeStyle>, links: seq<LinkStyle>)

  function Digit(d: nat): char
    requires d < 10
  {
    ('0' as int + d) as char
  }

  /** A number written in decimal, as JavaScript's `String(n)` writes an integer. */
  function Decimal(n: int): (s: string)
    ensures s != []
    decreases if n < 0 then -n + 1 else n
  {
    if n < 0 then "-" + Decimal(-n)
    else if n < 10 then [Digit(n)]
    else Decimal(n / 10) + [Digit(n % 10)]
  }

  /** A non-negative number's numeral starts with a digit, never with `-`. */
  lemma {:induction false} DecimalStartsWithDigit(n: nat)
    ensures '0' <= Decimal(n)[0] <= '9'
    decreases n
  {
    if n >= 10 {
      DecimalStartsWithDigit(n / 10);
    }
  }

  /** Numerals of n >= 10 have at least two characters, so they differ from those of single digits. */
  lemma DecimalLength(n: nat)
    ensures n < 10 <==> |Decimal(n)| == 1
  {
    if n >= 10 {
      assert |Decimal(n / 10)| >= 1;
    }
  }

  /** Different numbers get different numerals. */
  lemma {:induction false} DecimalInjective(a: int, b: int)
    requires Decimal(a) == Decimal(b)
    ensures a == b
    decreases if a < 0 then -a + 1 else a
  {
    if a < 0 && b < 0 {
      assert Decimal(-a) == Decimal(a)[1..] == Decimal(b)[1..] == Decimal(-b);
      DecimalInjective(-a, -b);
    } else if a < 0 {
      DecimalStartsWithDigit(b);
    } else if b < 0 {
      DecimalStartsWithDigit(a);
    } else {
      DecimalLength(a);
      DecimalLength(b);
      if a >= 10 {
        var da, db := Decimal(a), Decimal(b);
        assert da[|da| - 1] == Digit(a % 10) && db[|db| - 1] == Digit(b % 10);
        assert Decimal(a / 10) == da[..|da| - 1] == db[..|db| - 1] == Decimal(b / 10);
        DecimalInjective(a / 10, b / 10);
      } else {
        assert Decimal(a)[0] == Digit(a) && Decimal(b)[0] == Digit(b);
      }
    }
  }

  /** `!selectionNode`: `null` and `""` are falsy. */
  predicate NoSelection(sel: Option<string>) {
    sel.None? || sel.value == ""
  }

  /** `d.id === selectionNode` */
  predicate IdMatches(sel: Option<string>, n: Node) {
    sel.Some? && n.id == sel.value
  }

  /**
   * `d.group === selectionGroup` or `d.group == selectionGroup` for a numeric
   * group. `null` equals no number under either; a string equals a number only
   * under `==`, and then when it is that number's numeral.
   */
  predicate GroupMatches(eq: Equality, group: int, arg: GroupArg) {
    match arg
    case Null => false
    case Num(n) => group == n
    case Text(s) => eq == Loose && s == Decimal(group)
  }

  predicate NodeLit(eq: Equality, sel: Option<string>, arg: GroupArg, n: Node) {
    NoSelection(sel) || IdMatches(sel, n) || GroupMatches(eq, n.group, arg)
  }

  /** The link test exactly as the script writes it, over the link's resolved end nodes. */
  predicate LinkLit(eq: Equality, sel: Option<string>, arg: GroupArg, source: Node, target: Node) {
    || NoSelection(sel)
    || IdMatches(sel, source) || GroupMatches(eq, source.group, arg)
    || IdMatches(sel, target) || GroupMatches(eq, target.group, arg)
  }

  /** A link is lit iff either of its endpoints is. */
  lemma LinkLitIffEndpointLit(eq: Equality, sel: Option<string>, arg: GroupArg, source: Node, target: Node)
    ensures LinkLit(eq, sel, arg, source, target) <==> NodeLit(eq, sel, arg, source) || NodeLit(eq, sel, arg, target)
  {
  }

  /** Radius 30, group colour, opacity 1 when lit; radius 15, `#555`, opacity 0.2 when dimmed. */
  function NodeStyleOf(lit: bool, group: int): NodeStyle {
    if lit then NodeStyle(30, GroupColour(group), 1.0, 1.0) else NodeStyle(15, Grey, 0.2, 0.2)
  }

  /** Width 6 and opacity 0.8 when lit; the script's dimmed width and opacity 0.05 when dimmed. */
  function LinkStyleOf(hs: HighlightStyle, lit: bool): LinkStyle {
    if lit then LinkStyle(6, 0.8) else LinkStyle(hs.dimLinkWidth, 0.05)
  }

  /**
   * The node object that the layout's link force puts in place of an endpoint id.
   * This returns the first node with the id, where the layout's id map keeps the
   * last; every caller requires distinct ids, so the two are the same node.
   */
  function NodeById(nodes: seq<Node>, id: string): (n: Node)
    requires id in Ids(nodes)
    ensures n in nodes && n.id == id
  {
    if nodes[0].id == id then nodes[0]
    else
      assert id in Ids(nodes[1..]) by {
        var m :| m in nodes && m.id == id;
        var k :| 0 <= k < |nodes| && nodes[k] == m;
        assert nodes[1..][k - 1] == m;
      }
      NodeById(nodes[1..], id)
  }

  /** What `highlight(sel, arg)` sets on every node and link of a well-formed graph. */
  function Render(hs: HighlightStyle, sel: Option<string>, arg: GroupArg, g: Graph): (v: View)
    requires WellFormed(g)
    ensures |v.nodes| == |g.nodes| && |v.links| == |g.links|
  {
    View(
      seq(|g.nodes|, i requires 0 <= i < |g.nodes| =>
        NodeStyleOf(NodeLit(hs.equality, sel, arg, g.nodes[i]), g.nodes[i].group)),
      seq(|g.links|, j requires 0 <= j < |g.links| =>
        LinkStyleOf(hs, LinkLit(hs.equality, sel, arg,
                                NodeById(g.nodes, g.links[j].source),
                                NodeById(g.nodes, g.links[j].target)))))
  }

  /** In a graph without duplicate ids, the only node with a given node's id is that node. */
  lemma SameIdSameIndex(g: Graph, i: int, k: int)
    requires WellFormed(g) && 0 <= i < |g.nodes| && 0 <= k < |g.nodes|
    ensures g.nodes[i].id == g.nodes[k].id <==> i == k
  {
    assert IdList(g.nodes)[i] == g.nodes[i].id && IdList(g.nodes)[k] == g.nodes[k].id;
  }

  /**
   * With no node selected (`null` or `""`), every node and every link is lit,
   * whatever the group argument.
   */
  lemma NothingSelectedLightsAll(hs: HighlightStyle, sel: Option<string>, arg: GroupArg, g: Graph)
    requires WellFormed(g) && NoSelection(sel)
    ensures forall i :: 0 <= i < |g.nodes| ==> Render(hs, sel, arg, g).nodes[i] == NodeStyleOf(true, g.nodes[i].group)
    ensures forall j :: 0 <= j < |g.links| ==> Render(hs, sel, arg, g).links[j] == LinkStyle(6, 0.8)
  {
  }

  /**
   * Clicking node k calls `highlight(d.id, d.group)`: exactly the nodes of the
   * clicked node's group are lit (the clicked node among them), and a link is
   * lit iff one of its endpoints is in that group.
   */
  lemma NodeClickLightsGroup(hs: HighlightStyle, g: Graph, k: int)
    requires WellFormed(g) && 0 <= k < |g.nodes| && g.nodes[k].id != ""
    ensures var v := Render(hs, Some(g.nodes[k].id), Num(g.nodes[k].group), g);
      && v.nodes[k] == NodeStyleOf(true, g.nodes[k].group)
      && (forall i :: 0 <= i < |g.nodes| ==>
            v.nodes[i] == NodeStyleOf(g.nodes[i].group == g.nodes[k].group, g.nodes[i].group))
      && (forall j :: 0 <= j < |g.links| ==>
            v.links[j] == LinkStyleOf(hs, NodeById(g.nodes, g.links[j].source).group == g.nodes[k].group
                                          || NodeById(g.nodes, g.links[j].target).group == g.nodes[k].group))
  {
    var sel, arg := Some(g.nodes[k].id), Num(g.nodes[k].group);
    forall i | 0 <= i < |g.nodes|
      ensures NodeLit(hs.equality, sel, arg, g.nodes[i]) == (g.nodes[i].group == g.nodes[k].group)
    {
      SameIdSameIndex(g, i, k);
    }
    forall j | 0 <= j < |g.links|
      ensures LinkLit(hs.equality, sel, arg, NodeById(g.nodes, g.links[j].source), NodeById(g.nodes, g.links[j].target))
              == (NodeById(g.nodes, g.links[j].source).group == g.nodes[k].group
                  || NodeById(g.nodes, g.links[j].target).group == g.nodes[k].group)
    {
      var s, t := NodeById(g.nodes, g.links[j].source), NodeById(g.nodes, g.links[j].target);
      var si :| 0 <= si < |g.nodes| && g.nodes[si] == s;
      var ti :| 0 <= ti < |g.nodes| && g.nodes[ti] == t;
      SameIdSameIndex(g, si, k);
      SameIdSameIndex(g, ti, k);
    }
  }

  /**
   * `highlight(id, null)` with a non-empty id lights exactly the node with that
   * id and the links incident to it: a numeric group never equals `null`.
   */
  lemma IdOnlyLightsIncident(hs: HighlightStyle, g: Graph, id: string)
    requires WellFormed(g) && id != ""
    ensures var v := Render(hs, Some(id), Null, g);
      && (forall i :: 0 <= i < |g.nodes| ==> v.nodes[i] == NodeStyleOf(g.nodes[i].id == id, g.nodes[i].group))
      && (forall j :: 0 <= j < |g.links| ==>
            v.links[j] == LinkStyleOf(hs, g.links[j].source == id || g.links[j].target == id))
  {
  }
}
