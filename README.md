# Force-graph demo scripts: graph assembly, highlighting and dragging

The repository is a set of near-duplicate scripts. Each reads an edge list
(a CSV file with `source` and `target` columns, or, in network3.py, a graph
written inline), turns it into a `{"nodes", "links"}` payload, and embeds it in
a page where a third-party force layout draws it. The layout, the drawing, zoom
and transitions belong to that library. Three small pieces of logic live in the
scripts themselves, and this project models them.

- **Graph assembly** (module `GraphBuild`). The node ids are the union of the
  two columns, each id once, in the unspecified order of a set; the
  letter-cluster scripts (network7.py, network8.py, NetworkCharts.py) give a node
  the group `ord(upper(first character)) % 10` and fail on an empty id; the
  constant-group scripts (network4.py, network5.py) give every node group 1.
  There is one link per row. Every build yields a graph without duplicate
  ids, without dangling link endpoints and without isolated nodes.
- **Selection highlighting** (modules `Highlight` and `Page`). This covers
  `highlight(selectionNode, selectionGroup)` in network8.py and
  NetworkCharts.py, the handlers that call it, and the two dropdowns of
  NetworkCharts.py. A node is lit iff nothing is selected, or its id is the
  selected id, or its group equals the selected group. A link is lit iff
  either endpoint is lit. Lit and dimmed elements get fixed radii, colours,
  opacities and widths.
- **Drag pinning** (module `Drag`). These are the three handlers every script
  registers. They pin a node at its position, move the pin to the pointer and
  unpin it. Only when no other gesture is active (`!event.active`) do they
  also set the layout's `alphaTarget`.

Module `Scripts` records what differs between the scripts:

- the group rule;
- `===` against `==`;
- the width of a dimmed link (1 or 3);
- the resting `alphaTarget` (0, or 0.05 in NetworkCharts.py);
- network3.py's inline graph.

The drag handlers modelled by `Drag` appear in:

- network3.py:99-114
- network4.py:99-114
- network5.py:115-130
- network7.py:157-172
- network8.py:192-194
- NetworkCharts.py:234-236

The clustered build appears at network7.py:21-31, network8.py:20-27 and
NetworkCharts.py:20-27.

Some behaviour is proved as the scripts are written:

- In NetworkCharts.py, `highlight(null, g)` lights everything, because
  `!selectionNode` is evaluated first. The cluster dropdown therefore dims nothing
  (`Page.Chart.OnClusterSelectChange`).
- A node click lights exactly the clicked node's group. In a graph without
  duplicate ids, the id test adds nothing to the group test.
- A handler's new highlight state depends only on its arguments, so repeating
  a call changes nothing further.

## Model

| member | source | states |
|---|---|---|
| GraphBuild.Cluster | network8.py:23 | the group of a non-empty id lies in 0..9 |
| GraphBuild.ClusterOfFirstChar | network7.py:25-27 | ids with the same first character share a group |
| GraphBuild.ClusterIgnoresCase | NetworkCharts.py:23 | an id starting with a lower-case letter has the group of one starting with the capital |
| GraphBuild.LinksOf | network8.py:26 | one link per row, in row order, with source and target copied unchanged |
| GraphBuild.EnumerateIds | network8.py:20 | `list(set)` holds every element of the set exactly once and nothing else |
| GraphBuild.EndpointIsIncident | network7.py:21-29 | every id that occurs in a row is an endpoint of some link |
| GraphBuild.AssembledIsWellFormed | network5.py:21-24 | node ids equal to the endpoints without duplicates, plus one link per row, give a graph with no dangling endpoint and no isolated node |
| GraphBuild.BuildClusteredGraph | network8.py:20-27 | fails iff some endpoint is the empty string (for ids whose first character is ASCII; see the `GraphBuild.Cluster` line under Left out); otherwise node ids are the union of both columns, each once, every group is the first-letter cluster in 0..9, links are one per row, and the graph is well formed with no isolated node |
| GraphBuild.BuildConstantGraph | network4.py:21-26 | node ids are the union of both columns, each once, every group is the given constant, links are one per row, the graph is well formed with no isolated node |
| Highlight.DecimalInjective | NetworkCharts.py:185-186 | different groups get different numerals, so different option values |
| Highlight.LinkLitIffEndpointLit | network8.py:150-151 | a link is lit iff its source or its target passes the node test |
| Highlight.NodeById | network8.py:90 | a link endpoint id resolves to the node of the graph with that id |
| Highlight.Render | network8.py:129-165 | highlighting sets one style per node and one per link |
| Highlight.NothingSelectedLightsAll | NetworkCharts.py:137-167 | with no node selected (`null` or `""`), every node gets radius 30, its group colour and opacity 1, and every link gets width 6 and opacity 0.8, whatever the group argument |
| Highlight.NodeClickLightsGroup | network8.py:178-182 | clicking a node lights it and exactly the nodes of its group (radius 30, colour, opacity 1), dims the others (radius 15, `#555`, opacity 0.2), and lights a link iff an endpoint is in that group |
| Highlight.IdOnlyLightsIncident | NetworkCharts.py:191-194 | `highlight(id, null)` lights exactly the node with that id and the links incident to it |
| Page.Unique | NetworkCharts.py:182 | the distinct groups hold each value once, and exactly the values that occur |
| Page.UniqueFollowsFirstOccurrence | NetworkCharts.py:182 | the distinct groups appear in the order of their first occurrence |
| Page.Chart.constructor | NetworkCharts.py:65-66 | each dropdown starts with its placeholder option of value `""` |
| Page.Chart.Highlight | NetworkCharts.py:134-168 | the new highlight state is the rendering of the arguments alone |
| Page.Chart.PopulateNodeMenu | NetworkCharts.py:172-178 | appends exactly one option per node, in node order, with value and text equal to the id |
| Page.Chart.PopulateClusterMenu | NetworkCharts.py:181-188 | appends one option per distinct group in first-occurrence order, value the numeral and text `"Cluster "` plus the numeral; no two new options share a value |
| Page.Chart.OnNodeSelectChange | NetworkCharts.py:191-194 | a node-dropdown choice lights exactly the chosen node (everything for the placeholder) |
| Page.Chart.OnClusterSelectChange | NetworkCharts.py:196-199 | a cluster-dropdown choice lights every node and every link |
| Page.Chart.OnNodeClick | NetworkCharts.py:202-205 | a node click lights exactly the clicked node's group and leaves the dropdowns alone |
| Page.Chart.OnSvgClick | NetworkCharts.py:208-214 | a click on the background lights everything and resets both dropdown values to `""`; a click elsewhere changes nothing |
| Drag.Simulation.constructor | NetworkCharts.py:97-103 | the layout starts at its resting `alphaTarget` |
| Drag.DragStarted | network7.py:157-161 | pins the node at its current position; when no other gesture is active sets `alphaTarget` 0.3 and restarts once, otherwise leaves both alone |
| Drag.Dragged | network5.py:121-124 | moves the pin to the pointer and touches nothing else |
| Drag.DragEnded | NetworkCharts.py:236 | clears both pin coordinates; when no other gesture is active restores the resting `alphaTarget` (0.05 here, 0 elsewhere), otherwise leaves it |
| Scripts.DimmedLinkWidths | NetworkCharts.py:151-167 | lit links are 6 wide at opacity 0.8 in both scripts; dimmed links are 3 wide here and 1 wide in network8.py, at opacity 0.05 |
| Scripts.NetworkChartsDragGesture | NetworkCharts.py:234-236 | one press, move and release pins the node at the pointer with target 0.3 during the move, then frees it with the target back at 0.05 |
| Scripts.InlineIds | network3.py:13-19 | the declared ids are exactly A, B, C, D, E |
| Scripts.InlineGraphIsWellFormed | network3.py:12-27 | the inline ids are distinct, every link names declared nodes, and every node has a link |
| Scripts.InlineGroups | network3.py:14-18 | the groups used are exactly 1, 2 and 3 |

## Left out

- Reading the CSV file, JSON encoding, the page templates and the host's
  `components.html` call are I/O and library plumbing. Ids are modelled as
  strings, so non-string cells (pandas `NaN`) are not modelled.
- GraphBuild.Cluster: upper-casing is ASCII only. Python's Unicode case
  mapping is not modelled. Neither is the `TypeError` that `ord` raises when
  `upper` yields two characters (for example `'ß'`).
- The force layout itself is not modelled: its forces, velocity decay, tick
  integration and the timer that `restart()` starts. The model records only
  `alphaTarget`, how often `restart` was called and the pin fields.
- Colours, the ordinal colour scale, glow filters, zoom and pan, node labels'
  positions and the 300 ms transitions are rendering details. The
  `console.log` of the clicked node in network8.py is console output. A transition is
  modelled by its end state.
- The initial circle radius and link width, set before any highlight call,
  are rendering details. The model's highlight state is `None` until the
  first call.
- Highlight.GroupMatches: a string equals a number under `==` only when it is
  that number's canonical numeral. JavaScript also accepts whitespace and
  leading zeros. The only strings that reach `highlight` are option values,
  which are canonical.
- `suddenBurst` and its `setInterval` timer in NetworkCharts.py are left out.
  They use random impulses and floating point.
- The HTML file that network3.py writes to disk is left out.
- network2.py is not part of this model. It is a wrapper around another
  graph library, with file I/O.
- Pointer events and event bubbling belong to the browser. A click is
  modelled by the tag name of its target (`OnSvgClick`) or by the index of the
  clicked node (`OnNodeClick`). The drag event is modelled by its `active`
  count and pointer coordinates.
