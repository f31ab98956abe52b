/**
 * The three drag handlers every script registers on its nodes. They pin a
 * node (`fx`, `fy`) while it is dragged and steer the layout's `alphaTarget`.
 * The layout itself only reads these fields; coordinates are copied here,
 * never computed.
 */
module Drag {
  import opened Wrappers

  /** The parts of the force layout that the handlers touch. */
  class Simulation {
    /** The value `alphaTarget` settles back to: 0, or 0.05 in NetworkCharts.py. */
    const resting: real
    var alphaTarget: real
    /** How many times `restart()` has been called. */
    var restarts: nat

    constructor (resting: real)
      ensures this.resting == resting && alphaTarget == resting && restarts == 0
    {
      this.resting := resting;
      alphaTarget := resting;
      restarts := 0;
    }
  }

  /** A node object of `graph.nodes` once the layout owns it. */
  class SimNode {
    const id: string
    const group: int
    var x: real
    var y: real
    /** The pin: `null` (`None`) lets the layout move the node. */
    var fx: Option<real>
    var fy: Option<real>

    constructor (id: string, group: int, x: real, y: real)
      ensures this.id == id && this.group == group && this.x == x && this.y == y
      ensures fx == None && fy == None
    {
      this.id, this.group := id, group;
      this.x, this.y := x, y;
      fx, fy := None, None;
    }

    predicate Pinned()
      reads this
    {
      fx.Some? && fy.Some?
    }
  }

  /** A drag event: `event.active` counts the other gestures in progress; `x`, `y` is the pointer. */
  datatype DragEvent = DragEvent(active: nat, x: real, y: real)

  /** The shared `if(!event.active)` test. */
  predicate NoOtherGesture(event: DragEvent) {
    event.active == 0
  }

  /** `dragstarted`: restart at target 0.3 when no other gesture is active, then pin the node where it is. */
  method DragStarted(sim: Simulation, event: DragEvent, d: SimNode)
    modifies sim`alphaTarget, sim`restarts, d`fx, d`fy
    ensures d.Pinned() && d.fx == Some(d.x) && d.fy == Some(d.y)
    ensures NoOtherGesture(event) ==> sim.alphaTarget == 0.3 && sim.restarts == old(sim.restarts) + 1
    ensures !NoOtherGesture(event) ==> sim.alphaTarget == old(sim.alphaTarget) && sim.restarts == old(sim.restarts)
  {
    if event.active == 0 {
      sim.alphaTarget := 0.3;
      sim.restarts := sim.restarts + 1;
    }
    d.fx := Some(d.x);
    d.fy := Some(d.y);
  }

  /** `dragged`: move the pin to the pointer; the layout is left alone. */
  method Dragged(event: DragEvent, d: SimNode)
    modifies d`fx, d`fy
    ensures d.Pinned() && d.fx == Some(event.x) && d.fy == Some(event.y)
  {
    d.fx := Some(event.x);
    d.fy := Some(event.y);
  }

  /** `dragended`: back to the resting target when no other gesture is active, then unpin the node. */
  method DragEnded(sim: Simulation, event: DragEvent, d: SimNode)
    modifies sim`alphaTarget, d`fx, d`fy
    ensures !d.Pinned() && d.fx == None && d.fy == None
    ensures sim.alphaTarget == if NoOtherGesture(event) then sim.resting else old(sim.alphaTarget)
  {
    if event.active == 0 {
      sim.alphaTarget := sim.resting;
    }
    d.fx := None;
    d.fy := None;
  }
}
