/** Walks through the network, built hop by hop, with their length and total weight. */
module Walks {
  import opened Aodv
  import opened Network

  datatype Walk = At(n: Addr) | Go(prefix: Walk, to: Addr, channel: int) {
    function Start(): Addr {
      if At? then n else prefix.Start()
    }

    function End(): Addr {
      if At? then n else to
    }

    function Length(): nat {
      if At? then 0 else prefix.Length() + 1
    }
  }

  /** Link costs that do not change: sender, receiver and channel determine them. */
  type Costs = (Addr, Addr, int) -> real

  function Weight(c: Costs, w: Walk): real {
    if w.At? then 0.0 else Weight(c, w.prefix) + c(w.prefix.End(), w.to, w.channel)
  }

  /** Every hop of the walk goes over a link of its channel. */
  ghost predicate Within(topo: Topology, w: Walk) {
    w.Go? ==> Within(topo, w.prefix) && Link(topo, w.prefix.End(), w.to, w.channel)
  }

  /** The link costs a delivery is charged are the static ones. */
  ghost predicate Static(c: Costs, s: Net, e: Event) {
    e.Deliver? && e.i < |s.air| ==> e.link == c(s.air[e.i].src, s.air[e.i].dst, s.air[e.i].channel)
  }
}
