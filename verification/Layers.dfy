/** Simulcast quality layers and the rule that picks one
    (internal/media/sfu/simulcast.go, internal/media/sfu/adaptive.go). */
module Layers {

  /** The three named layers: RIDs "q", "h" and "f". */
  datatype Layer = Low | Medium | High

  function Rank(q: Layer): (r: nat)
    ensures 1 <= r <= 3
  {
    match q
    case Low => 1
    case Medium => 2
    case High => 3
  }

  function MinLayer(a: Layer, b: Layer): Layer {
    if Rank(a) <= Rank(b) then a else b
  }

  function Downgrade(q: Layer): Layer {
    if q == High then Medium else Low
  }

  /** The order in which layers are tried when `preferred` is wanted. */
  function LayerPriority(preferred: Layer): seq<Layer> {
    match preferred
    case High => [High, Medium, Low]
    case Medium => [Medium, Low, High]
    case Low => [Low, Medium, High]
  }

  /** `q` is the highest layer not above `want`, or the lowest one above it when there is none. */
  ghost predicate IsBest(q: Layer, want: Layer, layers: set<Layer>) {
    && q in layers
    && if exists l :: l in layers && Rank(l) <= Rank(want) then
         Rank(q) <= Rank(want) && forall l :: l in layers && Rank(l) <= Rank(want) ==> Rank(l) <= Rank(q)
       else
         forall l :: l in layers ==> Rank(q) <= Rank(l)
  }

  /** The first layer of the priority order that exists; High when there is no layer at all. */
  function BestAvailable(want: Layer, layers: set<Layer>): (q: Layer)
    ensures layers != {} ==> IsBest(q, want, layers)
    ensures layers == {} ==> q == High
  {
    var order := LayerPriority(want);
    if order[0] in layers then order[0]
    else if order[1] in layers then order[1]
    else if order[2] in layers then order[2]
    else
      assert forall l :: l in layers ==> l == order[0] || l == order[1] || l == order[2];
      High
  }

  /** Moving from `current` to `next` is a move towards `target`: the layer stays put unless the
      target differs, and changes only in the target's direction. */
  predicate Towards(current: Layer, next: Layer, target: Layer) {
    && (Rank(next) > Rank(current) ==> Rank(target) > Rank(current))
    && (Rank(next) < Rank(current) ==> Rank(target) < Rank(current))
  }

  /** Resolving a target against the layers that exist, seen from a layer that exists, moves
      towards the target; an upgrade never lands above the target. */
  lemma BestMovesTowards(current: Layer, target: Layer, layers: set<Layer>)
    requires current in layers
    ensures Towards(current, BestAvailable(target, layers), target)
    ensures Rank(current) <= Rank(target) ==> Rank(BestAvailable(target, layers)) <= Rank(target)
  {}

  /** A target no higher than the lowest layer resolves to the lowest layer. */
  lemma BestOfFloorIsLowest(target: Layer, layers: set<Layer>)
    requires layers != {}
    requires forall l :: l in layers ==> Rank(target) <= Rank(l)
    ensures BestAvailable(target, layers) in layers
    ensures forall l :: l in layers ==> Rank(BestAvailable(target, layers)) <= Rank(l)
  {}
}
