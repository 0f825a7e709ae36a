module Shapes {

  /** The number of elements of a tensor of this shape. */
  function Numel(shape: seq<nat>): nat {
    if shape == [] then 1 else shape[0] * Numel(shape[1..])
  }
}
