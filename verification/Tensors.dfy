/** Tensors as a shape and a row-major flat buffer, and the errors of the kernels. */
module Tensors {
  import opened Strides

  datatype Error =
    | ShapeMismatch
    | DimOutOfBounds(dim: nat, rank: nat)
    | IndexOutOfBounds(index: int, bound: nat)
    | OutOfMemory
    | Panicked

  datatype Result<+T> = Ok(value: T) | Err(error: Error)

  datatype Tensor = Tensor(shape: Shape, data: seq<real>) {
    predicate Valid() {
      |data| == Numel(shape)
    }
  }
}
