/** The conventional option type, used for the source's `Option<Tensor>` gradients. */
module Options {
  datatype Option<+T> = None | Some(value: T)
}
