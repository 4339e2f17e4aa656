/** Small types shared by the models. */
module Wrappers {
  /** A value that may be missing; `None` stands for a C# null reference
      or for a call that faulted before producing its result. */
  datatype Option<+T> = None | Some(value: T)

  /** A `Guid` identity, only ever compared for equality; where the source
      draws a fresh one with `Guid.NewGuid`, the model takes it as a
      parameter. */
  datatype Guid = Guid(n: nat)

  /** `Guid.Empty`. */
  const EmptyGuid := Guid(0)
}
