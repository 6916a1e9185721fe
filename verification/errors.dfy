/** Failure-carrying datatypes shared by the profiling-input generation model.
    Each `Error` constructor stands for one exception the job can raise before
    any binary input file is written. */
module Errors {

  /** The hard errors of the generation pipeline. */
  datatype Error =
    /** `max()` over an empty inference list raises. */
    | EmptyInferencePlan
    /** The element-type table has no entry for this type name. */
    | UnsupportedElementType(typeName: string)
    /** `int(str(dimension))` rejects this text (a dynamic dimension, say). */
    | UnresolvedDimension(text: string)

  datatype Result<+T> = Ok(value: T) | Err(error: Error)

  datatype Option<+T> = None | Some(value: T)
}
