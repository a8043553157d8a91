/** Optional values and the outcomes of operations that can raise in the exporter. */
module Results {

  datatype Option<+T> = None | Some(value: T)

  /** The exceptions the exporter can raise; none of them is caught anywhere. */
  datatype Error =
    | ListFailed(blockId: string)       // the "list block children" call failed (unknown id, bad cursor)
    | MissingKey(key: string)           // a record indexed with [] lacks the key (a Python KeyError)
    | UnexpectedArgument(name: string)  // a handler called with a keyword it does not declare (TypeError)
    | InvalidUrl                        // a download attempted on an absent URL

  datatype Result<+T> = Ok(value: T) | Err(error: Error)
}
