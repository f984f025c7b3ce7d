/** Optional values, the exceptions the pipelines raise, and results that carry either. */
module Results {

  datatype Option<+T> = None | Some(value: T)

  /** The exceptions raised by the transforms, extractors and validators. */
  datatype Error =
    | KeyError(key: string)              // a column or dictionary key that is not there
    | IndexError                         // a list position that is not there
    | ValueError(reason: string)         // a bad argument (too few frames, an empty listing, ...)
    | TypeError(reason: string)          // arithmetic or comparison on non-numeric cells
    | AttributeError(reason: string)     // the `.str` accessor on a column that holds no text
    | SchemaError                        // raised by a non-lazy schema validation
    | SchemaErrors                       // raised by a lazy schema validation
    | FileNotFound(prefix: string)       // an object listing with nothing in it
    | PipelineException(reason: string)  // the orchestrator's exception type
    | ReadFailure(path: string)          // a file that could not be read

  datatype Result<+T> = Ok(value: T) | Err(error: Error)
}
