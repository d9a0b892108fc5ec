/** The optional-value datatype shared by the extractor and the aggregator. */
module Wrappers {

  datatype Option<+T> = None | Some(value: T)
}
