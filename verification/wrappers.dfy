/** Optional values, used for the operations of the model that can fail or
    produce nothing (a parse that does not match, a step that emits no chunk). */
module Wrappers {

  datatype Option<+T> = None | Some(value: T)
}
