/** Optional values, for results the source expresses with an early `return`
    or an absent element. */
module Wrappers {

  datatype Option<+T> = None | Some(value: T)

}
