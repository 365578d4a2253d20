/** Optional values. In this model `None` stands for JavaScript's `null`
    (an absent attribute, a missing element) and `Some(v)` for a present value. */
module Wrappers {

  datatype Option<+T> = None | Some(value: T)
}
