/** An optional value. `None` stands for the IEEE NaN that Kotlin's
    `average()` yields on an empty list. */
module Wrappers {

  datatype Option<+T> = None | Some(value: T)
}
