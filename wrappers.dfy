/** The optional type used for Swift optionals (`V?`, `IObserver?`). */
module Wrappers {

  datatype Option<+T> = None | Some(value: T)

}
