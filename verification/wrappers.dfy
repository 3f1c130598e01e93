/** The optional value used wherever the TypeScript code returns `undefined` or `null`
    (a failed `Array.prototype.find`, an unset touch position). */
module Wrappers {

  datatype Option<+T> = None | Some(value: T)
}
