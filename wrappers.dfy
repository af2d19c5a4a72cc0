/** Option values for the player's "may be absent" results (a missing tag,
    a failed network call, a cache miss). */
module Wrappers {

  datatype Option<+T> = None | Some(value: T)
}
