/** Optional values, used where the browser hands the game "nothing"
    (a cancelled name prompt, an empty deck, an out-of-range list index). */
module Wrappers {

  datatype Option<+T> = None | Some(value: T)
}
