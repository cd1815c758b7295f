/** An optional value: the ball kept so far by target acquisition, or the index of an id still on the table. */
module Wrappers {

  datatype Option<+T> = None | Some(value: T)
}
