/** The optional value used for the component's nullable fields
    (`boolean | null`, `WorkoutType`, `number | null`) and for a
    transition whose button is not on screen. */
module Wrappers {

  datatype Option<+T> = None | Some(value: T)
}
