/** Option and Result types shared by the model, and the JavaScript errors it represents. */
module Wrappers {

  datatype Option<T> = None | Some(value: T)

  /** The three TypeErrors the model represents; README's "## Left out" lists those it does not. */
  datatype TypeError =
    | MissingContent     // `message.content[0].str` on an empty content list
    | IndexBeforeStart   // `tagsAdded[-1].toLowerCase()` in the tag resolution loop
    | NotAString         // `toLowerCase()` on a raw CRC number, or on the `undefined` `.added` of a raw tag array

  /** The value an expression evaluates to, or the error it throws. */
  datatype Result<T> = Ok(value: T) | Err(error: TypeError)
}
