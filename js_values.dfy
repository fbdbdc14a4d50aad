/**
 * Small models of JavaScript values the core passes around: an optional value
 * (`undefined`/`null` versus a value) and a thrown or rejected value, as far
 * as the core inspects it.
 */
module JsValues {

  datatype Option<T> = None | Some(value: T)

  /** The `message` property of a plain object, as `"message" in err` and `typeof` see it. */
  datatype MessageProp =
    | NoMessage                         // no `message` key at all
    | StringMessage(text: string)       // `message` holds a string
    | OtherMessage(asString: string, truthy: bool)
      // `message` holds something else: `String(...)` of it, and whether the value itself is truthy

  /** A value passed to a failure callback or thrown. */
  datatype JsError =
    | Nullish                           // `null` or `undefined`
    | Primitive(asString: string)       // a number, boolean or string, not an object
    | ErrorObject(errorMessage: string) // an instance of `Error`; its message is a string
    | PlainObject(prop: MessageProp)    // any other object

  /** A promise that resolved with a value or was rejected with an error message. */
  datatype Result<T> = Success(value: T) | Failure(error: string)

  /** How a backend call ended: the success callback ran with a value, or the failure callback with an error. */
  datatype Outcome<T> = Responded(value: T) | Failed(err: JsError)
}
