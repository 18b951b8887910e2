/** Small failure-carrying datatypes shared by the rest of the model. */
module Wrappers {

  /** A value that may be absent: `undefined` in the worker, or a key missing from an object. */
  datatype Option<+T> = None | Some(value: T)

  /** The `message` property of a thrown value, which need not be a string:
      whether it is truthy, and the text it becomes in a response body. */
  datatype Message = Message(truthy: bool, asString: string)

  /** A string message: truthy exactly when it is not empty. */
  function StringMessage(m: string): (msg: Message)
    ensures msg.asString == m
    ensures msg.truthy <==> |m| > 0
  {
    Message(m != "", m)
  }

  /** A thrown value as the worker observes it when it catches one:
      its `message` property (None when that is undefined) and what its
      `toString()` returns. */
  datatype Error = Error(message: Option<Message>, asString: string)

  /** The outcome of a step that either produces a value or throws. */
  datatype Attempt<+T> = Ok(value: T) | Fail(error: Error)
}
