/** Small shared vocabulary: optional values, results with an error, and the
    JSON shape of one chat turn that the client posts and the server reads. */
module Common {

  datatype Option<+T> = None | Some(value: T)

  datatype Result<+T, +E> = Success(value: T) | Failure(error: E)

  /** One `{type, content}` entry of a chat request body. The client builds
      these; the server reads them as its request `Message` model. */
  datatype ChatTurn = ChatTurn(msgType: string, content: string)
}
