/** What a handler hands back to the API gateway. */
module Http {
  import opened Items

  /** The response body, before JSON serialisation. */
  datatype Payload =
    | Plain(text: string)                      // a raw string body
    | Message(message: string)                 // `{ message }`
    | Failure(error: string)                   // `{ error }`: a caught error
    | IdFailure(id: int, error: string)        // `{ id, error }`
    | BookItem(item: Item)                     // a stored book, verbatim
    | Translation(text: string, translation: string, language: string)

  /** A returned response, or a rejection the handler does not catch. */
  datatype Reply = Reply(status: int, payload: Payload) | Unhandled(error: string)
}
