/** Responses as the handlers write them: a status code, a body, and the
    `Location` header where one is set. */
module Http {
  import opened Wrappers
  import opened Js
  import opened Store

  /** An error object handed to the error handler; only its `message` is read. */
  datatype Fault = Fault(message: JsValue)

  /** Response bodies. The comment after each alternative is the JSON or text
      the handler writes. */
  datatype Payload =
    | Text(text: string)                       // res.send(text)
    | BookmarkJson(bookmark: Bookmark)         // res.json(record)
    | BookmarkListJson(list: seq<Bookmark>)    // res.json(array of records)
    | Empty                                    // res.end()
    | ErrorString(error: string)               // { error: <string> }
    | ErrorMessage(message: string)              // { error: { message: <string> } }
    | Diagnostic(detail: JsValue, fault: Fault) // { message: error.message, error }

  datatype Response = Response(status: int, body: Payload, location: Option<string>)
}
