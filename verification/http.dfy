/**
 Requests and responses as the handlers see them. Header names are kept in
 lower case, as Node.js and the Fetch `Headers` object present them.
 */
module Http {
  import opened Database

  type Headers = map<string, string>

  datatype Request<+B> = Request(verb: string, headers: Headers, body: B)

  datatype Body =
    | Message(text: string)                  // `res.json({ message })`
    | PlainText(text: string)                // `res.end(text)`
    | NoteList(notes: seq<Note>)
    | OneNote(note: Note)
    | Account(message: string, tenant: Tenant, users: seq<User>)

  datatype Response = Response(status: int, headers: Headers, body: Body)

  /**
   A value `Headers.set` accepts: every character fits in one byte. A value
   with a character above U+00FF makes `set` throw a `TypeError`.
   */
  predicate IsByteString(value: string) {
    forall i | 0 <= i < |value| :: value[i] as int <= 0xFF
  }

  /** A handler's response together with the store after the request. */
  datatype Outcome = Outcome(response: Response, store: Store)

  const ContentType := "content-type"
  const Allow := "allow"

  /** The header `res.json` sets on every JSON response. */
  const JsonHeaders: Headers := map[ContentType := "application/json; charset=utf-8"]

  function JsonMessage(status: int, text: string): Response {
    Response(status, JsonHeaders, Message(text))
  }

  /** What the framework sends when a handler throws. */
  const InternalServerError := Response(500, map[], PlainText("Internal Server Error"))
}
