/** The status and JSON body of a controller's reply. */
module Http {
  import opened Js
  import opened Records

  datatype Body =
    | ErrorBody(error: string)
    | FileBody(id: Id, userId: Id, name: JsValue, typeName: string, isPublic: JsValue, parentId: JsValue)
    | UserBody(id: Id, email: JsValue)
    | TokenBody(token: string)

  datatype Response = Response(status: nat, body: Body)

  /** `res.status(401).json({ error: 'Unauthorized' })`, the one reply for
      every authentication failure. */
  const Unauthorized: Response := Response(401, ErrorBody("Unauthorized"))

  /** `res.status(400).json({ error: message })` */
  function BadRequest(message: string): Response {
    Response(400, ErrorBody(message))
  }
}
