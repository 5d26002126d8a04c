/** The JSON values that the controllers hand to `render json:`. */
module Json {

  /** A JSON document; objects are maps, so key order is not part of the model. */
  datatype Json =
    | Null
    | Bool(b: bool)
    | Int(i: int)
    | Str(s: string)
    | Arr(items: seq<Json>)
    | Obj(fields: map<string, Json>)

  /** An HTTP response: a status code and a JSON body. */
  datatype Response = Response(status: int, body: Json)

  // The status symbols the controllers use, as numbers.
  const StatusOk := 200
  const StatusBadRequest := 400
  const StatusUnauthorized := 401
  const StatusForbidden := 403
  const StatusNotFound := 404
  const StatusNotAcceptable := 406
  const StatusUnprocessableEntity := 422
  const StatusInternalServerError := 500
  const StatusServiceUnavailable := 503
}
