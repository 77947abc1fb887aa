/** FastAPI's `HTTPException` and the JSON responses the routers build. */
module Http {
  import Json

  /** An `HTTPException(status_code, detail)`. */
  datatype HttpError = HttpError(status: int, detail: string)

  /** What a response does to the `refresh_token` cookie. */
  datatype CookieAction = KeepCookie | SetCookie(value: string) | DeleteCookie

  /** A `JSONResponse` with its body and its effect on the refresh-token cookie. */
  datatype Response = Response(body: Json.Json, refreshCookie: CookieAction)

  /** The status FastAPI answers with when a handler raises something other than an
      `HTTPException`. */
  const InternalServerError := HttpError(500, "Internal Server Error")

  /** `str(e)` of an `HTTPException`: its status code, a colon, its detail. */
  function ExceptionText(e: HttpError): string {
    Json.IntToString(e.status) + ": " + e.detail
  }
}
