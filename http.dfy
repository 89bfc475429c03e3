/** What a handler or a middleware sends back: nothing, or one status with a JSON body. */
module Http {
  import opened Ids
  import opened Jwt
  import opened UserModel

  datatype Body =
    | ErrorBody(error: string)              // { error }
    | MessageBody(message: string)          // { message }
    | SuccessBody(message: string)          // { success: true, message }
    | TokenBody(token: TokenText)           // { token }
    | UserBody(user: User)                  // the user document
    | FavoritesBody(favorites: seq<ObjectId>)

  /** `NoResponse` is a code path on which nothing is ever sent. */
  datatype Response = NoResponse | Respond(status: int, body: Body)

  /** `res.status(status).json({ error })`. */
  function Failure(status: int, error: string): Response
  {
    Respond(status, ErrorBody(error))
  }

  /** Every validation chain yields either nothing or its first message. */
  datatype Validation = Passed | Failed(firstMessage: string)

  const NoTokenFound := "No token found!"
  const TokenNotValid := "The token is not valid!"
  const NotAuthorized := "You are not authorized to access this route!"
}
