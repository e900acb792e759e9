/** The HTTP replies the handlers write with `ctx.JSON` / `AbortWithStatusJSON`. */
module Http {
  import opened Models

  datatype Body =
    | NoBody                                    // what gin.Recovery writes after a panic
    | ErrorJson(error: string)                  // gin.H{"error": ...}
    | MessageJson(message: string)              // gin.H{"message": ...}
    | TokenJson(token: string)                  // gin.H{"token": ...}
    | UserWithToken(user: PublicUser, token: string)
    | UserJson(user: PublicUser)
    | NullJson                                  // a nil *models.User marshalled: `null`

  datatype Response = Response(status: nat, body: Body)

  const StatusOK: nat := 200
  const StatusCreated: nat := 201
  const StatusBadRequest: nat := 400
  const StatusUnauthorized: nat := 401
  const StatusNotFound: nat := 404
  const StatusInternalServerError: nat := 500
}
