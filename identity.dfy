/**
 * verify-token (src/routers/the-lounge.ts:167-242): renew a token that
 * verifies, mint a new identity for one that does not. JWT signing and
 * verification are the oracles `sign` and `verify`; nanoid is `freshId`.
 */
module Identity {
  import opened Wrappers
  import opened Envelopes
  import opened LoungeTypes

  /** The id the answered token carries: the presented token's id if it verifies, else a fresh one. */
  function IssuedId(token: Option<Token>, verify: Token -> Option<UserId>, freshId: UserId): (id: UserId)
    ensures token.Some? && verify(token.value).Some? ==> Some(id) == verify(token.value)
    ensures token.None? || verify(token.value).None? ==> id == freshId
  {
    if token.Some? && verify(token.value).Some? then verify(token.value).value else freshId
  }

  /**
   * The one event verify-token emits: to the asking socket, a schema failure,
   * or (whatever the token) a success carrying a signed token.
   */
  function VerifyToken(socket: SocketId, req: Validation<Option<NonEmptyString>>,
                       verify: Token -> Option<UserId>, sign: UserId -> Token, freshId: UserId): (out: seq<Event>)
    ensures |out| == 1 && out[0].to == ToSocket(socket) && out[0].name == VerifyTokenResponse
    ensures req.SchemaError? ==> out[0].payload == SchemaFailure(req.message)
    ensures req.Validated? ==> out[0].payload.success && out[0].payload.SuccessResponse?
    ensures req.Validated? ==> out[0].payload.data == TokenData(sign(IssuedId(req.value, verify, freshId)))
  {
    match req
    case SchemaError(message) =>
      [Emit(ToSocket(socket), VerifyTokenResponse, SchemaFailure(message))]
    case Validated(token) =>
      [Emit(ToSocket(socket), VerifyTokenResponse, Success(TokenData(sign(IssuedId(token, verify, freshId)))))]
  }

  /**
   * Identity continuity: when every signed token verifies to the id it was
   * signed for, the answered token verifies to the presented token's id if
   * that one verified, and to the freshly minted id otherwise (a null token
   * included).
   */
  lemma ReissuedTokenKeepsId(socket: SocketId, token: Option<NonEmptyString>,
                             verify: Token -> Option<UserId>, sign: UserId -> Token, freshId: UserId)
    requires forall id :: verify(sign(id)) == Some(id)
    ensures var out := VerifyToken(socket, Validated(token), verify, sign, freshId);
            var answered := verify(out[0].payload.data.token);
            && (token.Some? && verify(token.value).Some? ==> answered == verify(token.value))
            && (token.None? || verify(token.value).None? ==> answered == Some(freshId))
  {
  }
}
