/** JwtAuthenticationFilter: take a bearer token from the `Authorization`
    header (the scheme of section 2.1 of RFC 6750), and when it carries text,
    validate it, resolve its subject and write the authentication to the
    security context before passing the request on. */
module AuthFilter {
  import opened Results
  import opened Entities
  import opened Repositories
  import opened Security
  import opened UserDetails
  import opened StringUtils

  const BearerPrefix := "Bearer "
  const InvalidTokenMessage := "JWT was exprired or incorrect"

  /** `getJWTFromRequest`: the header after its first seven characters, when the
      header has text and starts with the case-sensitive `"Bearer "`. */
  function GetJwtFromRequest(header: Option<string>): (r: Option<string>)
    ensures r.Some? <==> HasText(header) && BearerPrefix <= header.value
    ensures r.Some? ==> header.value == BearerPrefix + r.value
  {
    if HasText(header) && BearerPrefix <= header.value then Some(header.value[7..]) else None
  }

  /** The text test in `getJWTFromRequest` is implied by the prefix test, since
      the prefix itself has text: a header yields a token exactly when it starts
      with `"Bearer "`. */
  lemma BearerPrefixSuffices(header: Option<string>)
    ensures GetJwtFromRequest(header).Some? <==> header.Some? && BearerPrefix <= header.value
  {
    if header.Some? && BearerPrefix <= header.value {
      assert !IsWhitespace(header.value[0]);
    }
  }

  /** Round trip: the token placed after `"Bearer "` is the token extracted. */
  lemma BearerRoundTrip(token: string)
    ensures GetJwtFromRequest(Some(BearerPrefix + token)) == Some(token)
  {
    BearerPrefixSuffices(Some(BearerPrefix + token));
    assert (BearerPrefix + token)[7..] == token;
  }

  /** What the filter does with one request, before it passes it on. */
  datatype FilterStep =
    | Anonymous                             // no token with text: nothing is written
    | Authenticated(auth: Authentication)   // this authentication is written
    | Rejected(error: SecurityError)        // an exception ends the filter

  /** `doFilterInternal` up to the call of the chain. `validateToken` throws
      rather than returning false, so a present but invalid token rejects the
      request instead of leaving it anonymous. */
  function Authenticate(header: Option<string>, codec: TokenCodec, users: map<UserId, User>): (r: FilterStep)
    requires UsersWellFormed(users)
    ensures r.Anonymous? <==> !HasText(GetJwtFromRequest(header))
    ensures r.Rejected? && r.error.InvalidToken? <==>
              HasText(GetJwtFromRequest(header)) && !codec.valid(GetJwtFromRequest(header).value)
    ensures r.Rejected? && r.error.InvalidToken? ==> r.error == InvalidToken(InvalidTokenMessage)
    ensures r.Rejected? && r.error.UsernameNotFound? <==>
              HasText(GetJwtFromRequest(header)) && codec.valid(GetJwtFromRequest(header).value)
              && !ExistsByEmail(users, codec.subject(GetJwtFromRequest(header).value))
    ensures r.Rejected? && r.error.UsernameNotFound? ==> r.error == UsernameNotFound(UserNotFoundMessage)
    ensures r.Authenticated? <==>
              HasText(GetJwtFromRequest(header)) && codec.valid(GetJwtFromRequest(header).value)
              && ExistsByEmail(users, codec.subject(GetJwtFromRequest(header).value))
    ensures r.Authenticated? ==>
              && LoadUserByUsername(users, codec.subject(GetJwtFromRequest(header).value)) == Success(r.auth.principal)
              && r.auth.credentials.None?
              && r.auth.authorities == r.auth.principal.authorities
              && r.auth.authenticated
  {
    var token := GetJwtFromRequest(header);
    if !HasText(token) then Anonymous
    else if !codec.valid(token.value) then Rejected(InvalidToken(InvalidTokenMessage))
    else
      match LoadUserByUsername(users, codec.subject(token.value))
      case Failure(e) => Rejected(e)
      case Success(details) => Authenticated(Authentication(details, None, details.authorities, true))
  }

  /** A header carrying a valid token (with text) whose subject is a stored email
      authenticates, as that email. */
  lemma BearerTokenAuthenticates(token: string, codec: TokenCodec, users: map<UserId, User>)
    requires UsersWellFormed(users)
    requires HasText(Some(token)) && codec.valid(token) && ExistsByEmail(users, codec.subject(token))
    ensures var step := Authenticate(Some(BearerPrefix + token), codec, users);
            step.Authenticated? && step.auth.Name() == codec.subject(token)
  {
    BearerRoundTrip(token);
  }

  /** End to end: with a sound codec, the token issued for a stored email, sent
      back as a bearer header, authenticates as that email. */
  lemma IssuedTokenAuthenticates(codec: TokenCodec, users: map<UserId, User>, email: string)
    requires Sound(codec) && UsersWellFormed(users) && ExistsByEmail(users, email)
    ensures var step := Authenticate(Some(BearerPrefix + codec.generate(email)), codec, users);
            step.Authenticated? && step.auth.Name() == email
  {
    BearerTokenAuthenticates(codec.generate(email), codec, users);
  }

  /** The rest of the filter chain. It records, for each run, the authentication
      the security context held; the number of runs is `|seen|`. */
  class FilterChain {
    var seen: seq<Option<Authentication>>

    constructor ()
      ensures seen == []
    {
      seen := [];
    }

    method DoFilter(ctx: SecurityContext)
      modifies this
      ensures seen == old(seen) + [ctx.authentication]
    {
      seen := seen + [ctx.authentication];
    }
  }

  class JwtAuthenticationFilter {
    const codec: TokenCodec
    const db: Database

    constructor (codec: TokenCodec, db: Database)
      ensures this.codec == codec && this.db == db
    {
      this.codec := codec;
      this.db := db;
    }

    /** `doFilterInternal`: writes the authentication only when the token is
        valid and resolves; invokes the chain once unless an exception ended the
        filter first, and the chain runs after the write, so it sees the new
        authentication. */
    method DoFilterInternal(header: Option<string>, ctx: SecurityContext, chain: FilterChain)
      returns (r: Outcome<SecurityError>)
      requires db.Valid()
      modifies ctx, chain
      ensures var step := Authenticate(header, codec, db.users);
              && ctx.authentication == (if step.Authenticated? then Some(step.auth) else old(ctx.authentication))
              && chain.seen == old(chain.seen) + (if step.Rejected? then [] else [ctx.authentication])
              && r == (if step.Rejected? then Fail(step.error) else Pass)
    {
      var token := GetJwtFromRequest(header);
      if HasText(token) {
        if !codec.valid(token.value) {
          return Fail(InvalidToken(InvalidTokenMessage));
        }
        var username := codec.subject(token.value);
        var details := LoadUserByUsername(db.users, username);
        if details.Failure? {
          return Fail(details.error);
        }
        ctx.authentication := Some(Authentication(details.value, None, details.value.authorities, true));
      }
      chain.DoFilter(ctx);
      r := Pass;
    }
  }
}
