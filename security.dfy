/** The framework shapes the authentication path works with: the resolved
    principal, the authentication written to the security context, the context
    itself, the framework's authentication exceptions, and the token codec,
    which is kept abstract. */
module Security {
  import opened Results
  import opened StringUtils

  /** A `UserDetails` value: username (here the email), password hash and the
      authority names. The framework's `User` keeps authorities in a sorted set. */
  datatype Principal = Principal(username: string, password: string, authorities: set<string>)

  /** A `UsernamePasswordAuthenticationToken`. The three-argument constructor
      the core uses marks the token authenticated. */
  datatype Authentication = Authentication(principal: Principal, credentials: Option<string>,
                                           authorities: set<string>, authenticated: bool)
  {
    /** `getName()`: the principal's username. */
    function Name(): string { principal.username }
  }

  datatype SecurityError =
    | InvalidToken(message: string)      // AuthenticationCredentialsNotFoundException from validateToken
    | UsernameNotFound(message: string)  // UsernameNotFoundException from loadUserByUsername
    | BadCredentials                     // the authentication manager's rejection of a login

  /** The holder of the current request's authentication. */
  class SecurityContext {
    var authentication: Option<Authentication>

    constructor ()
      ensures authentication.None?
    {
      authentication := None;
    }
  }

  /** JwtGenerator, left abstract: which tokens verify (`validateToken` returns
      normally), the subject a token carries (`getEmailFromJWT`), and the token
      issued for a subject (`generateToken`). */
  datatype TokenCodec = TokenCodec(valid: string -> bool, subject: string -> string, generate: string -> string)

  /** What a signing codec promises: a token it has just issued is non-blank
      text (a compact token is never empty), verifies, and carries the subject
      it was issued for. */
  ghost predicate Sound(codec: TokenCodec) {
    forall s :: HasText(Some(codec.generate(s))) && codec.valid(codec.generate(s))
                && codec.subject(codec.generate(s)) == s
  }
}
