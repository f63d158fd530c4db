/** SecurityConfig: the request patterns reachable without authentication.
    Every other request must be authenticated. How the framework matches a path
    against these Ant-style patterns is not part of this model. */
module SecurityConfig {

  const PublicPatterns: seq<string> := [
    "/api/auth/**",
    "/api/user/showAll",
    "/v3/api-docs",
    "/v3/api-docs/**",
    "/swagger-ui/**",
    "/webjars/**",
    "/swagger-ui.html"
  ]
}
