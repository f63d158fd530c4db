/** JwtUserDetailsService: resolve an email to a principal whose authorities are
    the user's role names. No state changes. */
module UserDetails {
  import opened Results
  import opened Entities
  import opened Repositories
  import opened Security

  const UserNotFoundMessage := "User not found"

  /** `mapRolesToAuthorities`: one authority per role, named after it, in order. */
  function MapRolesToAuthorities(roles: seq<Role>): (r: seq<string>)
    ensures |r| == |roles|
    ensures forall i :: 0 <= i < |roles| ==> r[i] == roles[i].name
  {
    if roles == [] then [] else [roles[0].name] + MapRolesToAuthorities(roles[1..])
  }

  /** `loadUserByUsername`: an unknown email fails; otherwise the principal
      carries the row's email, its password hash and its role names. */
  function LoadUserByUsername(users: map<UserId, User>, email: string): (r: Result<Principal, SecurityError>)
    requires UsersWellFormed(users)
    ensures r.Failure? <==> !ExistsByEmail(users, email)
    ensures r.Failure? ==> r.error == UsernameNotFound(UserNotFoundMessage)
    ensures r.Success? ==> exists id :: id in users && users[id].email == email
                                        && r.value.username == email
                                        && r.value.password == users[id].password
                                        && (forall a :: a in r.value.authorities <==>
                                              exists i :: 0 <= i < |users[id].roles| && users[id].roles[i].name == a)
  {
    match FindByEmail(users, email)
    case None => Failure(UsernameNotFound(UserNotFoundMessage))
    case Some(user) =>
      var names := MapRolesToAuthorities(user.roles);
      Success(Principal(user.email, user.password, set a | a in names))
  }
}
