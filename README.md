# Task manager: ownership rules and the authentication path, in Dafny

This project models the core of a multi-user task tracker written in Java with
Spring. Users register and log in. Each request carries a bearer token that a
filter turns into the request's authentication. Tasks are created, deleted and
edited only by the user who owns them.

The model covers:

- **The task service** (`TaskService`). The database is one shared object,
  `Repositories.Database`. It holds users keyed by id, roles keyed by id and
  tasks keyed by title. Its invariant `Valid()` covers four things:
  - user and role rows are keyed by their own id, and task rows by their own
    title, so task titles are pairwise distinct;
  - the `unique` email and username columns hold no duplicates;
  - every generated user id is below the identity counter;
  - every task has an owner, and it is an existing user. The owner column is
    nullable, but the model cannot represent a null owner: `create` and
    `editUser` only ever set a user they have just looked up, and no core
    operation deletes a user.

  Every method of `TaskServiceImpl` keeps that invariant. Each one either fails
  with one typed error and leaves the tasks unchanged, or changes exactly one
  task. `EditTitle` also moves that task from its old title key to the new one. The permission helper checks three things in a fixed
  order: the acting user, then the task, then the owner. The owner comparison is
  object identity in the source; within one persistence context that is the
  same as comparing user ids.
- **The bearer filter** (`AuthFilter`). It covers the `Authorization: Bearer
  <token>` scheme of section 2.1 of RFC 6750 and the authentication branch of
  `doFilterInternal`. Token validity, the subject of a token and token issue
  are an abstract `TokenCodec`. The context the filter writes is a
  `SecurityContext` object. The rest of the chain is a `FilterChain` object.
  For each run it records the authentication the context held, so the number
  of runs is the length of that record and the order "write the context, then
  run the chain" is stated.
- **Principal resolution** (`UserDetails`). An email is looked up and the
  user's roles are mapped to authority names.
- **Registration and login** (`AuthService`).
- **The exception handler** (`ExceptionHandler`). It maps each error kind to a
  status code and keeps the exception's message.

Two places where the code and its own documentation disagree. The
model follows the code in both:

- The Javadoc of `JwtGenerator.validateToken` contradicts itself. Its
  `@return` line promises true for a valid token and false otherwise
  (`JwtGenerator.java:70`). Its `@throws` line says it throws
  `AuthenticationCredentialsNotFoundException` when the token is expired or
  incorrect (`JwtGenerator.java:71`). The code follows the `@throws` line: it
  never returns false and throws for an invalid token
  (`JwtGenerator.java:80-81`). So the filter's
  `hasText(token) && validateToken(token)` never sees false. A present but
  invalid token ends the filter with an error; nothing is written and the
  chain is not reached (`AuthFilter.Authenticate`, `Rejected`).
- `register` is documented to check whether a user with the given email
  already exists, and to throw an input-data error in that case
  (`AuthServiceImpl.java:68`, `73`). The check at `AuthServiceImpl.java:76`
  passes the DTO's *username* to `existsByEmail`. A genuinely duplicate email
  therefore passes that check. The insert then breaks the unique email column,
  and the error is reported as a registration failure (500), not an input
  error (400). `AuthService.AuthServiceImpl.Register` states this case on its own.

## Model

| member | source | states |
|---|---|---|
| `ExceptionHandler.Handle` | src/main/java/com/example/tasksmanager/controller/CustomExceptionHandler.java:15-53 | the reason is the exception's message; status 400 exactly for input-data and unreadable-message errors, 401 exactly for unauthorized, 403 exactly for permission, 500 exactly for create/delete/edit/register failures |
| `Repositories.ExistsByEmail` | src/main/java/com/example/tasksmanager/repository/UserRepository.java:41 | true exactly when some stored row has that email, that is, when the email is among the values of the email column |
| `Repositories.FindByEmail` | src/main/java/com/example/tasksmanager/repository/UserRepository.java:25 | finds a user exactly when some row has that email, and then returns that stored row |
| `Repositories.FindByUsername` | src/main/java/com/example/tasksmanager/repository/UserRepository.java:33 | finds a user exactly when some row has that username, and then returns that stored row |
| `Repositories.FindRoleByName` | src/main/java/com/example/tasksmanager/repository/RoleRepository.java:19 | finds a role exactly when one is stored under that name, and it carries that name |
| `TaskService.FindUserByEmail` | src/main/java/com/example/tasksmanager/service/impl/TaskServiceImpl.java:206-209 | succeeds exactly when the email is stored, with that stored user; otherwise an unauthorized error naming the email |
| `TaskService.FindTaskByTitle` | src/main/java/com/example/tasksmanager/service/impl/TaskServiceImpl.java:218-221 | succeeds exactly when the title is stored, with that task; otherwise an input-data "not found" error |
| `TaskService.GetTaskIfUserHasPermission` | src/main/java/com/example/tasksmanager/service/impl/TaskServiceImpl.java:187-197 | unknown acting email gives unauthorized; else a missing title gives input-data; else an owner whose email differs gives permission; succeeds exactly when the task's owner row has the acting email, and returns the stored task unchanged |
| `TaskService.TransferRevokesPermission` | src/main/java/com/example/tasksmanager/service/impl/TaskServiceImpl.java:188-194 | after a task's owner is set to another user, the former owner's permission check fails with a permission error (the check reads the current owner) |
| `TaskService.TaskServiceImpl.Create` | src/main/java/com/example/tasksmanager/service/impl/TaskServiceImpl.java:53-66 | a taken title fails with input-data first, even for an unknown user; then an unknown email fails with unauthorized; on success exactly one task is added with the DTO's title, description and date, owned by the user with that email; failures leave the tasks unchanged; keeps the store invariant |
| `TaskService.TaskServiceImpl.Delete` | src/main/java/com/example/tasksmanager/service/impl/TaskServiceImpl.java:77-81 | succeeds exactly for the owner, removing exactly that title; any permission-helper failure is returned as is with the tasks unchanged |
| `TaskService.TaskServiceImpl.EditTitle` | src/main/java/com/example/tasksmanager/service/impl/TaskServiceImpl.java:109-120 | a taken new title (its own title included) fails with input-data before any other check; otherwise helper failures pass through; on success only that task's title changes and it is re-keyed under the new title; titles stay distinct |
| `TaskService.TaskServiceImpl.EditDescription` | src/main/java/com/example/tasksmanager/service/impl/TaskServiceImpl.java:132-137 | succeeds exactly for the owner; only that task's description changes; failures are the helper's and change nothing |
| `TaskService.TaskServiceImpl.EditDate` | src/main/java/com/example/tasksmanager/service/impl/TaskServiceImpl.java:149-154 | succeeds exactly for the owner; only that task's date changes; failures are the helper's and change nothing |
| `TaskService.TaskServiceImpl.EditUser` | src/main/java/com/example/tasksmanager/service/impl/TaskServiceImpl.java:168-177 | the permission check runs first; then an unknown username (looked up by username, not email) fails with input-data and changes nothing; on success only the owner changes, to the user with that username |
| `UserDetails.MapRolesToAuthorities` | src/main/java/com/example/tasksmanager/jwt/JwtUserDetailsService.java:55-57 | one authority per role, in the same order, each the role's name |
| `UserDetails.LoadUserByUsername` | src/main/java/com/example/tasksmanager/jwt/JwtUserDetailsService.java:43-47 | fails with user-not-found exactly when the email is unknown; otherwise the principal's name is the email, its password is the stored hash, and its authorities are exactly that user's role names |
| `AuthFilter.GetJwtFromRequest` | src/main/java/com/example/tasksmanager/jwt/JwtAuthenticationFilter.java:64-70 | yields a token exactly when the header has text and starts with the case-sensitive "Bearer "; the header is then "Bearer " followed by the token |
| `AuthFilter.BearerPrefixSuffices` | src/main/java/com/example/tasksmanager/jwt/JwtAuthenticationFilter.java:66 | the text test is implied by the prefix test: a header yields a token exactly when it starts with "Bearer " |
| `AuthFilter.BearerRoundTrip` | src/main/java/com/example/tasksmanager/jwt/JwtAuthenticationFilter.java:66-67 | for the header "Bearer " + t the extracted token is exactly t |
| `AuthFilter.Authenticate` | src/main/java/com/example/tasksmanager/jwt/JwtAuthenticationFilter.java:44-54 | anonymous exactly when there is no token with text; rejected with the "JWT was exprired or incorrect" error exactly when such a token does not validate; rejected with "User not found" exactly when it validates but its subject is not stored; authenticated exactly when it validates and its subject is stored, and then the principal is the resolved subject, the authorities are the principal's, the credentials are null and the token is marked authenticated |
| `AuthFilter.BearerTokenAuthenticates` | src/main/java/com/example/tasksmanager/jwt/JwtAuthenticationFilter.java:45-53 | a bearer header with a valid token whose subject is a stored email authenticates, with that email as the name |
| `AuthFilter.IssuedTokenAuthenticates` | src/main/java/com/example/tasksmanager/jwt/JwtGenerator.java:35-49 | with a codec whose issued tokens are non-blank, verify and carry their subject, the token issued for a stored email, sent back as a bearer header, authenticates as that email |
| `AuthFilter.FilterChain.DoFilter` | src/main/java/com/example/tasksmanager/jwt/JwtAuthenticationFilter.java:55 | one more run of the rest of the chain, recording the context's current authentication |
| `AuthFilter.JwtAuthenticationFilter.DoFilterInternal` | src/main/java/com/example/tasksmanager/jwt/JwtAuthenticationFilter.java:44-56 | writes the context only on successful authentication, to that authentication; invokes the chain exactly once unless rejected, and then not at all; the chain sees the context after the write; returns the rejection's error |
| `AuthService.RegisteredPrincipalIsUser` | src/main/java/com/example/tasksmanager/service/impl/AuthServiceImpl.java:82-83 | a user whose role list is just USER, as registration stores it, resolves to a principal whose authorities are exactly {USER} |
| `AuthService.AuthServiceImpl.Register` | src/main/java/com/example/tasksmanager/service/impl/AuthServiceImpl.java:75-92 | a stored email equal to the DTO's username fails with input-data; otherwise a unique-column clash or a store failure fails with a registration error (so a duplicate email alone gives a registration error); on success exactly one user is added with a fresh id, the DTO's email and username, the encoder's hash of the password and roles exactly [USER]; failures add no user; keeps the store invariant |
| `AuthService.AuthServiceImpl.Login` | src/main/java/com/example/tasksmanager/service/impl/AuthServiceImpl.java:55-63 | a rejected login propagates and leaves the context alone; otherwise the authentication is written to the context and the result is the token issued for its name |

## Left out

- Token signing and verification (JWT per RFC 7519, HS512 per section 3.2 of RFC 7518) live inside a library. They are the abstract `Security.TokenCodec`. The per-process key, the clock, the expiry arithmetic and the printing of issued tokens are not modelled. `Security.Sound` states what a signing codec promises, as a premise only.
- Route protection in `SecurityConfig.java` is framework configuration. Only the public pattern list is recorded (`SecurityConfig.PublicPatterns`). The Ant-style matching and the entry point that answers 401 are not modelled.
- Logging is not modelled: the slf4j calls in the task service and in registration only write messages and change nothing the model observes.
- Controllers and HTTP wiring are not modelled. The acting email that the controllers read from the context is a parameter of each task-service method.
- `showMyTasks` and `showAllUsers` are not modelled. Their paging and result order are defined by the framework.
- Mappers are generated field copying. Their effect is written inline: a new task gets the DTO's title, description and date; a new user gets the DTO's email and username and the encoded password.
- Task ids are not modelled, because the core finds tasks by title only. User ids are a counter standing for the identity column. Whether a failed insert uses up an id is not modelled.
- Persistence failures in the task operations are not modelled: saving and deleting a task always succeed. So the create, delete and edit exception kinds are never produced. The source never throws them either; the handler still maps them.
- Transactions, concurrent requests and the thread-local security context are not modelled; the context is one object. Dates are opaque millisecond values, and HTTP request details attached to the authentication are not modelled.
- Argument checks inside the framework's `User` and `SimpleGrantedAuthority` constructors are not modelled, for example the rejection of an empty username or a blank role name.
- `UserDetails.LoadUserByUsername`: the principal's authorities are a set, because the framework's `User` keeps them in a sorted set. Order and count are kept by `UserDetails.MapRolesToAuthorities`, not by the principal.
- `AuthService.AuthServiceImpl.Login`: the authentication manager and the password check are one abstract function, so the contract says only that login delegates, writes the context and returns a token.
- `AuthService.AuthServiceImpl.Register`: it requires that exactly one role named USER exists. At least one, because the source's `.get()` has no fallback. At most one, because `RoleEntity.name` has no unique constraint (`RoleEntity.java:27`), and a single-result `findByName` over two matching rows throws a non-unique-result error. Neither failure is modelled.
