/** The JPA repositories (users, roles, tasks) as maps, the derived queries the
    core calls, and the table constraints the database enforces. */
module Repositories {
  import opened Results
  import opened Entities

  /** The values of the email column. */
  function Emails(users: map<UserId, User>): set<string> {
    set id | id in users :: users[id].email
  }

  /** `existsByEmail`: the email is one of the values of the email column. */
  predicate ExistsByEmail(users: map<UserId, User>, email: string)
    ensures ExistsByEmail(users, email) <==> email in Emails(users)
  {
    exists id :: id in users && users[id].email == email
  }

  /** Some user row has this username. */
  predicate ExistsByUsername(users: map<UserId, User>, username: string) {
    exists id :: id in users && users[id].username == username
  }

  /** Rows are keyed by their id, and the `unique` columns email and username hold no duplicates. */
  ghost predicate UsersWellFormed(users: map<UserId, User>) {
    && (forall id :: id in users ==> users[id].id == id)
    && (forall a, b :: a in users && b in users && users[a].email == users[b].email ==> a == b)
    && (forall a, b :: a in users && b in users && users[a].username == users[b].username ==> a == b)
  }

  /** `findByEmail`: the row with that email, if any. */
  function FindByEmail(users: map<UserId, User>, email: string): (r: Option<User>)
    requires UsersWellFormed(users)
    ensures r.Some? <==> ExistsByEmail(users, email)
    ensures r.Some? ==> r.value.id in users && users[r.value.id] == r.value && r.value.email == email
  {
    if ExistsByEmail(users, email) then
      var id :| id in users && users[id].email == email;
      Some(users[id])
    else
      None
  }

  /** `findByUsername`: the row with that username, if any. */
  function FindByUsername(users: map<UserId, User>, username: string): (r: Option<User>)
    requires UsersWellFormed(users)
    ensures r.Some? <==> ExistsByUsername(users, username)
    ensures r.Some? ==> r.value.id in users && users[r.value.id] == r.value && r.value.username == username
  {
    if ExistsByUsername(users, username) then
      var id :| id in users && users[id].username == username;
      Some(users[id])
    else
      None
  }

  /** No two role rows share `name`: what a single-result query by name needs. */
  ghost predicate AtMostOneRoleNamed(roles: map<RoleId, Role>, name: string) {
    forall a, b :: a in roles && b in roles && roles[a].name == name && roles[b].name == name ==> a == b
  }

  /** Role rows are keyed by their id. */
  ghost predicate RolesKeyedById(roles: map<RoleId, Role>) {
    forall id :: id in roles ==> roles[id].id == id
  }

  /** `roleRepository.findByName`. */
  function FindRoleByName(roles: map<RoleId, Role>, name: string): (r: Option<Role>)
    requires AtMostOneRoleNamed(roles, name)
    ensures r.Some? <==> exists id :: id in roles && roles[id].name == name
    ensures r.Some? ==> r.value in roles.Values && r.value.name == name
  {
    if exists id :: id in roles && roles[id].name == name then
      var id :| id in roles && roles[id].name == name;
      Some(roles[id])
    else
      None
  }

  /** The task table is keyed by title: each key is its task's own title, so
      titles are pairwise distinct (the `unique` title column). */
  ghost predicate TasksKeyedByTitle(tasks: map<string, Task>) {
    forall t :: t in tasks ==> tasks[t].title == t
  }

  /** Every task has an owner, and it is an existing user row. The owner column
      is a nullable reference, but the model has no null owner: the only
      operations that set it (create and editUser) set a user they have just
      looked up, and no core operation deletes a user. */
  ghost predicate OwnersExist(users: map<UserId, User>, tasks: map<string, Task>) {
    forall t :: t in tasks ==> tasks[t].owner in users
  }

  /** The shared database behind the repositories. `nextUserId` is the identity
      column's next value. */
  class Database {
    var users: map<UserId, User>
    var roles: map<RoleId, Role>
    var tasks: map<string, Task>
    var nextUserId: UserId

    ghost predicate Valid()
      reads this
    {
      && UsersWellFormed(users)
      && (forall id :: id in users ==> id < nextUserId)
      && RolesKeyedById(roles)
      && TasksKeyedByTitle(tasks)
      && OwnersExist(users, tasks)
    }

    constructor (users: map<UserId, User>, roles: map<RoleId, Role>, tasks: map<string, Task>, nextUserId: UserId)
      requires UsersWellFormed(users) && (forall id :: id in users ==> id < nextUserId)
      requires RolesKeyedById(roles) && TasksKeyedByTitle(tasks) && OwnersExist(users, tasks)
      ensures Valid()
      ensures this.users == users && this.roles == roles && this.tasks == tasks && this.nextUserId == nextUserId
    {
      this.users := users;
      this.roles := roles;
      this.tasks := tasks;
      this.nextUserId := nextUserId;
    }
  }
}
