/** TaskServiceImpl: creating, deleting and editing tasks, guarded by the
    "fetch and check the owner" helper. The acting user is identified by the
    email the authentication filter put in the security context. */
module TaskService {
  import opened Results
  import opened Entities
  import opened Errors
  import opened Repositories

  function TaskExistsMessage(title: string): string { "Task " + title + " already exist" }
  function TitleTakenMessage(title: string): string { "Title '" + title + "'is already taken" }
  function NewOwnerMissingMessage(username: string): string { "User '" + username + "' does not exist" }
  function EmailNotFoundMessage(email: string): string { "User with email '" + email + "' not found" }
  function TaskNotFoundMessage(title: string): string { "Task with title '" + title + "' not found" }
  const PermissionMessage := "You do not have permission to change task"

  /** The task's owner row is the user with this email. */
  predicate OwnedBy(users: map<UserId, User>, task: Task, email: string) {
    task.owner in users && users[task.owner].email == email
  }

  /** `findUserByEmail`: an unknown email is an authentication failure. */
  function FindUserByEmail(users: map<UserId, User>, email: string): (r: Result<User, Error>)
    requires UsersWellFormed(users)
    ensures r.Success? <==> ExistsByEmail(users, email)
    ensures r.Success? ==> r.value.id in users && users[r.value.id] == r.value && r.value.email == email
    ensures r.Failure? ==> r.error == Error(Unauthorized, EmailNotFoundMessage(email))
  {
    match FindByEmail(users, email)
    case Some(user) => Success(user)
    case None => Failure(Error(Unauthorized, EmailNotFoundMessage(email)))
  }

  /** `findTaskByTitle`: an unknown title is an input-data error. */
  function FindTaskByTitle(tasks: map<string, Task>, title: string): (r: Result<Task, Error>)
    ensures r.Success? <==> title in tasks
    ensures r.Success? ==> r.value == tasks[title]
    ensures r.Failure? ==> r.error == Error(InputData, TaskNotFoundMessage(title))
  {
    if title in tasks then Success(tasks[title]) else Failure(Error(InputData, TaskNotFoundMessage(title)))
  }

  /** `getTaskIfUserHasPermission`: look up the acting user, then the task, then
      compare the task's owner with that user. Each failure names the first check
      that failed; on success the stored task is returned as it is. */
  function GetTaskIfUserHasPermission(users: map<UserId, User>, tasks: map<string, Task>, title: string, email: string)
    : (r: Result<Task, Error>)
    requires UsersWellFormed(users)
    ensures r.Failure? && r.error.kind.Unauthorized? <==> !ExistsByEmail(users, email)
    ensures r.Failure? && r.error.kind.InputData? <==> ExistsByEmail(users, email) && title !in tasks
    ensures r.Failure? && r.error.kind.Permission? <==>
              ExistsByEmail(users, email) && title in tasks && !OwnedBy(users, tasks[title], email)
    ensures r.Success? <==> title in tasks && OwnedBy(users, tasks[title], email)
    ensures r.Success? ==> r.value == tasks[title]
    ensures r.Failure? ==> r.error.kind in {Unauthorized, InputData, Permission}
  {
    var user :- FindUserByEmail(users, email);
    var task :- FindTaskByTitle(tasks, title);
    if task.owner != user.id then Failure(Error(Permission, PermissionMessage)) else Success(task)
  }

  /** A transfer of ownership is seen by the next permission check: once a task
      belongs to another row, its former owner is refused. */
  lemma TransferRevokesPermission(users: map<UserId, User>, tasks: map<string, Task>,
                                  title: string, email: string, newOwner: UserId)
    requires UsersWellFormed(users)
    requires title in tasks && OwnedBy(users, tasks[title], email)
    requires newOwner in users && newOwner != tasks[title].owner
    ensures var r := GetTaskIfUserHasPermission(users, tasks[title := tasks[title].(owner := newOwner)], title, email);
            r.Failure? && r.error.kind.Permission?
  {
  }

  class TaskServiceImpl {
    const db: Database

    constructor (db: Database)
      ensures this.db == db
    {
      this.db := db;
    }

    /** `create`: the title check comes first, then the acting user's lookup. */
    method Create(dto: CreateTaskDto, email: string) returns (r: Outcome<Error>)
      requires db.Valid()
      modifies db`tasks
      ensures db.Valid()
      ensures dto.title in old(db.tasks) ==> r == Fail(Error(InputData, TaskExistsMessage(dto.title)))
      ensures dto.title !in old(db.tasks) && !ExistsByEmail(db.users, email) ==>
                r == Fail(Error(Unauthorized, EmailNotFoundMessage(email)))
      ensures r.Pass? <==> dto.title !in old(db.tasks) && ExistsByEmail(db.users, email)
      ensures r.Pass? ==> db.tasks == old(db.tasks)[dto.title :=
                            Task(dto.title, dto.description, FindByEmail(db.users, email).value.id, dto.date)]
      ensures r.Fail? ==> db.tasks == old(db.tasks)
    {
      if dto.title in db.tasks {
        return Fail(Error(InputData, TaskExistsMessage(dto.title)));
      }
      var found := FindUserByEmail(db.users, email);
      if found.Failure? {
        return Fail(found.error);
      }
      var task := Task(dto.title, dto.description, found.value.id, dto.date);
      db.tasks := db.tasks[dto.title := task];
      r := Pass;
    }

    /** `delete`: only the owner may remove a task; nothing else is touched. */
    method Delete(title: string, email: string) returns (r: Outcome<Error>)
      requires db.Valid()
      modifies db`tasks
      ensures db.Valid()
      ensures r.Pass? <==> title in old(db.tasks) && OwnedBy(db.users, old(db.tasks)[title], email)
      ensures r.Pass? ==> db.tasks == old(db.tasks) - {title}
      ensures r.Fail? ==> db.tasks == old(db.tasks)
      ensures r.Fail? ==> r.error == GetTaskIfUserHasPermission(db.users, old(db.tasks), title, email).error
    {
      var checked := GetTaskIfUserHasPermission(db.users, db.tasks, title, email);
      if checked.Failure? {
        return Fail(checked.error);
      }
      db.tasks := db.tasks - {checked.value.title};
      r := Pass;
    }

    /** `editTitle`: a taken new title is refused before any other check (so
        renaming a task to its own title is refused too); otherwise only the
        title of that one task changes. */
    method EditTitle(title: string, newTitle: string, email: string) returns (r: Outcome<Error>)
      requires db.Valid()
      modifies db`tasks
      ensures db.Valid()
      ensures newTitle in old(db.tasks) ==> r == Fail(Error(InputData, TitleTakenMessage(newTitle)))
      ensures newTitle !in old(db.tasks) && GetTaskIfUserHasPermission(db.users, old(db.tasks), title, email).Failure? ==>
                r == Fail(GetTaskIfUserHasPermission(db.users, old(db.tasks), title, email).error)
      ensures r.Pass? <==> newTitle !in old(db.tasks) && title in old(db.tasks)
                           && OwnedBy(db.users, old(db.tasks)[title], email)
      ensures r.Pass? ==> db.tasks == (old(db.tasks) - {title})[newTitle := old(db.tasks)[title].(title := newTitle)]
      ensures r.Fail? ==> db.tasks == old(db.tasks)
    {
      if newTitle in db.tasks {
        return Fail(Error(InputData, TitleTakenMessage(newTitle)));
      }
      var checked := GetTaskIfUserHasPermission(db.users, db.tasks, title, email);
      if checked.Failure? {
        return Fail(checked.error);
      }
      var task := checked.value;
      db.tasks := (db.tasks - {task.title})[newTitle := task.(title := newTitle)];
      r := Pass;
    }

    /** `editDescription`: only the description of that one task changes. */
    method EditDescription(title: string, newDescription: string, email: string) returns (r: Outcome<Error>)
      requires db.Valid()
      modifies db`tasks
      ensures db.Valid()
      ensures r.Pass? <==> title in old(db.tasks) && OwnedBy(db.users, old(db.tasks)[title], email)
      ensures r.Pass? ==> db.tasks == old(db.tasks)[title := old(db.tasks)[title].(description := newDescription)]
      ensures r.Fail? ==> db.tasks == old(db.tasks)
      ensures r.Fail? ==> r.error == GetTaskIfUserHasPermission(db.users, old(db.tasks), title, email).error
    {
      var checked := GetTaskIfUserHasPermission(db.users, db.tasks, title, email);
      if checked.Failure? {
        return Fail(checked.error);
      }
      var task := checked.value;
      db.tasks := db.tasks[task.title := task.(description := newDescription)];
      r := Pass;
    }

    /** `editDate`: only the date of that one task changes. */
    method EditDate(title: string, newDate: Date, email: string) returns (r: Outcome<Error>)
      requires db.Valid()
      modifies db`tasks
      ensures db.Valid()
      ensures r.Pass? <==> title in old(db.tasks) && OwnedBy(db.users, old(db.tasks)[title], email)
      ensures r.Pass? ==> db.tasks == old(db.tasks)[title := old(db.tasks)[title].(date := newDate)]
      ensures r.Fail? ==> db.tasks == old(db.tasks)
      ensures r.Fail? ==> r.error == GetTaskIfUserHasPermission(db.users, old(db.tasks), title, email).error
    {
      var checked := GetTaskIfUserHasPermission(db.users, db.tasks, title, email);
      if checked.Failure? {
        return Fail(checked.error);
      }
      var task := checked.value;
      db.tasks := db.tasks[task.title := task.(date := newDate)];
      r := Pass;
    }

    /** `editUser`: the ownership check runs first; the new owner is then looked
        up by username (not by email); on success only the owner changes. */
    method EditUser(title: string, newUsername: string, email: string) returns (r: Outcome<Error>)
      requires db.Valid()
      modifies db`tasks
      ensures db.Valid()
      ensures GetTaskIfUserHasPermission(db.users, old(db.tasks), title, email).Failure? ==>
                r == Fail(GetTaskIfUserHasPermission(db.users, old(db.tasks), title, email).error)
      ensures GetTaskIfUserHasPermission(db.users, old(db.tasks), title, email).Success?
              && !ExistsByUsername(db.users, newUsername) ==>
                r == Fail(Error(InputData, NewOwnerMissingMessage(newUsername)))
      ensures r.Pass? <==> title in old(db.tasks) && OwnedBy(db.users, old(db.tasks)[title], email)
                           && ExistsByUsername(db.users, newUsername)
      ensures r.Pass? ==> db.tasks == old(db.tasks)[title :=
                            old(db.tasks)[title].(owner := FindByUsername(db.users, newUsername).value.id)]
      ensures r.Fail? ==> db.tasks == old(db.tasks)
    {
      var checked := GetTaskIfUserHasPermission(db.users, db.tasks, title, email);
      if checked.Failure? {
        return Fail(checked.error);
      }
      var task := checked.value;
      var newOwner := FindByUsername(db.users, newUsername);
      if newOwner.None? {
        return Fail(Error(InputData, NewOwnerMissingMessage(newUsername)));
      }
      db.tasks := db.tasks[task.title := task.(owner := newOwner.value.id)];
      r := Pass;
    }
  }
}
