/** The persistent records (UserEntity, RoleEntity, TaskEntity) and the request DTOs. */
module Entities {

  /** The generated primary key of a user row. */
  type UserId = nat

  /** The generated primary key of a role row. */
  type RoleId = nat

  datatype Role = Role(id: RoleId, name: string)

  /** A user row; `password` holds the encoder's hash, never the raw password. */
  datatype User = User(id: UserId, email: string, username: string, password: string, roles: seq<Role>)

  /** A `java.sql.Date`, kept opaque as its millisecond value. */
  datatype Date = Date(millis: int)

  /** A task row. The owner is the id of the referenced user row: within one
      persistence context JPA hands out one object per row, so the identity
      comparison of the service is a comparison of ids. */
  datatype Task = Task(title: string, description: string, owner: UserId, date: Date)

  datatype CreateTaskDto = CreateTaskDto(title: string, description: string, date: Date)

  datatype RegisterDto = RegisterDto(email: string, username: string, password: string)

  datatype LoginDto = LoginDto(email: string, password: string)
}
