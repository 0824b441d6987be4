/** The values that flow through the users service: the persisted user row and
    the two request bodies (internal/users/dto.go). */
module Entities {

  /** A parsed 128-bit UUID; only its identity matters to the model. */
  datatype Uuid = Uuid(value: nat)

  /** A point in time, as produced by `time.Now()` or stored by PostgreSQL. */
  type Timestamp = int

  /** A row of the `users` table. */
  datatype User = User(
    uuid: Uuid,
    username: string,
    email: string,
    passwordHash: string,
    createdAt: Timestamp,
    updatedAt: Timestamp)

  /** Body of `POST /api/users`. */
  datatype CreateUserDto = CreateUserDto(username: string, email: string, password: string)

  /** Body of `PUT /api/users/:uuid`; an empty string means "not supplied". */
  datatype UpdateUserDto = UpdateUserDto(username: string, email: string, password: string)
}
