/** The JSON responses the handlers write (pkg/responses/messages.go) and the
    HTTP status codes they use. */
module Responses {
  import opened Entities

  const StatusOK := 200
  const StatusCreated := 201
  const StatusBadRequest := 400
  const StatusNotFound := 404
  const StatusInternalServerError := 500

  /** A JSON body: `{"message": ...}`, one user, or a list of users. */
  datatype Body = Message(text: string) | OneUser(user: User) | UserList(users: seq<User>)

  /** One `c.JSON(status, body)` call. */
  datatype Response = Response(status: int, body: Body)

  const UserNotFound := Message("User not found")
  const ErrorRetrievingUsers := Message("Unable to retrieve users")
  const InvalidLimitParam := Message("Invalid limit parameter; must be a number")
  const InvalidOffsetParam := Message("Invalid offset parameter; must be a number")
  const InvalidIDParam := Message("Invalid UUID parameter; must be a UUID")
  const ErrorParsingJSON := Message("Unable to parse request body as JSON")
  const UserCreationError := Message("Unable to create user")
  const UserUpdateError := Message("Unable to update user")
  const UserDeleteError := Message("Unable to delete user")
  const UserDeletionSuccess := Message("User successfully deleted")
  const InternalServerError := Message("An internal server error has occurred")
  const EmailAlreadyExists := Message("Email already exists")
  const UsernameAlreadyExists := Message("Username already exists")
}
