/** The HTTP handlers (internal/users/handler.go). Each handler is an
    early-return chain whose only effect is one `c.JSON` call; it is modelled
    as a function from what the request and the service produced to the
    response written. The parsed UUID path parameter is `None` when
    `uuid.Parse` fails, a parsed body is `None` when `c.BindJSON` fails, and
    the service is a function parameter, so a response that does not depend
    on that parameter is one written without calling the service. */
module Handler {
  import opened Wrappers
  import opened Entities
  import opened GoErrors
  import opened Decimal
  import opened Params
  import opened Validation
  import opened ErrorMessages
  import opened Responses
  import opened UniqueViolation
  import Repository

  const DefaultLimit := 1000000
  const DefaultOffset := 0

  /** `GET /api/users/:uuid`. */
  function GetUserByID(id: Option<Uuid>, getUser: Uuid -> Result<User, Error>): (r: Response)
    ensures id.None? ==> r == Response(StatusBadRequest, InvalidIDParam)
    ensures id.Some? && getUser(id.value).Ok? ==>
      r == Response(StatusOK, OneUser(getUser(id.value).value))
    ensures id.Some? && getUser(id.value).Err? && IsNoRows(getUser(id.value).error) ==>
      r == Response(StatusNotFound, UserNotFound)
    ensures id.Some? && getUser(id.value).Err? && !IsNoRows(getUser(id.value).error) ==>
      r == Response(StatusInternalServerError, InternalServerError)
  {
    if id.None? then Response(StatusBadRequest, InvalidIDParam)
    else
      var res := getUser(id.value);
      if res.Err? then
        if IsNoRows(res.error) then Response(StatusNotFound, UserNotFound)
        else Response(StatusInternalServerError, InternalServerError)
      else Response(StatusOK, OneUser(res.value))
  }

  /** `GET /api/users?limit=..&offset=..`; an absent parameter is "". */
  function GetUsers(limitParam: string, offsetParam: string,
                    getAll: (int, int) -> Result<seq<User>, Error>): (r: Response)
    ensures ParseQueryParam(limitParam, DefaultLimit).Err? ==>
      r == Response(StatusBadRequest, InvalidLimitParam)
    ensures ParseQueryParam(limitParam, DefaultLimit).Ok? && ParseQueryParam(offsetParam, DefaultOffset).Err? ==>
      r == Response(StatusBadRequest, InvalidOffsetParam)
    ensures ParseQueryParam(limitParam, DefaultLimit).Ok? && ParseQueryParam(offsetParam, DefaultOffset).Ok? ==>
      var res := getAll(ParseQueryParam(limitParam, DefaultLimit).value,
                        ParseQueryParam(offsetParam, DefaultOffset).value);
      && (res.Ok? ==> r == Response(StatusOK, UserList(res.value)))
      && (res.Err? && IsNoRows(res.error) ==> r == Response(StatusNotFound, UserNotFound))
      && (res.Err? && !IsNoRows(res.error) ==> r == Response(StatusInternalServerError, ErrorRetrievingUsers))
  {
    var limit := ParseQueryParam(limitParam, DefaultLimit);
    if limit.Err? then Response(StatusBadRequest, InvalidLimitParam)
    else
      var offset := ParseQueryParam(offsetParam, DefaultOffset);
      if offset.Err? then Response(StatusBadRequest, InvalidOffsetParam)
      else
        var res := getAll(limit.value, offset.value);
        if res.Err? then
          if IsNoRows(res.error) then Response(StatusNotFound, UserNotFound)
          else Response(StatusInternalServerError, ErrorRetrievingUsers)
        else Response(StatusOK, UserList(res.value))
  }

  /** `POST /api/users`. */
  function CreateUser(body: Option<CreateUserDto>, isEmail: EmailSyntax,
                      create: CreateUserDto -> Result<User, Error>): (r: Response)
    ensures body.None? ==> r == Response(StatusBadRequest, ErrorParsingJSON)
    ensures body.Some? && CreateErrors(body.value, isEmail) != [] ==>
      r == Response(StatusBadRequest, Message(LastMessage(CreateErrors(body.value, isEmail))))
    ensures body.Some? && CreateErrors(body.value, isEmail) == [] ==>
      var res := create(body.value);
      && (res.Ok? ==> r == Response(StatusCreated, OneUser(res.value)))
      && (res.Err? && HandleUniqueViolation(res.error).Some? ==> r == HandleUniqueViolation(res.error).value)
      && (res.Err? && HandleUniqueViolation(res.error).None? ==> r == Response(StatusBadRequest, UserCreationError))
  {
    if body.None? then Response(StatusBadRequest, ErrorParsingJSON)
    else
      var dto := body.value;
      var errs := CreateErrors(dto, isEmail);
      if errs != [] then Response(StatusBadRequest, Message(LastMessage(errs)))
      else
        var res := create(CreateUserDto(dto.username, dto.email, dto.password));
        if res.Err? then
          match HandleUniqueViolation(res.error)
          case Some(written) => written
          case None => Response(StatusBadRequest, UserCreationError)
        else Response(StatusCreated, OneUser(res.value))
  }

  /** `PUT /api/users/:uuid`. */
  function UpdateUser(id: Option<Uuid>, body: Option<UpdateUserDto>, isEmail: EmailSyntax,
                      update: (Uuid, UpdateUserDto) -> Result<User, Error>): (r: Response)
    ensures id.None? ==> r == Response(StatusBadRequest, InvalidIDParam)
    ensures id.Some? && body.None? ==> r == Response(StatusBadRequest, ErrorParsingJSON)
    ensures id.Some? && body.Some? && UpdateErrors(body.value, isEmail) != [] ==>
      r == Response(StatusBadRequest, Message(LastMessage(UpdateErrors(body.value, isEmail))))
    ensures id.Some? && body.Some? && UpdateErrors(body.value, isEmail) == [] ==>
      var res := update(id.value, body.value);
      && (res.Ok? ==> r == Response(StatusOK, OneUser(res.value)))
      && (res.Err? && IsNoRows(res.error) ==> r == Response(StatusNotFound, UserNotFound))
      && (res.Err? && !IsNoRows(res.error) ==> r == Response(StatusBadRequest, UserUpdateError))
  {
    if id.None? then Response(StatusBadRequest, InvalidIDParam)
    else if body.None? then Response(StatusBadRequest, ErrorParsingJSON)
    else
      var errs := UpdateErrors(body.value, isEmail);
      if errs != [] then Response(StatusBadRequest, Message(LastMessage(errs)))
      else
        var res := update(id.value, body.value);
        if res.Err? then
          if IsNoRows(res.error) then Response(StatusNotFound, UserNotFound)
          else Response(StatusBadRequest, UserUpdateError)
        else Response(StatusOK, OneUser(res.value))
  }

  /** `DELETE /api/users/:uuid`; the service returns Go's `error` (`None` for nil). */
  function DeleteUser(id: Option<Uuid>, delete: Uuid -> Option<Error>): (r: Response)
    ensures id.None? ==> r == Response(StatusBadRequest, InvalidIDParam)
    ensures id.Some? && delete(id.value).None? ==> r == Response(StatusOK, UserDeletionSuccess)
    ensures id.Some? && delete(id.value).Some? && IsNoRows(delete(id.value).value) ==>
      r == Response(StatusNotFound, UserNotFound)
    ensures id.Some? && delete(id.value).Some? && !IsNoRows(delete(id.value).value) ==>
      r == Response(StatusInternalServerError, UserDeleteError)
  {
    if id.None? then Response(StatusBadRequest, InvalidIDParam)
    else
      var err := delete(id.value);
      if err.Some? then
        if IsNoRows(err.value) then Response(StatusNotFound, UserNotFound)
        else Response(StatusInternalServerError, UserDeleteError)
      else Response(StatusOK, UserDeletionSuccess)
  }

  // ----- Properties across handlers -----------------------------------------

  /** A UUID that does not parse is answered with 400 before the body is read
      or the service is called: the response is the same for every body and
      every service. */
  lemma BadIdSkipsService(body1: Option<UpdateUserDto>, body2: Option<UpdateUserDto>, isEmail: EmailSyntax,
                          getUser1: Uuid -> Result<User, Error>, getUser2: Uuid -> Result<User, Error>,
                          update1: (Uuid, UpdateUserDto) -> Result<User, Error>,
                          update2: (Uuid, UpdateUserDto) -> Result<User, Error>,
                          delete1: Uuid -> Option<Error>, delete2: Uuid -> Option<Error>)
    ensures GetUserByID(None, getUser1) == GetUserByID(None, getUser2) == Response(StatusBadRequest, InvalidIDParam)
    ensures UpdateUser(None, body1, isEmail, update1) == UpdateUser(None, body2, isEmail, update2)
    ensures DeleteUser(None, delete1) == DeleteUser(None, delete2)
  {
  }

  /** A bad limit is reported whatever the offset; absent parameters reach
      the service as limit 1000000 and offset 0. */
  lemma GetUsersParameters(limitParam: string, offset1: string, offset2: string,
                           getAll1: (int, int) -> Result<seq<User>, Error>,
                           getAll2: (int, int) -> Result<seq<User>, Error>)
    ensures ParseQueryParam(limitParam, DefaultLimit).Err? ==>
      GetUsers(limitParam, offset1, getAll1) == GetUsers(limitParam, offset2, getAll2)
    ensures getAll1(1000000, 0) == getAll2(1000000, 0) ==>
      GetUsers("", "", getAll1) == GetUsers("", "", getAll2)
  {
  }

  /** A negative limit or offset is not rejected by the handler; it reaches
      the service as it is, and the store normalises it. */
  lemma NegativeParamsReachService(n: int, m: int, getAll: (int, int) -> Result<seq<User>, Error>)
    requires MinInt <= n < 0 && MinInt <= m < 0
    ensures getAll(n, m).Ok? ==> GetUsers(Itoa(n), Itoa(m), getAll) == Response(StatusOK, UserList(getAll(n, m).value))
    ensures Repository.NormalizeLimit(n) == Repository.NoLimit && Repository.NormalizeOffset(m) == 0
  {
    ParseRendered(n, DefaultLimit);
    ParseRendered(m, DefaultOffset);
  }

  /** A body that does not parse or does not validate is answered with 400
      without calling the service. */
  lemma InvalidBodySkipsService(body: Option<CreateUserDto>, isEmail: EmailSyntax,
                                create1: CreateUserDto -> Result<User, Error>,
                                create2: CreateUserDto -> Result<User, Error>,
                                id: Uuid, ubody: Option<UpdateUserDto>,
                                update1: (Uuid, UpdateUserDto) -> Result<User, Error>,
                                update2: (Uuid, UpdateUserDto) -> Result<User, Error>)
    ensures body.None? || !ValidCreate(body.value, isEmail) ==>
      CreateUser(body, isEmail, create1) == CreateUser(body, isEmail, create2) &&
      CreateUser(body, isEmail, create1).status == StatusBadRequest
    ensures ubody.None? || !ValidUpdate(ubody.value, isEmail) ==>
      UpdateUser(Some(id), ubody, isEmail, update1) == UpdateUser(Some(id), ubody, isEmail, update2) &&
      UpdateUser(Some(id), ubody, isEmail, update1).status == StatusBadRequest
  {
    if body.Some? {
      CreateErrorsEmpty(body.value, isEmail);
    }
    if ubody.Some? {
      UpdateErrorsEmpty(ubody.value, isEmail);
    }
  }

  /** `PUT /api/users/{id} {}` is answered with 400 "At least one field is
      required" and the store is never reached. */
  lemma EmptyUpdateRejected(id: Uuid, isEmail: EmailSyntax,
                            update: (Uuid, UpdateUserDto) -> Result<User, Error>)
    ensures UpdateUser(Some(id), Some(UpdateUserDto("", "", "")), isEmail, update)
      == Response(StatusBadRequest, Message("At least one field is required"))
  {
    EmptyUpdateMessage(isEmail);
  }

  /** `POST /api/users {"username":"ab",...}` is answered with 400 "Field
      Username min length 3". */
  lemma ShortUsernameRejected(isEmail: EmailSyntax, create: CreateUserDto -> Result<User, Error>)
    requires isEmail("a@b.com")
    ensures CreateUser(Some(CreateUserDto("ab", "a@b.com", "longenough")), isEmail, create)
      == Response(StatusBadRequest, Message("Field Username min length 3"))
  {
    ShortUsernameMessage(isEmail);
  }

  /** A unique violation is reported by field on create but not on update,
      where it is a generic 400. */
  lemma UniqueViolationCreateVsUpdate(dto: CreateUserDto, udto: UpdateUserDto, id: Uuid, isEmail: EmailSyntax,
                                      e: Error,
                                      create: CreateUserDto -> Result<User, Error>,
                                      update: (Uuid, UpdateUserDto) -> Result<User, Error>)
    requires IsUniqueViolation(e)
    requires ValidCreate(dto, isEmail) && create(dto) == Err(e)
    requires ValidUpdate(udto, isEmail) && update(id, udto) == Err(e)
    ensures CreateUser(Some(dto), isEmail, create) == HandleUniqueViolation(e).value
    ensures e.constraintName == UsernameKey ==>
      CreateUser(Some(dto), isEmail, create) == Response(StatusBadRequest, UsernameAlreadyExists)
    ensures e.constraintName == EmailKey ==>
      CreateUser(Some(dto), isEmail, create) == Response(StatusBadRequest, EmailAlreadyExists)
    ensures UpdateUser(Some(id), Some(udto), isEmail, update) == Response(StatusBadRequest, UserUpdateError)
  {
    CreateErrorsEmpty(dto, isEmail);
    UpdateErrorsEmpty(udto, isEmail);
  }

  /** The status codes each endpoint can answer with. */
  lemma StatusCodes(id: Option<Uuid>, limitParam: string, offsetParam: string,
                    cbody: Option<CreateUserDto>, ubody: Option<UpdateUserDto>, isEmail: EmailSyntax,
                    getUser: Uuid -> Result<User, Error>,
                    getAll: (int, int) -> Result<seq<User>, Error>,
                    create: CreateUserDto -> Result<User, Error>,
                    update: (Uuid, UpdateUserDto) -> Result<User, Error>,
                    delete: Uuid -> Option<Error>)
    ensures GetUserByID(id, getUser).status in {200, 400, 404, 500}
    ensures GetUsers(limitParam, offsetParam, getAll).status in {200, 400, 404, 500}
    ensures CreateUser(cbody, isEmail, create).status in {201, 400}
    ensures UpdateUser(id, ubody, isEmail, update).status in {200, 400, 404}
    ensures DeleteUser(id, delete).status in {200, 400, 404, 500}
  {
  }

  /** The handlers never pass an infrastructure error's text to the client:
      two errors that are both, or both not, `sql.ErrNoRows` get the same
      response. */
  lemma ErrorTextNotLeaked(id: Uuid, udto: UpdateUserDto, isEmail: EmailSyntax,
                           limitParam: string, offsetParam: string, e1: Error, e2: Error)
    requires IsNoRows(e1) == IsNoRows(e2)
    ensures GetUsers(limitParam, offsetParam, (_, _) => Err(e1))
         == GetUsers(limitParam, offsetParam, (_, _) => Err(e2))
    ensures GetUserByID(Some(id), _ => Err(e1)) == GetUserByID(Some(id), _ => Err(e2))
    ensures DeleteUser(Some(id), _ => Some(e1)) == DeleteUser(Some(id), _ => Some(e2))
    ensures UpdateUser(Some(id), Some(udto), isEmail, (_, _) => Err(e1))
         == UpdateUser(Some(id), Some(udto), isEmail, (_, _) => Err(e2))
  {
  }

  // ----- Handlers over the store ---------------------------------------------

  /** Through the store, `GET /api/users/:uuid` answers 404 exactly when the
      scan error mentions "no rows in result set" (the service passes the
      store's result through unchanged). */
  lemma GetOneNotFound(id: Uuid, e: Error)
    ensures GetUserByID(Some(id), _ => Repository.GetOne(Err(e))).status == StatusNotFound
      <==> Contains(Text(e), NoRowsText)
    ensures !Contains(Text(e), NoRowsText) ==>
      GetUserByID(Some(id), _ => Repository.GetOne(Err(e))) == Response(StatusInternalServerError, InternalServerError)
  {
    Repository.TranslateNoRowsIff(e);
  }

  /** Through the store, a valid `PUT /api/users/:uuid` answers 404 exactly
      when the scan error of the update statement mentions "no rows in result
      set", and 400 `UserUpdateError` for any other scan error (`update`
      stands for `Repository.Update`, whose result is `GetOne` of the scan). */
  lemma UpdateNotFound(id: Uuid, udto: UpdateUserDto, isEmail: EmailSyntax, e: Error)
    requires UpdateErrors(udto, isEmail) == []
    ensures UpdateUser(Some(id), Some(udto), isEmail, (_, _) => Repository.GetOne(Err(e))).status == StatusNotFound
      <==> Contains(Text(e), NoRowsText)
    ensures !Contains(Text(e), NoRowsText) ==>
      UpdateUser(Some(id), Some(udto), isEmail, (_, _) => Repository.GetOne(Err(e)))
        == Response(StatusBadRequest, UserUpdateError)
  {
    Repository.TranslateNoRowsIff(e);
  }

  /** Through the store, `DELETE /api/users/:uuid` answers 404 when nothing
      was deleted and 500 when the statement itself failed with any error
      other than `sql.ErrNoRows`. */
  lemma DeleteThroughStore(id: Uuid, exec: Result<nat, Error>)
    ensures exec == Ok(0) ==> DeleteUser(Some(id), _ => Repository.Delete(exec)) == Response(StatusNotFound, UserNotFound)
    ensures exec.Ok? && exec.value > 0 ==>
      DeleteUser(Some(id), _ => Repository.Delete(exec)) == Response(StatusOK, UserDeletionSuccess)
    ensures exec.Err? && !IsNoRows(exec.error) ==>
      DeleteUser(Some(id), _ => Repository.Delete(exec)) == Response(StatusInternalServerError, UserDeleteError)
  {
  }
}
