/** The text a validation failure is reported with
    (internal/utils/customErrorMessages.go). */
module ErrorMessages {
  import opened Entities
  import opened Validation

  /** The error `validate.Struct` returns. */
  datatype ValidateError =
    | InvalidValidation
      /** `*validator.InvalidValidationError`: the value was not a struct. */
    | ValidationErrors(errs: seq<FieldError>)
      /** `validator.ValidationErrors`, in the order the validator found them. */
    | Foreign(text: string)
      /** Any other error; `CustomErrorMessages` panics on it. */

  const InvalidInputMsg := "Invalid input"
  const AtLeastOneMsg := "At least one field is required"

  /** The message for one field error, by its tag. */
  function MessageFor(fe: FieldError): (msg: string)
    ensures msg != ""
    ensures (fe.tag == "min" || fe.tag == "max") ==>
      |fe.param| <= |msg| && msg[|msg| - |fe.param|..] == fe.param
  {
    match fe.tag
    case "required" => "Field " + fe.field + " is required"
    case "min" => "Field " + fe.field + " min length " + fe.param
    case "max" => "Field " + fe.field + " max length " + fe.param
    case "email" => "Field " + fe.field + " must be a valid email"
    case "at least one field must be present" => AtLeastOneMsg
    case _ => "Field " + fe.field + " is invalid"
  }

  /** The message of the last error of the list, or "" for none. */
  function LastMessage(errs: seq<FieldError>): (msg: string)
    ensures msg == "" <==> errs == []
  {
    if errs == [] then "" else MessageFor(errs[|errs| - 1])
  }

  /** `CustomErrorMessages`: each error of the list overwrites the message, so
      the last one wins. */
  method CustomErrorMessages(err: ValidateError) returns (errorMsg: string)
    requires !err.Foreign?
    ensures err.InvalidValidation? ==> errorMsg == InvalidInputMsg
    ensures err.ValidationErrors? ==> errorMsg == LastMessage(err.errs)
  {
    errorMsg := "";
    if err.InvalidValidation? {
      return InvalidInputMsg;
    }
    var errs := err.errs;
    var i := 0;
    while i < |errs|
      invariant 0 <= i <= |errs|
      invariant errorMsg == LastMessage(errs[..i])
    {
      var field := errs[i].field;
      var tag := errs[i].tag;
      if tag == "required" {
        errorMsg := "Field " + field + " is required";
      } else if tag == "min" {
        errorMsg := "Field " + field + " min length " + errs[i].param;
      } else if tag == "max" {
        errorMsg := "Field " + field + " max length " + errs[i].param;
      } else if tag == "email" {
        errorMsg := "Field " + field + " must be a valid email";
      } else if tag == AtLeastOneTag {
        errorMsg := AtLeastOneMsg;
      } else {
        errorMsg := "Field " + field + " is invalid";
      }
      i := i + 1;
    }
    assert errs[..i] == errs;
  }

  /** Errors before the last one do not affect the message. */
  lemma EarlierErrorsIgnored(earlier: seq<FieldError>, later: seq<FieldError>)
    requires later != []
    ensures LastMessage(earlier + later) == LastMessage(later)
  {
    var all := earlier + later;
    assert all[|all| - 1] == later[|later| - 1];
  }

  /** The struct-level message is produced by the struct-level tag and by no
      other, whatever the field name; every other message names its field. */
  lemma MessageShapes(fe: FieldError)
    ensures MessageFor(fe) == AtLeastOneMsg <==> fe.tag == AtLeastOneTag
    ensures fe.tag != AtLeastOneTag ==> "Field " + fe.field <= MessageFor(fe)
  {
    if fe.tag != AtLeastOneTag {
      var m := MessageFor(fe);
      assert m[0] == 'F';
      assert AtLeastOneMsg[0] == 'A';
    }
  }

  /** With several failing fields of a `CreateUserDto`, the reported message
      is that of the last failing field in declaration order. */
  lemma CreateMessageIsLastField(dto: CreateUserDto, isEmail: EmailSyntax)
    ensures var u := Required("Username", dto.username, UsernameLength(dto.username));
            var e := Required("Email", dto.email, EmailFormat(dto.email, isEmail));
            var p := Required("Password", dto.password, PasswordLength(dto.password));
            var msg := LastMessage(CreateErrors(dto, isEmail));
            && (p.Some? ==> msg == MessageFor(p.value))
            && (p.None? && e.Some? ==> msg == MessageFor(e.value))
            && (p.None? && e.None? && u.Some? ==> msg == MessageFor(u.value))
            && (p.None? && e.None? && u.None? ==> msg == "")
  {
  }

  /** `POST /api/users {"username":"ab","email":"a@b.com","password":"longenough"}`
      is rejected with "Field Username min length 3". */
  lemma ShortUsernameMessage(isEmail: EmailSyntax)
    requires isEmail("a@b.com")
    ensures LastMessage(CreateErrors(CreateUserDto("ab", "a@b.com", "longenough"), isEmail))
      == "Field Username min length 3"
  {
  }

  /** `PUT /api/users/{id} {}` is rejected with "At least one field is required". */
  lemma EmptyUpdateMessage(isEmail: EmailSyntax)
    ensures LastMessage(UpdateErrors(UpdateUserDto("", "", ""), isEmail)) == AtLeastOneMsg
  {
  }
}
