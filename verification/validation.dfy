/** The validation rules of the two request bodies: the struct tags of
    internal/users/dto.go and the struct-level rule registered for
    `UpdateUserDto` in cmd/main/app.go, as go-playground/validator applies
    them. Each field's tags run left to right and the first failing tag is
    that field's only error; fields are checked in declaration order and the
    struct-level rule after them. */
module Validation {
  import opened Wrappers
  import opened Entities

  /** One `validator.FieldError`: the struct field name, the failing tag and
      the tag's parameter. */
  datatype FieldError = FieldError(field: string, tag: string, param: string)

  /** The validator's email syntax check, whose regular expression is not
      modelled. */
  type EmailSyntax = string -> bool

  const MinUsername := 3
  const MaxUsername := 32
  const MinPassword := 8

  /** Tag and field name the struct-level rule reports. */
  const AtLeastOneTag := "at least one field must be present"
  const AtLeastOneField := "atLeastOneFieldRequired"

  /** `min=3,max=32` on a non-empty username. */
  function UsernameLength(u: string): (r: Option<FieldError>)
    ensures r.Some? ==> r.value.field == "Username"
  {
    if |u| < MinUsername then Some(FieldError("Username", "min", "3"))
    else if |u| > MaxUsername then Some(FieldError("Username", "max", "32"))
    else None
  }

  /** `email` on a non-empty email. */
  function EmailFormat(e: string, isEmail: EmailSyntax): (r: Option<FieldError>)
    ensures r.Some? ==> r.value.field == "Email"
  {
    if isEmail(e) then None else Some(FieldError("Email", "email", ""))
  }

  /** `min=8` on a non-empty password. */
  function PasswordLength(p: string): (r: Option<FieldError>)
    ensures r.Some? ==> r.value.field == "Password"
  {
    if |p| < MinPassword then Some(FieldError("Password", "min", "8")) else None
  }

  /** `required` in front of a field's other tags. */
  function Required(field: string, v: string, rest: Option<FieldError>): (r: Option<FieldError>)
    ensures r.Some? && (rest.Some? ==> rest.value.field == field) ==> r.value.field == field
  {
    if v == "" then Some(FieldError(field, "required", "")) else rest
  }

  /** `omitempty` in front of a field's other tags. */
  function OmitEmpty(v: string, rest: Option<FieldError>): (r: Option<FieldError>)
    ensures r.Some? ==> r == rest
  {
    if v == "" then None else rest
  }

  /** The error a field's check contributes to the list: none or one. */
  function Reported(check: Option<FieldError>): (errs: seq<FieldError>)
    ensures |errs| <= 1
  {
    if check.Some? then [check.value] else []
  }

  /** The struct-level rule of cmd/main/app.go. */
  function AtLeastOneRule(dto: UpdateUserDto): (r: Option<FieldError>)
    ensures r.Some? ==> r.value.field == AtLeastOneField
  {
    if dto.username == "" && dto.email == "" && dto.password == ""
    then Some(FieldError(AtLeastOneField, AtLeastOneTag, ""))
    else None
  }

  /** Position of a field in declaration order; the struct-level rule comes
      after the fields. */
  function FieldRank(field: string): nat
  {
    if field == "Username" then 0
    else if field == "Email" then 1
    else if field == "Password" then 2
    else 3
  }

  /** Errors appear in declaration order, at most one per field. */
  predicate InFieldOrder(errs: seq<FieldError>)
  {
    forall i, j :: 0 <= i < j < |errs| ==> FieldRank(errs[i].field) < FieldRank(errs[j].field)
  }

  lemma FieldRanks()
    ensures FieldRank("Username") == 0 && FieldRank("Email") == 1 && FieldRank("Password") == 2
    ensures FieldRank(AtLeastOneField) == 3
  {
    assert "Email" != "Username";
    assert "Password" != "Username" && "Password" != "Email";
    assert AtLeastOneField != "Username" && AtLeastOneField != "Email" && AtLeastOneField != "Password";
  }

  /** What one check of a field of rank `r` reports is in order. */
  lemma FirstReported(check: Option<FieldError>, r: nat)
    requires check.Some? ==> FieldRank(check.value.field) == r
    ensures InFieldOrder(Reported(check))
    ensures forall i :: 0 <= i < |Reported(check)| ==> FieldRank(Reported(check)[i].field) < r + 1
  {
  }

  /** Appending what a check of a field of rank `r` reports to errors of
      lower rank keeps declaration order. */
  lemma AppendReported(errs: seq<FieldError>, check: Option<FieldError>, r: nat)
    requires InFieldOrder(errs)
    requires forall i :: 0 <= i < |errs| ==> FieldRank(errs[i].field) < r
    requires check.Some? ==> FieldRank(check.value.field) == r
    ensures InFieldOrder(errs + Reported(check))
    ensures forall i :: 0 <= i < |errs + Reported(check)| ==> FieldRank((errs + Reported(check))[i].field) <= r
  {
  }

  /** The errors `validate.Struct` reports for a `CreateUserDto`. */
  function CreateErrors(dto: CreateUserDto, isEmail: EmailSyntax): (errs: seq<FieldError>)
    ensures |errs| <= 3 && InFieldOrder(errs)
  {
    var u := Required("Username", dto.username, UsernameLength(dto.username));
    var e := Required("Email", dto.email, EmailFormat(dto.email, isEmail));
    var p := Required("Password", dto.password, PasswordLength(dto.password));
    FieldRanks();
    FirstReported(u, 0);
    AppendReported(Reported(u), e, 1);
    AppendReported(Reported(u) + Reported(e), p, 2);
    Reported(u) + Reported(e) + Reported(p)
  }

  /** `required` is the first tag of every `CreateUserDto` field: an empty
      field is reported as missing, in its place in declaration order. */
  lemma CreateRequired(dto: CreateUserDto, isEmail: EmailSyntax)
    ensures var errs := CreateErrors(dto, isEmail);
      && (dto.username == "" ==> |errs| > 0 && errs[0] == FieldError("Username", "required", ""))
      && (dto.email == "" ==> FieldError("Email", "required", "") in errs)
      && (dto.password == "" ==> |errs| > 0 && errs[|errs| - 1] == FieldError("Password", "required", ""))
  {
    var u := Reported(Required("Username", dto.username, UsernameLength(dto.username)));
    var e := Reported(Required("Email", dto.email, EmailFormat(dto.email, isEmail)));
    var p := Reported(Required("Password", dto.password, PasswordLength(dto.password)));
    assert CreateErrors(dto, isEmail) == u + e + p;
    if dto.email == "" {
      assert (u + e + p)[|u|] == e[0];
    }
  }

  /** The errors `validate.Struct` reports for an `UpdateUserDto`. */
  function UpdateErrors(dto: UpdateUserDto, isEmail: EmailSyntax): (errs: seq<FieldError>)
    ensures |errs| <= 4 && InFieldOrder(errs)
  {
    var u := OmitEmpty(dto.username, UsernameLength(dto.username));
    var e := OmitEmpty(dto.email, EmailFormat(dto.email, isEmail));
    var p := OmitEmpty(dto.password, PasswordLength(dto.password));
    var s := AtLeastOneRule(dto);
    FieldRanks();
    FirstReported(u, 0);
    AppendReported(Reported(u), e, 1);
    AppendReported(Reported(u) + Reported(e), p, 2);
    AppendReported(Reported(u) + Reported(e) + Reported(p), s, 3);
    Reported(u) + Reported(e) + Reported(p) + Reported(s)
  }

  /** No `UpdateUserDto` field is required: no error of an update carries the
      `required` tag. */
  lemma UpdateNeverRequired(dto: UpdateUserDto, isEmail: EmailSyntax)
    ensures forall i :: 0 <= i < |UpdateErrors(dto, isEmail)| ==> UpdateErrors(dto, isEmail)[i].tag != "required"
  {
    var u := Reported(OmitEmpty(dto.username, UsernameLength(dto.username)));
    var e := Reported(OmitEmpty(dto.email, EmailFormat(dto.email, isEmail)));
    var p := Reported(OmitEmpty(dto.password, PasswordLength(dto.password)));
    var s := Reported(AtLeastOneRule(dto));
    assert UpdateErrors(dto, isEmail) == u + e + p + s;
    assert AtLeastOneTag != "required";
  }

  // The rules in plain words.

  predicate UsernameOk(u: string) { MinUsername <= |u| <= MaxUsername }
  predicate EmailOk(e: string, isEmail: EmailSyntax) { e != "" && isEmail(e) }
  predicate PasswordOk(p: string) { |p| >= MinPassword }

  predicate ValidCreate(dto: CreateUserDto, isEmail: EmailSyntax)
  {
    UsernameOk(dto.username) && EmailOk(dto.email, isEmail) && PasswordOk(dto.password)
  }

  predicate ValidUpdate(dto: UpdateUserDto, isEmail: EmailSyntax)
  {
    && (dto.username == "" || UsernameOk(dto.username))
    && (dto.email == "" || EmailOk(dto.email, isEmail))
    && (dto.password == "" || PasswordOk(dto.password))
    && (dto.username != "" || dto.email != "" || dto.password != "")
  }

  /** A `CreateUserDto` passes validation exactly when its fields meet the
      rules of dto.go:4-6. */
  lemma CreateErrorsEmpty(dto: CreateUserDto, isEmail: EmailSyntax)
    ensures CreateErrors(dto, isEmail) == [] <==> ValidCreate(dto, isEmail)
  {
  }

  /** An `UpdateUserDto` passes validation exactly when every supplied field
      meets its rule and at least one field is supplied. */
  lemma UpdateErrorsEmpty(dto: UpdateUserDto, isEmail: EmailSyntax)
    ensures UpdateErrors(dto, isEmail) == [] <==> ValidUpdate(dto, isEmail)
  {
  }

  /** What a valid `CreateUserDto` guarantees about each field. */
  lemma ValidCreateFields(dto: CreateUserDto, isEmail: EmailSyntax)
    requires CreateErrors(dto, isEmail) == []
    ensures 3 <= |dto.username| <= 32
    ensures dto.email != "" && isEmail(dto.email)
    ensures |dto.password| >= 8
  {
    CreateErrorsEmpty(dto, isEmail);
  }

  /** `omitempty`: an empty field never fails its own tags; a non-empty one
      fails them exactly as the same value fails the `CreateUserDto` tags. */
  lemma UpdateFieldRules(u: string, e: string, p: string, isEmail: EmailSyntax)
    ensures OmitEmpty("", UsernameLength("")) == None
    ensures OmitEmpty("", EmailFormat("", isEmail)) == None
    ensures OmitEmpty("", PasswordLength("")) == None
    ensures u != "" ==> OmitEmpty(u, UsernameLength(u)) == Required("Username", u, UsernameLength(u))
    ensures e != "" ==> OmitEmpty(e, EmailFormat(e, isEmail)) == Required("Email", e, EmailFormat(e, isEmail))
    ensures p != "" ==> OmitEmpty(p, PasswordLength(p)) == Required("Password", p, PasswordLength(p))
    ensures u != "" ==> (OmitEmpty(u, UsernameLength(u)).None? <==> UsernameOk(u))
    ensures e != "" ==> (OmitEmpty(e, EmailFormat(e, isEmail)).None? <==> EmailOk(e, isEmail))
    ensures p != "" ==> (OmitEmpty(p, PasswordLength(p)).None? <==> PasswordOk(p))
  {
  }

  /** The struct-level rule: an `UpdateUserDto` with no field supplied gets
      exactly one error, the struct-level one; any supplied field suppresses
      it. */
  lemma AtLeastOneRuleFires(dto: UpdateUserDto, isEmail: EmailSyntax)
    ensures dto.username == "" && dto.email == "" && dto.password == "" ==>
      UpdateErrors(dto, isEmail) == [FieldError(AtLeastOneField, AtLeastOneTag, "")]
    ensures dto.username != "" || dto.email != "" || dto.password != "" ==>
      forall i :: 0 <= i < |UpdateErrors(dto, isEmail)| ==> UpdateErrors(dto, isEmail)[i].tag != AtLeastOneTag
  {
  }
}
