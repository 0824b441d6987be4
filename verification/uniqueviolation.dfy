/** The response for a PostgreSQL unique violation
    (internal/utils/handleUniqueViolation.go). */
module UniqueViolation {
  import opened Wrappers
  import opened GoErrors
  import opened Responses

  /** SQLSTATE of `unique_violation`. */
  const UniqueViolationCode := "23505"

  const EmailKey := "users_email_key"
  const UsernameKey := "users_username_key"
  const GenericViolation := Message("Unique constraint violation")

  predicate IsUniqueViolation(e: Error) { e.PgError? && e.code == UniqueViolationCode }

  /** `HandleUniqueViolation`: `Some(r)` when it wrote `r` and returned true,
      `None` when it wrote nothing and returned false. */
  function HandleUniqueViolation(err: Error): (r: Option<Response>)
    ensures r.Some? <==> IsUniqueViolation(err)
    ensures r.Some? ==> r.value.status == StatusBadRequest
    ensures r.Some? && err.constraintName == EmailKey ==> r.value.body == EmailAlreadyExists
    ensures r.Some? && err.constraintName == UsernameKey ==> r.value.body == UsernameAlreadyExists
    ensures r.Some? && err.constraintName != EmailKey && err.constraintName != UsernameKey ==>
      r.value.body == GenericViolation
  {
    if err.PgError? && err.code == UniqueViolationCode then
      Some(Response(StatusBadRequest,
        if err.constraintName == EmailKey then EmailAlreadyExists
        else if err.constraintName == UsernameKey then UsernameAlreadyExists
        else GenericViolation))
    else None
  }

  /** The response depends on the error only through its SQLSTATE and
      constraint name: severity and message text never reach the client. */
  lemma OnlyCodeAndConstraintMatter(e1: Error, e2: Error)
    requires e1.PgError? && e2.PgError?
    requires e1.code == e2.code && e1.constraintName == e2.constraintName
    ensures HandleUniqueViolation(e1) == HandleUniqueViolation(e2)
  {
  }
}
