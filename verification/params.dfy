/** Query-parameter parsing (internal/utils/parseParams.go). */
module Params {
  import opened Wrappers
  import opened Decimal

  /** `ParseQueryParam`: an absent parameter (gin's `c.Query` gives "") yields
      the default; anything else is parsed by `strconv.Atoi`, with no check
      of its sign. */
  function ParseQueryParam(param: string, default: int): (r: Result<int, NumError>)
    ensures param == "" ==> r == Ok(default)
    ensures param != "" ==> r == Atoi(param)
  {
    if param == "" then Ok(default) else Atoi(param)
  }

  /** Every `int`, negative ones included, comes back from its rendering; the
      default then plays no part. */
  lemma ParseRendered(n: int, default: int)
    requires InRange(n)
    ensures ParseQueryParam(Itoa(n), default) == Ok(n)
  {
    AtoiItoa(n);
  }

  /** A value that is present but malformed is an error whatever the default. */
  lemma ParseRejectsNonDigit(param: string, i: nat, default: int)
    requires i < |param| && !IsDigit(param[i])
    requires i > 0 || (param[0] != '+' && param[0] != '-')
    ensures ParseQueryParam(param, default) == Err(NumError(param))
  {
    AtoiRejectsNonDigit(param, i);
  }
}
