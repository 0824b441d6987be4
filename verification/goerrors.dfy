/** The Go error values the users service distinguishes, their `Error()` text
    and the `errors.Is(err, sql.ErrNoRows)` test. */
module GoErrors {

  datatype Error =
    | SqlNoRows
      /** database/sql's sentinel `sql.ErrNoRows`. */
    | PgError(severity: string, code: string, message: string, constraintName: string)
      /** `*pgconn.PgError`, an error reported by the PostgreSQL server. */
    | Other(text: string)
      /** Any other error, such as a driver or network failure, or pgx's own
          "no rows in result set" error. */

  const NoRowsText := "no rows in result set"

  /** `err.Error()`. */
  function Text(e: Error): (t: string)
    ensures e.PgError? ==> e.severity + ": " + e.message <= t
    ensures e.PgError? ==> |t| >= |e.code| + 1 && t[|t| - |e.code| - 1..] == e.code + ")"
    ensures e.Other? ==> t == e.text
  {
    match e
    case SqlNoRows => "sql: " + NoRowsText
    case PgError(severity, code, message, _) => severity + ": " + message + " (SQLSTATE " + code + ")"
    case Other(text) => text
  }

  /** `errors.Is(err, sql.ErrNoRows)` (no wrapped errors are modelled). */
  predicate IsNoRows(e: Error) { e.SqlNoRows? }

  /** `strings.Contains(s, sub)`. */
  function Contains(s: string, sub: string): (found: bool)
    ensures sub <= s ==> found
    ensures found ==> |sub| <= |s|
  {
    sub <= s || (s != [] && Contains(s[1..], sub))
  }

  /** `sub` occurring at position `i` of `s` is enough for `Contains`. */
  lemma {:induction false} ContainsAt(s: string, sub: string, i: nat)
    requires i <= |s| && sub <= s[i..]
    ensures Contains(s, sub)
  {
    if i > 0 {
      assert s[1..][i - 1..] == s[i..];
      ContainsAt(s[1..], sub, i - 1);
    }
  }

  /** Text after an occurrence does not hide it. */
  lemma {:induction false} ContainsAppend(s: string, b: string, sub: string)
    requires Contains(s, sub)
    ensures Contains(s + b, sub)
  {
    if !(sub <= s) {
      assert (s + b)[1..] == s[1..] + b;
      ContainsAppend(s[1..], b, sub);
    }
  }

  /** Text before an occurrence does not hide it. */
  lemma {:induction false} ContainsPrepend(a: string, s: string, sub: string)
    requires Contains(s, sub)
    ensures Contains(a + s, sub)
  {
    if a == [] {
      assert a + s == s;
    } else {
      assert (a + s)[1..] == a[1..] + s;
      ContainsPrepend(a[1..], s, sub);
    }
  }

  /** The sentinel's own text mentions the phrase the repository looks for. */
  lemma NoRowsTextContainsPhrase()
    ensures Contains(Text(SqlNoRows), NoRowsText)
  {
    ContainsAt(Text(SqlNoRows), NoRowsText, 5);
  }
}
