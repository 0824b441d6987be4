/** The PostgreSQL store of users (internal/users/repository.go): window
    normalisation of `GetAll`, the dynamically built `UPDATE` statement, and
    the translation of "no rows" errors. The database itself is a parameter:
    each operation receives what its query produced. */
module Repository {
  import opened Wrappers
  import opened Entities
  import opened GoErrors
  import opened Decimal

  // ----- GetAll --------------------------------------------------------------

  /** The limit `GetAll` uses when none (or a non-positive one) is given. */
  const NoLimit := 1000000

  function NormalizeLimit(limit: int): (r: int)
    ensures r >= 1
    ensures limit > 0 ==> r == limit
    ensures limit <= 0 ==> r == NoLimit
  {
    if limit <= 0 then NoLimit else limit
  }

  function NormalizeOffset(offset: int): (r: int)
    ensures r >= 0
    ensures offset > 0 ==> r == offset
    ensures offset <= 0 ==> r == 0
  {
    if offset <= 0 then 0 else offset
  }

  /** What iterating the `pgx.Rows` of the select produces: the outcome of
      `rows.Scan` for each row `rows.Next()` yields, then `rows.Err()`. */
  datatype Rows = Rows(scans: seq<Result<User, Error>>, iterErr: Option<Error>)

  /** `GetAll`: normalises the window, runs the select (`query`), and collects
      the scanned users in order; the first scan error fails the whole call
      (the iteration error is then never looked at), and otherwise so does
      the iteration error. No rows is success, not
      `ErrNoRows`. */
  method GetAll(limit: int, offset: int, query: (int, int) -> Result<Rows, Error>)
    returns (r: Result<seq<User>, Error>)
    ensures var q := query(NormalizeLimit(limit), NormalizeOffset(offset));
      && (q.Err? ==> r == Err(q.error))
      && (q.Ok? ==>
            var scans := q.value.scans;
            && (r.Ok? <==> (forall j :: 0 <= j < |scans| ==> scans[j].Ok?) && q.value.iterErr.None?)
            && (r.Ok? ==> |r.value| == |scans| && forall j :: 0 <= j < |scans| ==> scans[j] == Ok(r.value[j]))
            && (forall k :: 0 <= k < |scans| && scans[k].Err? && (forall j :: 0 <= j < k ==> scans[j].Ok?) ==>
                  r == Err(scans[k].error))
            && ((forall j :: 0 <= j < |scans| ==> scans[j].Ok?) && q.value.iterErr.Some? ==>
                  r == Err(q.value.iterErr.value)))
  {
    var lim := NormalizeLimit(limit);
    var off := NormalizeOffset(offset);
    var q := query(lim, off);
    if q.Err? {
      return Err(q.error);
    }
    var rows := q.value;
    var allUsers: seq<User> := [];
    var i := 0;
    while i < |rows.scans|
      invariant 0 <= i <= |rows.scans|
      invariant |allUsers| == i
      invariant forall j :: 0 <= j < i ==> rows.scans[j] == Ok(allUsers[j])
    {
      var scanned := rows.scans[i];
      if scanned.Err? {
        return Err(scanned.error);
      }
      allUsers := allUsers + [scanned.value];
      i := i + 1;
    }
    if rows.iterErr.Some? {
      return Err(rows.iterErr.value);
    }
    return Ok(allUsers);
  }

  // ----- "no rows" translation -----------------------------------------------

  /** A scan error whose text mentions "no rows in result set" becomes
      `sql.ErrNoRows`; any other error is kept as it is. */
  function TranslateNoRows(e: Error): (r: Error)
    ensures Contains(Text(e), NoRowsText) ==> r == SqlNoRows
    ensures !Contains(Text(e), NoRowsText) ==> r == e
  {
    if Contains(Text(e), NoRowsText) then SqlNoRows else e
  }

  /** After translation, `errors.Is(err, sql.ErrNoRows)` holds exactly for the
      errors whose text mentions the phrase. */
  lemma TranslateNoRowsIff(e: Error)
    ensures IsNoRows(TranslateNoRows(e)) <==> Contains(Text(e), NoRowsText)
  {
    NoRowsTextContainsPhrase();
  }

  /** The test reads the text, not the type: a PostgreSQL server error whose
      message mentions "no rows in result set" is turned into
      `sql.ErrNoRows` as well. */
  lemma ServerMessageMatches(severity: string, code: string, message: string, constraintName: string)
    requires Contains(message, NoRowsText)
    ensures TranslateNoRows(PgError(severity, code, message, constraintName)) == SqlNoRows
  {
    var e := PgError(severity, code, message, constraintName);
    ContainsPrepend(severity + ": ", message, NoRowsText);
    var t := severity + ": " + message;
    ContainsAppend(t, " (SQLSTATE ", NoRowsText);
    ContainsAppend(t + " (SQLSTATE ", code, NoRowsText);
    ContainsAppend(t + " (SQLSTATE " + code, ")", NoRowsText);
    assert Contains(Text(e), NoRowsText);
  }

  /** `GetOne`: the scanned user, or the translated scan error. */
  function GetOne(scan: Result<User, Error>): (r: Result<User, Error>)
    ensures r.Ok? <==> scan.Ok?
    ensures r.Ok? ==> r.value == scan.value
    ensures r.Err? ==> r.error == TranslateNoRows(scan.error)
  {
    match scan
    case Ok(user) => Ok(user)
    case Err(e) => Err(TranslateNoRows(e))
  }

  // ----- Delete --------------------------------------------------------------

  /** `Delete`, given the outcome of `Exec` (rows affected, or an error);
      `None` is Go's nil error. */
  function Delete(exec: Result<nat, Error>): (r: Option<Error>)
    ensures exec.Err? ==> r == Some(exec.error)
    ensures exec.Ok? ==> (r == Some(SqlNoRows) <==> exec.value == 0)
    ensures exec.Ok? ==> (r.None? <==> exec.value > 0)
  {
    match exec
    case Err(e) => Some(e)
    case Ok(affected) => if affected == 0 then Some(SqlNoRows) else None
  }

  // ----- Update --------------------------------------------------------------

  /** The columns the `UPDATE` statement may set, in the order it sets them. */
  datatype Column = Username | Email | PasswordHash | UpdatedAt

  function ColumnName(c: Column): string
  {
    match c
    case Username => "username"
    case Email => "email"
    case PasswordHash => "password_hash"
    case UpdatedAt => "updated_at"
  }

  function Rank(c: Column): nat
  {
    match c
    case Username => 0
    case Email => 1
    case PasswordHash => 2
    case UpdatedAt => 3
  }

  /** A bound statement argument. */
  datatype Arg = IdArg(id: Uuid) | TextArg(text: string) | TimeArg(at: Timestamp)

  /** One entry of the SET list: a column and the value bound to it. */
  datatype Assignment = Assignment(column: Column, value: Arg)

  /** The SET entry for the username, when supplied. */
  function UsernameEntry(dto: UpdateUserDto): seq<Assignment>
  {
    if dto.username != "" then [Assignment(Username, TextArg(dto.username))] else []
  }

  function EmailEntry(dto: UpdateUserDto): seq<Assignment>
  {
    if dto.email != "" then [Assignment(Email, TextArg(dto.email))] else []
  }

  function PasswordEntry(dto: UpdateUserDto): seq<Assignment>
  {
    if dto.password != "" then [Assignment(PasswordHash, TextArg(dto.password))] else []
  }

  /** The SET list the statement should carry for `dto`: each supplied field,
      then `updated_at`. */
  function Assignments(dto: UpdateUserDto, now: Timestamp): (sets: seq<Assignment>)
    ensures 1 <= |sets| <= 4
    ensures sets[|sets| - 1] == Assignment(UpdatedAt, TimeArg(now))
  {
    UsernameEntry(dto) + EmailEntry(dto) + PasswordEntry(dto) + [Assignment(UpdatedAt, TimeArg(now))]
  }

  /** `col = $n`, the text of one SET entry referring to placeholder n. */
  function Fragment(c: Column, n: nat): string
  {
    ColumnName(c) + " = $" + Itoa(n)
  }

  /** The SET entries for `sets`, numbered from `$2` because `$1` is the id. */
  function SetParts(sets: seq<Assignment>): (parts: seq<string>)
    ensures |parts| == |sets|
  {
    seq(|sets|, i requires 0 <= i < |sets| => Fragment(sets[i].column, i + 2))
  }

  function TotalLength(parts: seq<string>): nat
  {
    if parts == [] then 0 else |parts[0]| + TotalLength(parts[1..])
  }

  /** `strings.Join(parts, sep)`. */
  function Join(parts: seq<string>, sep: string): (joined: string)
    ensures parts == [] ==> joined == ""
    ensures parts != [] ==> parts[0] <= joined
    ensures parts != [] ==> |joined| == TotalLength(parts) + (|parts| - 1) * |sep|
  {
    if parts == [] then ""
    else if |parts| == 1 then parts[0]
    else parts[0] + sep + Join(parts[1..], sep)
  }

  /** The literal prefixes the source writes are the column names followed by
      " = $". */
  lemma FragmentLiterals(n: nat)
    ensures Fragment(Username, n) == "username = $" + Itoa(n)
    ensures Fragment(Email, n) == "email = $" + Itoa(n)
    ensures Fragment(PasswordHash, n) == "password_hash = $" + Itoa(n)
    ensures Fragment(UpdatedAt, n) == "updated_at = $" + Itoa(n)
  {
    assert "username" + " = $" == "username = $";
    assert "email" + " = $" == "email = $";
    assert "password_hash" + " = $" == "password_hash = $";
    assert "updated_at" + " = $" == "updated_at = $";
  }

  /** `queryParts` and `args` agree with the SET list `sets`: `args[0]` is
      the id bound to `$1`, and the i-th part names the column of `sets[i]`
      with placeholder `$(i+2)`, whose value `args[i+1]` is that of `sets[i]`. */
  ghost predicate Consistent(id: Uuid, sets: seq<Assignment>, queryParts: seq<string>, args: seq<Arg>)
  {
    && |args| == |queryParts| + 1
    && args[0] == IdArg(id)
    && |sets| == |queryParts|
    && forall i :: 0 <= i < |queryParts| ==>
         queryParts[i] == Fragment(sets[i].column, i + 2) && args[i + 1] == sets[i].value
  }

  /** Appending a part numbered from the current argument count, together
      with its value, keeps the parts and arguments in step. */
  lemma ConsistentAppend(id: Uuid, sets: seq<Assignment>, queryParts: seq<string>, args: seq<Arg>,
                         a: Assignment, part: string)
    requires Consistent(id, sets, queryParts, args)
    requires part == Fragment(a.column, |args| + 1)
    ensures Consistent(id, sets + [a], queryParts + [part], args + [a.value])
  {
    var sets', parts', args' := sets + [a], queryParts + [part], args + [a.value];
    forall i | 0 <= i < |parts'|
      ensures parts'[i] == Fragment(sets'[i].column, i + 2) && args'[i + 1] == sets'[i].value
    {
      if i < |queryParts| {
        assert parts'[i] == queryParts[i] && sets'[i] == sets[i] && args'[i + 1] == args[i + 1];
      }
    }
  }

  /** The statement's query parts and arguments, built as `Update` builds them:
      the id first, then one `col = $n` per supplied field with `n` taken
      from the current argument count, and `updated_at` last. */
  method BuildUpdate(id: Uuid, dto: UpdateUserDto, now: Timestamp)
    returns (queryParts: seq<string>, args: seq<Arg>)
    ensures |args| == |queryParts| + 1
    ensures args[0] == IdArg(id)
    ensures |queryParts| == |Assignments(dto, now)|
    ensures forall i :: 0 <= i < |queryParts| ==>
      queryParts[i] == Fragment(Assignments(dto, now)[i].column, i + 2) &&
      args[i + 1] == Assignments(dto, now)[i].value
  {
    queryParts := [];
    args := [IdArg(id)];
    ghost var sets: seq<Assignment> := [];
    if dto.username != "" {
      var part := "username = $" + Itoa(|args| + 1);
      FragmentLiterals(|args| + 1);
      ConsistentAppend(id, sets, queryParts, args, Assignment(Username, TextArg(dto.username)), part);
      queryParts := queryParts + [part];
      args := args + [TextArg(dto.username)];
      sets := sets + [Assignment(Username, TextArg(dto.username))];
    }
    assert sets == UsernameEntry(dto) && Consistent(id, sets, queryParts, args);
    if dto.email != "" {
      var part := "email = $" + Itoa(|args| + 1);
      FragmentLiterals(|args| + 1);
      ConsistentAppend(id, sets, queryParts, args, Assignment(Email, TextArg(dto.email)), part);
      queryParts := queryParts + [part];
      args := args + [TextArg(dto.email)];
      sets := sets + [Assignment(Email, TextArg(dto.email))];
    }
    assert sets == UsernameEntry(dto) + EmailEntry(dto) && Consistent(id, sets, queryParts, args);
    if dto.password != "" {
      var part := "password_hash = $" + Itoa(|args| + 1);
      FragmentLiterals(|args| + 1);
      ConsistentAppend(id, sets, queryParts, args, Assignment(PasswordHash, TextArg(dto.password)), part);
      queryParts := queryParts + [part];
      args := args + [TextArg(dto.password)];
      sets := sets + [Assignment(PasswordHash, TextArg(dto.password))];
    }
    assert sets == UsernameEntry(dto) + EmailEntry(dto) + PasswordEntry(dto) && Consistent(id, sets, queryParts, args);
    var part := "updated_at = $" + Itoa(|args| + 1);
    FragmentLiterals(|args| + 1);
    ConsistentAppend(id, sets, queryParts, args, Assignment(UpdatedAt, TimeArg(now)), part);
    queryParts := queryParts + [part];
    args := args + [TimeArg(now)];
    sets := sets + [Assignment(UpdatedAt, TimeArg(now))];
    assert sets == Assignments(dto, now);
  }

  predicate HasColumn(sets: seq<Assignment>, c: Column)
  {
    exists i :: 0 <= i < |sets| && sets[i].column == c
  }

  /** A data column is set exactly when its field is supplied, and then to the
      supplied value; `updated_at` is always set, to `now`. */
  lemma AssignmentsPresence(dto: UpdateUserDto, now: Timestamp)
    ensures HasColumn(Assignments(dto, now), Username) <==> dto.username != ""
    ensures HasColumn(Assignments(dto, now), Email) <==> dto.email != ""
    ensures HasColumn(Assignments(dto, now), PasswordHash) <==> dto.password != ""
    ensures HasColumn(Assignments(dto, now), UpdatedAt)
    ensures forall i :: 0 <= i < |Assignments(dto, now)| ==>
      var a := Assignments(dto, now)[i];
      && (a.column == Username ==> a.value == TextArg(dto.username))
      && (a.column == Email ==> a.value == TextArg(dto.email))
      && (a.column == PasswordHash ==> a.value == TextArg(dto.password))
      && (a.column == UpdatedAt ==> a.value == TimeArg(now))
  {
    var sets := Assignments(dto, now);
    assert sets[|sets| - 1].column == UpdatedAt;
    if dto.username != "" {
      assert sets[0].column == Username;
    }
    if dto.email != "" {
      var k := if dto.username != "" then 1 else 0;
      assert sets[k].column == Email;
    }
    if dto.password != "" {
      var k := (if dto.username != "" then 1 else 0) + (if dto.email != "" then 1 else 0);
      assert sets[k].column == PasswordHash;
    }
  }

  /** Columns come in the fixed order username, email, password_hash,
      updated_at, each at most once, and `updated_at` is the last entry. */
  lemma AssignmentsOrdered(dto: UpdateUserDto, now: Timestamp)
    ensures var sets := Assignments(dto, now);
      forall i, j :: 0 <= i < j < |sets| ==> Rank(sets[i].column) < Rank(sets[j].column)
    ensures var sets := Assignments(dto, now);
      sets[|sets| - 1].column == UpdatedAt &&
      forall i :: 0 <= i < |sets| - 1 ==> sets[i].column != UpdatedAt
  {
  }

  /** Each part's placeholder number reads back, by `strconv.Atoi`, as its
      position plus two: the index of its value in `args`, counted from 1. */
  lemma PlaceholderReadsBack(dto: UpdateUserDto, now: Timestamp, i: nat)
    requires i < |Assignments(dto, now)|
    ensures var sets := Assignments(dto, now);
      var part := SetParts(sets)[i];
      var prefix := ColumnName(sets[i].column) + " = $";
      prefix <= part && Atoi(part[|prefix|..]) == Ok(i + 2)
  {
    var sets := Assignments(dto, now);
    var prefix := ColumnName(sets[i].column) + " = $";
    var part := SetParts(sets)[i];
    assert part == prefix + Itoa(i + 2);
    assert part[|prefix|..] == Itoa(i + 2);
    AtoiItoa(i + 2);
  }

  /** With no field supplied the statement degenerates to `SET updated_at = $2`. */
  lemma NothingSuppliedTouchesOnlyUpdatedAt(now: Timestamp)
    ensures Assignments(UpdateUserDto("", "", ""), now) == [Assignment(UpdatedAt, TimeArg(now))]
    ensures Join(SetParts(Assignments(UpdateUserDto("", "", ""), now)), ", ") == "updated_at = $2"
  {
    var parts := SetParts(Assignments(UpdateUserDto("", "", ""), now));
    assert Itoa(2) == "2";
    FragmentLiterals(2);
    assert |parts| == 1 && parts[0] == Fragment(UpdatedAt, 2);
  }

  /** The row one SET entry leaves behind. */
  function ApplyOne(row: User, a: Assignment): User
  {
    match (a.column, a.value)
    case (Username, TextArg(t)) => row.(username := t)
    case (Email, TextArg(t)) => row.(email := t)
    case (PasswordHash, TextArg(t)) => row.(passwordHash := t)
    case (UpdatedAt, TimeArg(t)) => row.(updatedAt := t)
    case _ => row
  }

  /** The row a SET list leaves behind: the entries apply left to right. */
  function ApplySet(row: User, sets: seq<Assignment>): User
    decreases |sets|
  {
    if sets == [] then row else ApplySet(ApplyOne(row, sets[0]), sets[1..])
  }

  lemma {:induction false} ApplySetAppend(row: User, first: seq<Assignment>, second: seq<Assignment>)
    ensures ApplySet(row, first + second) == ApplySet(ApplySet(row, first), second)
    decreases |first|
  {
    if first == [] {
      assert first + second == second;
    } else {
      assert (first + second)[1..] == first[1..] + second;
      ApplySetAppend(ApplyOne(row, first[0]), first[1..], second);
    }
  }

  /** An optional entry of text column `c` with value `v` changes only that
      column, and only when present. */
  lemma ApplyEntry(row: User, entry: seq<Assignment>, c: Column, v: string)
    requires entry == [] || entry == [Assignment(c, TextArg(v))]
    requires c != UpdatedAt
    ensures var r := ApplySet(row, entry);
      && r.uuid == row.uuid && r.createdAt == row.createdAt && r.updatedAt == row.updatedAt
      && r.username == (if entry != [] && c == Username then v else row.username)
      && r.email == (if entry != [] && c == Email then v else row.email)
      && r.passwordHash == (if entry != [] && c == PasswordHash then v else row.passwordHash)
  {
    if entry != [] {
      assert entry[1..] == [];
    }
  }

  /** Partial update: a supplied field replaces the stored value, an omitted
      one leaves it, `updated_at` becomes `now`, and the id and creation time
      never change. */
  lemma UpdateEffect(row: User, dto: UpdateUserDto, now: Timestamp)
    ensures var r := ApplySet(row, Assignments(dto, now));
      && r.uuid == row.uuid
      && r.createdAt == row.createdAt
      && r.username == (if dto.username != "" then dto.username else row.username)
      && r.email == (if dto.email != "" then dto.email else row.email)
      && r.passwordHash == (if dto.password != "" then dto.password else row.passwordHash)
      && r.updatedAt == now
  {
    var u, e, p := UsernameEntry(dto), EmailEntry(dto), PasswordEntry(dto);
    var t := [Assignment(UpdatedAt, TimeArg(now))];
    ApplySetAppend(row, u + e + p, t);
    ApplySetAppend(row, u + e, p);
    ApplySetAppend(row, u, e);
    var r1 := ApplySet(row, u);
    ApplyEntry(row, u, Username, dto.username);
    var r2 := ApplySet(r1, e);
    ApplyEntry(r1, e, Email, dto.email);
    var r3 := ApplySet(r2, p);
    ApplyEntry(r2, p, PasswordHash, dto.password);
    assert t[1..] == [];
  }

  /** What follows the SET list in the statement, with its line breaks and
      indentation as written. */
  const UpdateTail := "\n              WHERE uuid = $1\n\t\t\t  RETURNING uuid, username, email, password_hash, created_at, updated_at"

  /** The statement text for the SET list `sets`. */
  function UpdateStatement(sets: seq<Assignment>): (q: string)
    ensures "UPDATE users SET " <= q
  {
    "UPDATE users SET " + Join(SetParts(sets), ", ") + UpdateTail
  }

  /** The bound arguments for the SET list `sets`: the id, then each value. */
  function Values(id: Uuid, sets: seq<Assignment>): (args: seq<Arg>)
    ensures |args| == |sets| + 1 && args[0] == IdArg(id)
    ensures forall i :: 0 <= i < |sets| ==> args[i + 1] == sets[i].value
  {
    [IdArg(id)] + seq(|sets|, i requires 0 <= i < |sets| => sets[i].value)
  }

  /** Every placeholder of the SET list names an argument that exists, and
      that argument is the value its column is set to; `$1` is the id. */
  lemma PlaceholdersBound(id: Uuid, dto: UpdateUserDto, now: Timestamp, i: nat)
    requires i < |Assignments(dto, now)|
    ensures var sets := Assignments(dto, now);
      var args := Values(id, sets);
      var part := SetParts(sets)[i];
      var prefix := ColumnName(sets[i].column) + " = $";
      && prefix <= part
      && Atoi(part[|prefix|..]).Ok?
      && var n := Atoi(part[|prefix|..]).value;
         2 <= n <= |args| && args[n - 1] == sets[i].value && args[0] == IdArg(id)
  {
    PlaceholderReadsBack(dto, now, i);
  }

  /** Parts and arguments that agree pointwise with a SET list are the
      statement's SET parts and bound values for it. */
  lemma PartsAndValues(id: Uuid, sets: seq<Assignment>, queryParts: seq<string>, args: seq<Arg>)
    requires |args| == |queryParts| + 1 && args[0] == IdArg(id) && |queryParts| == |sets|
    requires forall i :: 0 <= i < |queryParts| ==>
      queryParts[i] == Fragment(sets[i].column, i + 2) && args[i + 1] == sets[i].value
    ensures queryParts == SetParts(sets)
    ensures args == Values(id, sets)
  {
    var values := Values(id, sets);
    assert forall i :: 0 <= i < |args| ==> args[i] == values[i] by {
      forall i | 0 <= i < |args|
        ensures args[i] == values[i]
      {
        if i > 0 {
          assert args[(i - 1) + 1] == sets[i - 1].value;
        }
      }
    }
  }

  /** `Update`: builds the statement and its arguments, runs it (`queryRow`
      stands for `QueryRow` followed by `Scan`) and returns the row, or the
      scan error with "no rows" translated to `sql.ErrNoRows`, exactly as
      `GetOne` treats its scan. */
  method Update(id: Uuid, dto: UpdateUserDto, now: Timestamp,
                queryRow: (string, seq<Arg>) -> Result<User, Error>)
    returns (query: string, args: seq<Arg>, r: Result<User, Error>)
    ensures query == UpdateStatement(Assignments(dto, now))
    ensures args == Values(id, Assignments(dto, now))
    ensures queryRow(query, args).Ok? ==> r == Ok(queryRow(query, args).value)
    ensures queryRow(query, args).Err? && Contains(Text(queryRow(query, args).error), NoRowsText) ==>
      r == Err(SqlNoRows)
    ensures queryRow(query, args).Err? && !Contains(Text(queryRow(query, args).error), NoRowsText) ==>
      r == Err(queryRow(query, args).error)
    ensures r == GetOne(queryRow(query, args))
  {
    var queryParts;
    queryParts, args := BuildUpdate(id, dto, now);
    PartsAndValues(id, Assignments(dto, now), queryParts, args);
    query := "UPDATE users SET " + Join(queryParts, ", ") + UpdateTail;
    var scanned := queryRow(query, args);
    r := GetOne(scanned);
  }
}
