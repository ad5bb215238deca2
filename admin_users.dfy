/**
 * The request logic of the user-administration endpoints: resolving the
 * bearer token against the in-memory token table (evicting it when
 * expired), the admin check, the password guards, and the values written
 * by `create_user` and `update_user`. The database and bcrypt are not part
 * of this model: the users table is a parameter and a hash is symbolic.
 */
module AdminUsers {
  import opened Wrappers
  import opened Text
  import opened Auth

  /** An entry of `TOKENS`: whose token it is and when it expires (a timestamp). */
  datatype TokenSession = TokenSession(userId: int, expiresAt: int)

  /** The row `SELECT id, nombre, correo, role_id, is_active FROM users` gives. */
  datatype DbUser = DbUser(id: int, nombre: string, correo: Option<string>, roleId: int, isActive: int)

  /** The current user: the row plus the role name derived from `role_id`. */
  datatype CurrentUser = CurrentUser(row: DbUser, rol: string)

  const NotAuthenticated := HttpError(401, "No autenticado")
  const InvalidToken := HttpError(401, "Token inválido")
  const ExpiredToken := HttpError(401, "Token expirado")
  const UnknownUser := HttpError(401, "Usuario no encontrado")
  const AdminOnly := HttpError(403, "Solo admin puede acceder")
  const PasswordTooShort := HttpError(400, "Password debe tener al menos 6 caracteres")
  const PasswordTooLong := HttpError(400, "Password demasiado largo (max 72 bytes)")
  const NothingToUpdate := HttpError(400, "Nada que actualizar")

  /** `ROLE_MAP.get(role_id, "ejecutivo")` */
  function RoleName(roleMap: map<int, string>, roleId: int): (r: string)
    ensures roleId in roleMap ==> r == roleMap[roleId]
    ensures roleId !in roleMap ==> r == "ejecutivo"
  {
    if roleId in roleMap then roleMap[roleId] else "ejecutivo"
  }

  /** The token in the header, under this module's single 401 for a missing or malformed header. */
  function HeaderToken(authorization: Option<string>): (r: Result<string>)
    ensures r.Err? ==> r == Err(NotAuthenticated)
    ensures r.Ok? <==> BearerToken(authorization).Ok?
    ensures r.Ok? ==> r.value == BearerToken(authorization).value
  {
    match BearerToken(authorization)
    case Err(_) => Err(NotAuthenticated)
    case Ok(t) => Ok(t)
  }

  /** The token that is expired at `now`: present in the table with `expires_at < now`. */
  predicate IsExpired(tokens: map<string, TokenSession>, token: string, now: int)
  {
    token in tokens && tokens[token].expiresAt < now
  }

  /** What `get_current_user_from_token` returns or raises, given the token table, the clock and the users table. */
  function CurrentUserOf(tokens: map<string, TokenSession>, authorization: Option<string>, now: int,
                         users: map<int, DbUser>, roleMap: map<int, string>): Result<CurrentUser>
  {
    match HeaderToken(authorization)
    case Err(e) => Err(e)
    case Ok(token) =>
      if token !in tokens then Err(InvalidToken)
      else if IsExpired(tokens, token, now) then Err(ExpiredToken)
      else if tokens[token].userId !in users then Err(UnknownUser)
      else
        var row := users[tokens[token].userId];
        Ok(CurrentUser(row, RoleName(roleMap, row.roleId)))
  }

  /**
   * The current user is found exactly when the header holds a known token
   * that has not expired (a token expiring exactly now is still valid) and
   * whose user exists; the user is that token's row, with its role name.
   * Every failure is a 401.
   */
  lemma CurrentUserSpec(tokens: map<string, TokenSession>, authorization: Option<string>, now: int,
                        users: map<int, DbUser>, roleMap: map<int, string>)
    ensures var r := CurrentUserOf(tokens, authorization, now, users, roleMap);
      && (r.Ok? <==>
            && BearerToken(authorization).Ok?
            && BearerToken(authorization).value in tokens
            && now <= tokens[BearerToken(authorization).value].expiresAt
            && tokens[BearerToken(authorization).value].userId in users)
      && (r.Ok? ==>
            var s := tokens[BearerToken(authorization).value];
            r.value.row == users[s.userId] && r.value.row.id == users[s.userId].id
            && r.value.rol == RoleName(roleMap, users[s.userId].roleId))
      && (r.Err? ==> r.error.status == 401)
      && (BearerToken(authorization).Ok? && IsExpired(tokens, BearerToken(authorization).value, now) ==>
            r == Err(ExpiredToken))
  {
  }

  /** `require_admin`: the current user, when its role name is "admin". */
  function AdminOf(current: Result<CurrentUser>): (r: Result<CurrentUser>)
    ensures r.Ok? <==> current.Ok? && current.value.rol == "admin"
    ensures r.Ok? ==> r == current
    ensures current.Err? ==> r == current
    ensures current.Ok? && current.value.rol != "admin" ==> r == Err(AdminOnly)
  {
    match current
    case Err(e) => Err(e)
    case Ok(u) => if u.rol != "admin" then Err(AdminOnly) else Ok(u)
  }

  /**
   * The in-memory `TOKENS` table. Looking a token up evicts it when it has
   * expired; nothing else changes it here.
   */
  class TokenStore {
    var tokens: map<string, TokenSession>

    constructor(initial: map<string, TokenSession>)
      ensures tokens == initial
    {
      tokens := initial;
    }

    /** `get_current_user_from_token(authorization)`, at time `now`. */
    method CurrentUserFromToken(authorization: Option<string>, now: int,
                                users: map<int, DbUser>, roleMap: map<int, string>)
      returns (r: Result<CurrentUser>)
      modifies this
      ensures r == CurrentUserOf(old(tokens), authorization, now, users, roleMap)
      ensures HeaderToken(authorization).Ok? && IsExpired(old(tokens), HeaderToken(authorization).value, now) ==>
        tokens == old(tokens) - {HeaderToken(authorization).value}
      ensures !(HeaderToken(authorization).Ok? && IsExpired(old(tokens), HeaderToken(authorization).value, now)) ==>
        tokens == old(tokens)
    {
      var header := HeaderToken(authorization);
      if header.Err? {
        return Err(header.error);
      }
      var token := header.value;
      if token !in tokens {
        return Err(InvalidToken);
      }
      var session := tokens[token];
      if session.expiresAt < now {
        tokens := tokens - {token};
        return Err(ExpiredToken);
      }
      if session.userId !in users {
        return Err(UnknownUser);
      }
      var user := users[session.userId];
      r := Ok(CurrentUser(user, RoleName(roleMap, user.roleId)));
    }

    /** `require_admin(authorization)` */
    method RequireAdmin(authorization: Option<string>, now: int,
                        users: map<int, DbUser>, roleMap: map<int, string>)
      returns (r: Result<CurrentUser>)
      modifies this
      ensures r == AdminOf(CurrentUserOf(old(tokens), authorization, now, users, roleMap))
      ensures HeaderToken(authorization).Ok? && IsExpired(old(tokens), HeaderToken(authorization).value, now) ==>
        tokens == old(tokens) - {HeaderToken(authorization).value}
      ensures !(HeaderToken(authorization).Ok? && IsExpired(old(tokens), HeaderToken(authorization).value, now)) ==>
        tokens == old(tokens)
    {
      var user := CurrentUserFromToken(authorization, now, users, roleMap);
      if user.Ok? && user.value.rol != "admin" {
        return Err(AdminOnly);
      }
      r := user;
    }
  }

  /** The number of bytes the UTF-8 encoding of `c` takes. */
  function Utf8Width(c: char): (w: nat)
    ensures 1 <= w <= 4
  {
    if c as int < 0x80 then 1
    else if c as int < 0x800 then 2
    else if c as int < 0x1_0000 then 3
    else 4
  }

  /** `len(s.encode("utf-8"))` */
  function Utf8Length(s: string): nat
  {
    if s == [] then 0 else Utf8Length(s[..|s| - 1]) + Utf8Width(s[|s| - 1])
  }

  /** An encoding takes one to four bytes per character, exactly one for ASCII text. */
  lemma {:induction false} Utf8LengthBounds(s: string)
    ensures |s| <= Utf8Length(s) <= 4 * |s|
    ensures (forall i :: 0 <= i < |s| ==> s[i] as int < 0x80) ==> Utf8Length(s) == |s|
  {
    if s != [] {
      Utf8LengthBounds(s[..|s| - 1]);
    }
  }

  /** The bcrypt hash of a password: salted and not modelled, only which password it hashes. */
  datatype PasswordHash = BcryptOf(plain: string)

  /** `hash_password(plain)`: refused with 400 beyond 72 UTF-8 bytes. */
  function HashPassword(plain: string): (r: Result<PasswordHash>)
    ensures r.Ok? <==> Utf8Length(plain) <= 72
    ensures r.Ok? ==> r.value == BcryptOf(plain)
    ensures r.Err? ==> r == Err(PasswordTooLong)
  {
    if Utf8Length(plain) > 72 then Err(PasswordTooLong) else Ok(BcryptOf(plain))
  }

  /**
   * The 72-byte limit counts bytes, not characters: any password up to 18
   * characters passes, any beyond 72 characters fails, and in between it
   * depends on the characters.
   */
  lemma HashPasswordLimit(plain: string)
    ensures |plain| <= 18 ==> HashPassword(plain).Ok?
    ensures |plain| > 72 ==> HashPassword(plain).Err?
    ensures (forall i :: 0 <= i < |plain| ==> plain[i] as int < 0x80) ==>
      (HashPassword(plain).Ok? <==> |plain| <= 72)
  {
    Utf8LengthBounds(plain);
  }

  /** The `UserCreateAdmin` body. */
  datatype UserCreate = UserCreate(
    rut: string, nombre: string, nombreMostrar: Option<string>, correo: Option<string>,
    password: string, roleId: int, isActive: Option<int>)

  /** The values `create_user` inserts. */
  datatype NewUserRow = NewUserRow(
    rut: string, nombre: string, nombreMostrar: Option<string>, correo: Option<string>,
    passwordHash: PasswordHash, roleId: int, isActive: int)

  /** `s.strip()` when `s` is given and not empty, else `None`. */
  function StripOrNone(s: Option<string>): Option<string>
  {
    if s.Some? && s.value != "" then Some(Strip(s.value)) else None
  }

  /** `s.lower().strip()` when `s` is given and not empty, else `None`. */
  function NormalizedEmail(s: Option<string>): Option<string>
  {
    if s.Some? && s.value != "" then Some(Strip(Lower(s.value))) else None
  }

  /** The row `create_user` inserts for `data`, or the 400 it raises first. */
  function CreateUserRow(data: UserCreate): Result<NewUserRow>
  {
    if data.password == "" || |data.password| < 6 then Err(PasswordTooShort)
    else match HashPassword(data.password)
      case Err(e) => Err(e)
      case Ok(h) =>
        Ok(NewUserRow(Strip(data.rut), Strip(data.nombre), StripOrNone(data.nombreMostrar),
                      NormalizedEmail(data.correo), h, data.roleId,
                      if data.isActive.Some? then data.isActive.value else 1))
  }

  /**
   * A password under six characters is refused before hashing; one over 72
   * bytes is refused by the hash guard; otherwise the row holds the hash of
   * the password, the trimmed fields, the e-mail lower-cased and trimmed (or
   * nothing), and `is_active` defaulting to 1.
   */
  lemma CreateUserSpec(data: UserCreate)
    ensures |data.password| < 6 ==> CreateUserRow(data) == Err(PasswordTooShort)
    ensures |data.password| >= 6 && Utf8Length(data.password) > 72 ==> CreateUserRow(data) == Err(PasswordTooLong)
    ensures CreateUserRow(data).Ok? <==> |data.password| >= 6 && Utf8Length(data.password) <= 72
    ensures CreateUserRow(data).Ok? ==>
      var row := CreateUserRow(data).value;
      && row.passwordHash == BcryptOf(data.password)
      && row.rut == Strip(data.rut) && row.nombre == Strip(data.nombre)
      && (data.nombreMostrar.None? || data.nombreMostrar == Some("") <==> row.nombreMostrar.None?)
      && (row.nombreMostrar.Some? ==> row.nombreMostrar.value == Strip(data.nombreMostrar.value))
      && (data.correo.None? || data.correo == Some("") <==> row.correo.None?)
      && (row.correo.Some? ==> row.correo.value == Strip(Lower(data.correo.value)))
      && (data.isActive.None? ==> row.isActive == 1)
      && (data.isActive.Some? ==> row.isActive == data.isActive.value)
      && row.roleId == data.roleId
  {
  }

  /** The `UserUpdateAdmin` body: every field optional. */
  datatype UserUpdate = UserUpdate(
    rut: Option<string>, nombre: Option<string>, nombreMostrar: Option<string>, correo: Option<string>,
    password: Option<string>, roleId: Option<int>, isActive: Option<int>)

  /** A value bound to a `%s` placeholder. */
  datatype SqlValue = SqlText(s: string) | SqlNull | SqlInt(i: int) | SqlHash(h: PasswordHash)

  /** The UPDATE to run: its SET clauses and the values bound to them, in order. */
  datatype Update = Update(fields: seq<string>, values: seq<SqlValue>)

  /** The number of columns `update_user` may set besides `updated_at`. */
  const ColumnCount := 7

  /** The column at position `i` of `update_user`'s fixed order. */
  function Column(i: nat): string
    requires i < ColumnCount
  {
    match i
    case 0 => "rut"
    case 1 => "nombre"
    case 2 => "nombre_mostrar"
    case 3 => "correo"
    case 4 => "role_id"
    case 5 => "is_active"
    case 6 => "password_hash"
  }

  /** The password to store: given and not empty. */
  predicate HasNewPassword(data: UserUpdate)
  {
    data.password.Some? && data.password.value != ""
  }

  /** Whether the body sets the column at position `i` of the column order. */
  predicate Sets(data: UserUpdate, i: nat)
  {
    match i
    case 0 => data.rut.Some?
    case 1 => data.nombre.Some?
    case 2 => data.nombreMostrar.Some?
    case 3 => data.correo.Some?
    case 4 => data.roleId.Some?
    case 5 => data.isActive.Some?
    case 6 => HasNewPassword(data)
    case _ => false
  }

  /** The value bound for the column at position `i` (used only where the body sets it). */
  function ValueFor(data: UserUpdate, i: nat): SqlValue
  {
    match i
    case 0 => if data.rut.Some? then SqlText(Strip(data.rut.value)) else SqlNull
    case 1 => if data.nombre.Some? then SqlText(Strip(data.nombre.value)) else SqlNull
    case 2 => TextOrNull(StripOrNone(data.nombreMostrar))
    case 3 => TextOrNull(NormalizedEmail(data.correo))
    case 4 => if data.roleId.Some? then SqlInt(data.roleId.value) else SqlNull
    case 5 => if data.isActive.Some? then SqlInt(data.isActive.value) else SqlNull
    case 6 => if data.password.Some? then SqlHash(BcryptOf(data.password.value)) else SqlNull
    case _ => SqlNull
  }

  /** A text value, or SQL NULL for `None`. */
  function TextOrNull(s: Option<string>): SqlValue
  {
    if s.Some? then SqlText(s.value) else SqlNull
  }

  /** The positions `0..n` of the column order the body sets, in order. */
  function SetPositions(data: UserUpdate, n: nat): (r: seq<nat>)
    requires n <= ColumnCount
    ensures forall j :: 0 <= j < |r| ==> r[j] < n && Sets(data, r[j])
    ensures forall i :: 0 <= i < n && Sets(data, i) ==> i in r
    ensures forall j, k :: 0 <= j < k < |r| ==> r[j] < r[k]
  {
    if n == 0 then []
    else if Sets(data, n - 1) then SetPositions(data, n - 1) + [n - 1]
    else SetPositions(data, n - 1)
  }

  /** The SET clause of the column at position `i`. */
  function Clause(i: nat): string
    requires i < ColumnCount
  {
    Column(i) + " = %s"
  }

  /** Clauses that appear in the fixed column order. */
  predicate InColumnOrder(fields: seq<string>)
  {
    forall j, k, a, b ::
      (0 <= j < k < |fields| && 0 <= a < ColumnCount && 0 <= b < ColumnCount &&
       fields[j] == Clause(a) && fields[k] == Clause(b)) ==> a < b
  }

  /** The clause `"<column> = %s"` for each set position. */
  function Clauses(ps: seq<nat>): (r: seq<string>)
    requires forall j :: 0 <= j < |ps| ==> ps[j] < ColumnCount
    ensures |r| == |ps|
    ensures forall j :: 0 <= j < |ps| ==> r[j] == Clause(ps[j])
  {
    if ps == [] then [] else Clauses(ps[..|ps| - 1]) + [Clause(ps[|ps| - 1])]
  }

  /** The bound value for each set position. */
  function Values(data: UserUpdate, ps: seq<nat>): (r: seq<SqlValue>)
    ensures |r| == |ps|
    ensures forall j :: 0 <= j < |ps| ==> r[j] == ValueFor(data, ps[j])
  {
    if ps == [] then [] else Values(data, ps[..|ps| - 1]) + [ValueFor(data, ps[|ps| - 1])]
  }

  /** What `update_user` would run for `data`, or the 400 it raises first. */
  function UpdateOf(userId: int, data: UserUpdate): Result<Update>
  {
    if HasNewPassword(data) && |data.password.value| < 6 then Err(PasswordTooShort)
    else if HasNewPassword(data) && HashPassword(data.password.value).Err? then Err(PasswordTooLong)
    else
      var ps := SetPositions(data, ColumnCount);
      if ps == [] then Err(NothingToUpdate)
      else Ok(Update(Clauses(ps) + ["updated_at = NOW()"], Values(data, ps) + [SqlInt(userId)]))
  }

  /**
   * A non-empty password under six characters is refused, before an empty
   * body is; the body is refused as empty exactly when it sets no field (an
   * empty password counts as not given).
   */
  lemma UpdateErrors(userId: int, data: UserUpdate)
    ensures HasNewPassword(data) && |data.password.value| < 6 ==> UpdateOf(userId, data) == Err(PasswordTooShort)
    ensures UpdateOf(userId, data) == Err(NothingToUpdate) <==>
      forall i :: 0 <= i < ColumnCount ==> !Sets(data, i)
  {
    var ps := SetPositions(data, ColumnCount);
    if forall i :: 0 <= i < ColumnCount ==> !Sets(data, i) {
      assert !Sets(data, 6);
    }
    if UpdateOf(userId, data) == Err(NothingToUpdate) {
      assert PasswordTooShort.detail != NothingToUpdate.detail by {
        assert PasswordTooShort.detail[0] != NothingToUpdate.detail[0];
      }
      assert PasswordTooLong.detail != NothingToUpdate.detail by {
        assert PasswordTooLong.detail[0] != NothingToUpdate.detail[0];
      }
      assert ps == [];
    }
  }

  /** An accepted update: the set positions' clauses and values, then the timestamp clause and the id. */
  lemma UpdateParts(userId: int, data: UserUpdate) returns (ps: seq<nat>)
    requires UpdateOf(userId, data).Ok?
    ensures ps == SetPositions(data, ColumnCount) && ps != []
    ensures UpdateOf(userId, data).value.fields == Clauses(ps) + ["updated_at = NOW()"]
    ensures UpdateOf(userId, data).value.values == Values(data, ps) + [SqlInt(userId)]
  {
    ps := SetPositions(data, ColumnCount);
  }

  /** `updated_at = NOW()` is the last clause and the user id the last value, after at least one field. */
  lemma UpdateEndsWithTimestamp(userId: int, data: UserUpdate, u: Update)
    requires UpdateOf(userId, data) == Ok(u)
    ensures |u.fields| == |u.values| >= 2
    ensures u.fields[|u.fields| - 1] == "updated_at = NOW()"
    ensures u.values[|u.values| - 1] == SqlInt(userId)
  {
    var ps := UpdateParts(userId, data);
  }

  /** Each clause but the last sets a field the body gives, with that field's value at the same position. */
  lemma UpdateAligned(userId: int, data: UserUpdate, u: Update, j: nat)
    requires UpdateOf(userId, data) == Ok(u) && j < |u.fields| - 1
    ensures j < |u.values|
    ensures exists i :: 0 <= i < ColumnCount && Sets(data, i) && u.fields[j] == Clause(i) && u.values[j] == ValueFor(data, i)
  {
    var ps := UpdateParts(userId, data);
    var i := ps[j];
    assert u.fields[j] == Clause(i) && u.values[j] == ValueFor(data, i);
  }

  /** The clauses but the last follow the fixed column order. */
  lemma UpdateInColumnOrder(userId: int, data: UserUpdate, u: Update)
    requires UpdateOf(userId, data) == Ok(u)
    ensures |u.fields| >= 1 && InColumnOrder(u.fields[..|u.fields| - 1])
  {
    var ps := UpdateParts(userId, data);
    assert u.fields[..|u.fields| - 1] == Clauses(ps);
    ClausesInOrder(ps);
  }

  lemma ClausesInOrder(ps: seq<nat>)
    requires forall j :: 0 <= j < |ps| ==> ps[j] < ColumnCount
    requires forall j, k :: 0 <= j < k < |ps| ==> ps[j] < ps[k]
    ensures InColumnOrder(Clauses(ps))
  {
    var f := Clauses(ps);
    forall j, k, a, b | 0 <= j < k < |f| && 0 <= a < ColumnCount && 0 <= b < ColumnCount &&
                        f[j] == Clause(a) && f[k] == Clause(b)
      ensures a < b
    {
      ColumnClauseInjective(ps[j], a);
      ColumnClauseInjective(ps[k], b);
    }
  }

  /** The clauses name exactly the fields the body gives. */
  lemma UpdateFieldsExact(userId: int, data: UserUpdate, u: Update, i: nat)
    requires UpdateOf(userId, data) == Ok(u) && i < ColumnCount
    ensures Sets(data, i) <==> Clause(i) in u.fields
  {
    var ps := UpdateParts(userId, data);
    if Sets(data, i) {
      assert i in ps;
      ClausePresent(ps, i);
    }
    if Clause(i) in u.fields {
      ClauseFromPosition(ps, i);
    }
  }

  lemma ClausePresent(ps: seq<nat>, i: nat)
    requires forall j :: 0 <= j < |ps| ==> ps[j] < ColumnCount
    requires i in ps
    ensures Clause(i) in Clauses(ps) + ["updated_at = NOW()"]
  {
    var j :| 0 <= j < |ps| && ps[j] == i;
    assert (Clauses(ps) + ["updated_at = NOW()"])[j] == Clause(i);
  }

  lemma ClauseFromPosition(ps: seq<nat>, i: nat)
    requires forall j :: 0 <= j < |ps| ==> ps[j] < ColumnCount
    requires i < ColumnCount && Clause(i) in Clauses(ps) + ["updated_at = NOW()"]
    ensures i in ps
  {
    var f := Clauses(ps) + ["updated_at = NOW()"];
    var j :| 0 <= j < |f| && f[j] == Clause(i);
    if j < |ps| {
      ColumnClauseInjective(ps[j], i);
    } else {
      NotUpdatedAt(i);
    }
  }

  /** One more position of the column order extends the clause and value lists by its entry, when set. */
  lemma UpdateStep(data: UserUpdate, k: nat, fields: seq<string>, values: seq<SqlValue>)
    requires k < ColumnCount
    requires fields == Clauses(SetPositions(data, k)) && values == Values(data, SetPositions(data, k))
    ensures Sets(data, k) ==>
      && fields + [Clause(k)] == Clauses(SetPositions(data, k + 1))
      && values + [ValueFor(data, k)] == Values(data, SetPositions(data, k + 1))
    ensures !Sets(data, k) ==>
      fields == Clauses(SetPositions(data, k + 1)) && values == Values(data, SetPositions(data, k + 1))
  {
    var ps := SetPositions(data, k);
    if Sets(data, k) {
      assert (ps + [k])[..|ps|] == ps;
    } else {
      assert SetPositions(data, k + 1) == ps;
    }
  }

  lemma ColumnClauseInjective(a: nat, b: nat)
    requires a < ColumnCount && b < ColumnCount
    requires Clause(a) == Clause(b)
    ensures a == b
  {
    assert Column(a) == Clause(a)[..|Column(a)|];
  }

  lemma NotUpdatedAt(i: nat)
    requires i < ColumnCount
    ensures Clause(i) != "updated_at = NOW()"
  {
    assert Clause(i)[|Clause(i)| - 1] == 's';
  }

  /** The clause of each column, as `update_user` writes it. */
  lemma ClauseLiterals()
    ensures Clause(0) == "rut = %s"
    ensures Clause(1) == "nombre = %s"
    ensures Clause(2) == "nombre_mostrar = %s"
    ensures Clause(3) == "correo = %s"
    ensures Clause(4) == "role_id = %s"
    ensures Clause(5) == "is_active = %s"
    ensures Clause(6) == "password_hash = %s"
  {
  }

  /** `"UPDATE users SET " + ", ".join(fields) + " WHERE id = %s"` */
  function UpdateSql(u: Update): string
  {
    "UPDATE users SET " + Join(", ", u.fields) + " WHERE id = %s"
  }

  /** The password comes last: its clause and its hash follow those of the six profile fields. */
  lemma PasswordPosition(data: UserUpdate, fields: seq<string>, values: seq<SqlValue>)
    requires fields == Clauses(SetPositions(data, 6)) && values == Values(data, SetPositions(data, 6))
    ensures HasNewPassword(data) ==>
      && fields + ["password_hash = %s"] == Clauses(SetPositions(data, 7))
      && values + [SqlHash(BcryptOf(data.password.value))] == Values(data, SetPositions(data, 7))
    ensures !HasNewPassword(data) ==>
      fields == Clauses(SetPositions(data, 7)) && values == Values(data, SetPositions(data, 7))
  {
    UpdateStep(data, 6, fields, values);
    assert Clause(6) == "password_hash = %s" by {
      ClauseLiterals();
    }
    if HasNewPassword(data) {
      assert Sets(data, 6);
      assert ValueFor(data, 6) == SqlHash(BcryptOf(data.password.value));
    } else {
      assert !Sets(data, 6);
    }
  }

  /** `UpdateOf` in terms of the clauses and values of all seven positions. */
  lemma UpdateOfAll(userId: int, data: UserUpdate, fields: seq<string>, values: seq<SqlValue>)
    requires fields == Clauses(SetPositions(data, 7)) && values == Values(data, SetPositions(data, 7))
    ensures HasNewPassword(data) && |data.password.value| < 6 ==> UpdateOf(userId, data) == Err(PasswordTooShort)
    ensures HasNewPassword(data) && |data.password.value| >= 6 && Utf8Length(data.password.value) > 72 ==>
      UpdateOf(userId, data) == Err(PasswordTooLong)
    ensures !(HasNewPassword(data) && (|data.password.value| < 6 || Utf8Length(data.password.value) > 72)) ==>
      UpdateOf(userId, data) ==
        if fields == [] then Err(NothingToUpdate)
        else Ok(Update(fields + ["updated_at = NOW()"], values + [SqlInt(userId)]))
  {
    assert ColumnCount == 7;
  }

  /**
   * `update_user` after the admin check: for each of the six profile
   * fields the body gives, in the fixed order, its clause and its value;
   * then the password (refused when short, hashed otherwise); then the
   * timestamp clause and the id.
   */
  method BuildUpdate(userId: int, data: UserUpdate) returns (r: Result<Update>)
    ensures r == UpdateOf(userId, data)
  {
    var fields: seq<string> := [];
    var values: seq<SqlValue> := [];
    for i := 0 to 6
      invariant fields == Clauses(SetPositions(data, i)) && values == Values(data, SetPositions(data, i))
    {
      UpdateStep(data, i, fields, values);
      if Sets(data, i) {
        fields := fields + [Clause(i)];
        values := values + [ValueFor(data, i)];
      }
    }
    PasswordPosition(data, fields, values);
    if data.password.Some? && data.password.value != "" {
      if |data.password.value| < 6 {
        UpdateOfAll(userId, data, fields + ["password_hash = %s"], values + [SqlHash(BcryptOf(data.password.value))]);
        return Err(PasswordTooShort);
      }
      var hashed := HashPassword(data.password.value);
      if hashed.Err? {
        UpdateOfAll(userId, data, fields + ["password_hash = %s"], values + [SqlHash(BcryptOf(data.password.value))]);
        return Err(hashed.error);
      }
      fields := fields + ["password_hash = %s"];
      values := values + [SqlHash(hashed.value)];
    }
    UpdateOfAll(userId, data, fields, values);
    if fields == [] {
      return Err(NothingToUpdate);
    }
    fields := fields + ["updated_at = NOW()"];
    values := values + [SqlInt(userId)];
    r := Ok(Update(fields, values));
  }
}
