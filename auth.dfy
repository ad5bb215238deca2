/**
 * The guards in front of the ingestion endpoints: the bearer token taken from
 * the `Authorization` header, and the admin test applied to the user record
 * the main API returns for that token.
 */
module Auth {
  import opened Wrappers
  import opened Text
  import opened Json

  /** The user record (`dict`) the main API returns. */
  type User = Object

  const MissingHeader := HttpError(401, "Header Authorization requerido")
  const BadFormat := HttpError(401, "Formato inválido. Use: Bearer <token>")
  const NotAdmin := HttpError(403, "Acceso denegado - Solo administradores")

  /** `authorization.split(" ", 1)[1]`: everything after the first space. */
  function AfterFirstSpace(s: string): (r: Option<string>)
    ensures r.Some? <==> ' ' in s
    ensures r.Some? ==> exists i :: 0 <= i < |s| && s[i] == ' ' && ' ' !in s[..i] && r.value == s[i + 1..]
  {
    match IndexOf(s, ' ')
    case None => None
    case Some(i) => Some(s[i + 1..])
  }

  /** `extract_bearer_token(authorization)`; a missing header is `None`. */
  function BearerToken(authorization: Option<string>): Result<string>
  {
    if authorization.None? || authorization.value == "" then Err(MissingHeader)
    else if !StartsWith(Lower(authorization.value), "bearer ") then Err(BadFormat)
    else match AfterFirstSpace(authorization.value)
      case Some(t) => Ok(t)
      case None => Err(BadFormat)
  }

  /**
   * A header is accepted exactly when it is present and starts with
   * "bearer " in any letter case; the token is what follows those seven
   * characters.
   */
  lemma BearerTokenSpec(authorization: Option<string>)
    ensures BearerToken(authorization).Ok? <==>
      authorization.Some? && |authorization.value| >= 7 && Lower(authorization.value[..7]) == "bearer "
    ensures BearerToken(authorization).Ok? ==> BearerToken(authorization).value == authorization.value[7..]
    ensures authorization.None? || authorization == Some("") ==> BearerToken(authorization) == Err(MissingHeader)
    ensures BearerToken(authorization).Err? ==> BearerToken(authorization).error.status == 401
  {
    if authorization.Some? && |authorization.value| >= 7 {
      var s := authorization.value;
      assert Lower(s)[..7] == Lower(s[..7]);
      if Lower(s[..7]) == "bearer " {
        assert Lower(s[..7])[6] == LowerChar(s[6]) == ' ';
        assert s[6] == ' ';
        forall i | 0 <= i < 6
          ensures s[i] != ' '
        {
          assert Lower(s[..7])[i] == LowerChar(s[i]) == "bearer "[i];
        }
        assert ' ' !in s[..6];
        assert IndexOf(s, ' ') == Some(6);
      }
    }
  }

  /** `extract_bearer_token("Bearer " + t)` is `t`, whatever `t` holds. */
  lemma BearerRoundTrip(t: string)
    ensures BearerToken(Some("Bearer " + t)) == Ok(t)
  {
    var s := "Bearer " + t;
    assert s[..7] == "Bearer ";
    assert Lower("Bearer ") == "bearer ";
    BearerTokenSpec(Some(s));
    assert s[7..] == t;
  }

  /** The admin criteria of `require_admin_token`, any one of which suffices. */
  predicate IsAdmin(user: User)
  {
    || ("rol" in user && user["rol"] == JStr("admin"))
    // `role_id in (99, 1)` compares with Python `==`, under which `True == 1`
    || ("role_id" in user && user["role_id"] in {JNum(99.0), JNum(1.0), JBool(true)})
    || ("is_admin" in user && user["is_admin"] == JBool(true))
  }

  /**
   * `require_admin_token(token)`: `validated` is what validating the token
   * against the main API gave (the user, or its 401/503 error).
   */
  function RequireAdminToken(validated: Result<User>): (r: Result<User>)
    ensures r.Ok? <==> validated.Ok? && IsAdmin(validated.value)
    ensures r.Ok? ==> r.value == validated.value
    ensures validated.Err? ==> r == validated
    ensures validated.Ok? && !IsAdmin(validated.value) ==> r == Err(NotAdmin)
  {
    match validated
    case Err(e) => Err(e)
    case Ok(user) => if IsAdmin(user) then Ok(user) else Err(NotAdmin)
  }

  /**
   * The header check followed by the admin check, as every admin endpoint
   * runs them; `validate` stands for the call to the main API.
   */
  function Authorize(authorization: Option<string>, validate: string -> Result<User>): (r: Result<User>)
    ensures r.Ok? <==> (
      && BearerToken(authorization).Ok?
      && validate(BearerToken(authorization).value).Ok?
      && IsAdmin(validate(BearerToken(authorization).value).value))
    ensures r.Ok? ==> validate(BearerToken(authorization).value) == Ok(r.value)
    ensures BearerToken(authorization).Err? ==> r == Err(BearerToken(authorization).error)
  {
    match BearerToken(authorization)
    case Err(e) => Err(e)
    case Ok(token) => RequireAdminToken(validate(token))
  }

  /** The admin test on concrete user records. */
  lemma AdminExamples()
    ensures IsAdmin(map["rol" := JStr("admin")])
    ensures IsAdmin(map["role_id" := JNum(99.0)]) && IsAdmin(map["role_id" := JNum(1.0)])
    ensures IsAdmin(map["is_admin" := JBool(true)])
    ensures !IsAdmin(map["rol" := JStr("ejecutivo"), "role_id" := JNum(2.0), "is_admin" := JStr("true")])
    ensures !IsAdmin(map[])
  {
  }
}
