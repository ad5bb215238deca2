/**
 * `enviar_a_n8n`: the payload sent to the n8n webhook for a confirmed
 * upload. The registration date gives the year and the Spanish month name;
 * the uploader gives the `ingresado_por` block, with fallbacks for missing
 * fields. The HTTP POST itself is an input.
 */
module Webhook {
  import opened Wrappers
  import opened Text
  import opened Numbers
  import opened Json
  import opened Unifier

  datatype Date = Date(year: int, month: int, day: int)

  predicate IsLeapYear(y: int)
  {
    y % 4 == 0 && (y % 100 != 0 || y % 400 == 0)
  }

  function DaysInMonth(y: int, m: int): int
    requires 1 <= m <= 12
  {
    if m == 2 then (if IsLeapYear(y) then 29 else 28)
    else if m in {4, 6, 9, 11} then 30
    else 31
  }

  /** A calendar date `datetime` accepts: a year from 1, a month, a day of that month. */
  predicate ValidDate(d: Date)
  {
    1 <= d.year && 1 <= d.month <= 12 && 1 <= d.day <= DaysInMonth(d.year, d.month)
  }

  /** The `%m` field: one or two digits with value 1 to 12. */
  function MonthField(t: string): (r: Option<int>)
    ensures r.Some? ==> 1 <= r.value <= 12
    ensures r.Some? ==> AllDigits(t) && r.value == DigitsValue(t)
  {
    if 1 <= |t| <= 2 && AllDigits(t) && 1 <= DigitsValue(t) <= 12 then Some(DigitsValue(t)) else None
  }

  /**
   * The `%d` field: one or two digits with value 1 to 31, or a space followed
   * by a digit 1 to 9.
   */
  function DayField(t: string): (r: Option<int>)
    ensures r.Some? ==> 1 <= r.value <= 31 && 1 <= |t| <= 2
    ensures r.Some? && t[0] != ' ' ==> AllDigits(t) && r.value == DigitsValue(t)
    ensures r.Some? && t[0] == ' ' ==> |t| == 2 && r.value == t[1] as int - '0' as int
  {
    if 1 <= |t| <= 2 && AllDigits(t) && 1 <= DigitsValue(t) <= 31 then Some(DigitsValue(t))
    else if |t| == 2 && t[0] == ' ' && '1' <= t[1] <= '9' then Some(t[1] as int - '0' as int)
    else None
  }

  /**
   * `datetime.strptime(fecha_registro, "%Y-%m-%d")`: exactly four digits of
   * year, then the month and day fields, and nothing after them.
   */
  function ParseDate(s: string): (r: Option<Date>)
    ensures r.Some? ==> ValidDate(r.value)
  {
    if |s| < 5 || s[4] != '-' || !AllDigits(s[..4]) then None
    else
      var rest := s[5..];
      match IndexOf(rest, '-')
      case None => None
      case Some(j) =>
        var year, month, day := DigitsValue(s[..4]), MonthField(rest[..j]), DayField(rest[j + 1..]);
        if month.None? || day.None? || year < 1 || day.value > DaysInMonth(year, month.value) then None
        else Some(Date(year, month.value, day.value))
  }

  function DigitOf(c: char): int
  {
    c as int - '0' as int
  }

  lemma OneDigit(t: string)
    requires |t| == 1 && AllDigits(t)
    ensures DigitsValue(t) == DigitOf(t[0])
  {
    assert t[..0] == [];
  }

  lemma TwoDigits(t: string)
    requires |t| == 2 && AllDigits(t)
    ensures DigitsValue(t) == 10 * DigitOf(t[0]) + DigitOf(t[1])
  {
    OneDigit(t[..1]);
  }

  lemma FourDigits(t: string)
    requires |t| == 4 && AllDigits(t)
    ensures DigitsValue(t) == 1000 * DigitOf(t[0]) + 100 * DigitOf(t[1]) + 10 * DigitOf(t[2]) + DigitOf(t[3])
  {
    TwoDigits(t[..2]);
    assert t[..3][..2] == t[..2];
  }

  /** The day fields the date parser accepts are exactly its day tokens. */
  lemma DayFieldTokens(t: string)
    ensures DayField(t).Some? <==>
      (|t| == 1 && '1' <= t[0] <= '9') ||
      (|t| == 2 && ((t[0] == '0' && '1' <= t[1] <= '9') || ('1' <= t[0] <= '2' && IsDigit(t[1]))
                    || (t[0] == '3' && '0' <= t[1] <= '1') || (t[0] == ' ' && '1' <= t[1] <= '9')))
  {
    if |t| == 1 && IsDigit(t[0]) {
      OneDigit(t);
    }
    if |t| == 2 && IsDigit(t[0]) && IsDigit(t[1]) {
      assert AllDigits(t);
      TwoDigits(t);
    }
  }

  /** The month fields the date parser accepts are exactly its month tokens. */
  lemma MonthFieldTokens(t: string)
    ensures MonthField(t).Some? <==>
      (|t| == 1 && '1' <= t[0] <= '9') ||
      (|t| == 2 && ((t[0] == '0' && '1' <= t[1] <= '9') || (t[0] == '1' && '0' <= t[1] <= '2')))
  {
    if |t| == 1 && IsDigit(t[0]) {
      OneDigit(t);
    }
    if |t| == 2 && IsDigit(t[0]) && IsDigit(t[1]) {
      assert AllDigits(t);
      TwoDigits(t);
    }
  }

  /** A zero month, a month past December and a space-padded month are refused. */
  lemma MonthFieldRefusals()
    ensures MonthField("00") == None && MonthField("13") == None && MonthField(" 1") == None
  {
    MonthFieldTokens("00");
    MonthFieldTokens("13");
    MonthFieldTokens(" 1");
  }

  const MesesEsp: seq<string> := [
    "ENERO", "FEBRERO", "MARZO", "ABRIL", "MAYO", "JUNIO",
    "JULIO", "AGOSTO", "SEPTIEMBRE", "OCTUBRE", "NOVIEMBRE", "DICIEMBRE"
  ]

  /** `meses_esp[fecha_obj.month - 1]` */
  function MonthName(m: int): string
    requires 1 <= m <= 12
  {
    MesesEsp[m - 1]
  }

  /**
   * The `ingresado_por` block: the uploader's e-mail (`email`, else
   * `correo`, else "unknown"), display name (`nombre_mostrar`, else
   * `nombre`, else "Desconocido"), `rut` and role (default "admin"); with
   * no uploader, the "Sistema" block.
   */
  function IngresadoPor(digitador: Option<Object>): (r: Object)
    ensures digitador.None? || digitador.value == map[] ==>
      r == map["email" := JStr("sistema"), "nombre" := JStr("Sistema"), "rol" := JStr("system")]
  {
    if digitador.Some? && digitador.value != map[] then
      var d := digitador.value;
      map[
        "email" := Or(Get(d, "email"), GetOr(d, "correo", JStr("unknown"))),
        "nombre" := Or(Get(d, "nombre_mostrar"), GetOr(d, "nombre", JStr("Desconocido"))),
        "rut" := Get(d, "rut"),
        "rol" := GetOr(d, "rol", JStr("admin"))
      ]
    else
      map["email" := JStr("sistema"), "nombre" := JStr("Sistema"), "rol" := JStr("system")]
  }

  /** The fallback chains of `ingresado_por`, field by field. */
  lemma IngresadoPorFallbacks(d: Object)
    requires d != map[]
    ensures var r := IngresadoPor(Some(d));
      && r.Keys == {"email", "nombre", "rut", "rol"}
      && ("email" in d && Truthy(d["email"]) ==> r["email"] == d["email"])
      && (("email" !in d || !Truthy(d["email"])) && "correo" in d ==> r["email"] == d["correo"])
      && (("email" !in d || !Truthy(d["email"])) && "correo" !in d ==> r["email"] == JStr("unknown"))
      && ("nombre_mostrar" in d && Truthy(d["nombre_mostrar"]) ==> r["nombre"] == d["nombre_mostrar"])
      && (("nombre_mostrar" !in d || !Truthy(d["nombre_mostrar"])) && "nombre" in d ==> r["nombre"] == d["nombre"])
      && (("nombre_mostrar" !in d || !Truthy(d["nombre_mostrar"])) && "nombre" !in d ==> r["nombre"] == JStr("Desconocido"))
      && r["rut"] == (if "rut" in d then d["rut"] else JNull)
      && r["rol"] == (if "rol" in d then d["rol"] else JStr("admin"))
  {
  }

  /** The JSON body posted to the webhook; `digitador` repeats `ingresado_por`. */
  datatype Payload = Payload(
    registros: seq<Record>, fechaRegistro: string, anio: int, mes: string, ingresadoPor: Object,
    digitador: Object)

  /** The payload, or `None` when the date does not parse (the call then fails before posting). */
  function BuildPayload(registros: seq<Record>, fechaRegistro: string, digitador: Option<Object>): (r: Option<Payload>)
    ensures r.Some? <==> ParseDate(fechaRegistro).Some?
    ensures r.Some? ==>
      var d := ParseDate(fechaRegistro).value;
      && r.value.registros == registros && r.value.fechaRegistro == fechaRegistro
      && r.value.anio == d.year && r.value.mes == MesesEsp[d.month - 1]
      && r.value.ingresadoPor == IngresadoPor(digitador)
      && r.value.digitador == r.value.ingresadoPor
  {
    match ParseDate(fechaRegistro)
    case None => None
    case Some(fecha) =>
      var ingresadoPor := IngresadoPor(digitador);
      Some(Payload(registros, fechaRegistro, fecha.year, MonthName(fecha.month), ingresadoPor, ingresadoPor))
  }

  /**
   * What posting the payload gave: an HTTP status, or an exception
   * (connection failure, timeout, or a 200 reply whose body is not JSON).
   */
  datatype PostOutcome = Status(code: int) | Raised

  /** Why the call reported `success: False`. */
  datatype SendFailure = BadDate | HttpStatus(code: int) | PostRaised

  /** The `success` flag of the reply, with the payload sent or the reason for failure. */
  datatype SendResult = Sent(payload: Payload) | NotSent(why: SendFailure)

  /** `enviar_a_n8n(registros, fecha_registro, digitador)`; `post` stands for the webhook. */
  function SendToWebhook(registros: seq<Record>, fechaRegistro: string, digitador: Option<Object>,
                         post: Payload -> PostOutcome): (r: SendResult)
    ensures r.Sent? <==> ParseDate(fechaRegistro).Some? && post(BuildPayload(registros, fechaRegistro, digitador).value) == Status(200)
    ensures r.Sent? ==> Some(r.payload) == BuildPayload(registros, fechaRegistro, digitador)
    ensures r == NotSent(BadDate) <==> ParseDate(fechaRegistro).None?
    ensures r.NotSent? && r.why.HttpStatus? ==> r.why.code != 200
  {
    match BuildPayload(registros, fechaRegistro, digitador)
    case None => NotSent(BadDate)
    case Some(payload) =>
      match post(payload)
      case Status(code) => if code == 200 then Sent(payload) else NotSent(HttpStatus(code))
      case Raised => NotSent(PostRaised)
  }

  /** "02-29" splits into month 2 and day 29. */
  lemma FebruaryTwentyNinth()
    ensures IndexOf("02-29", '-') == Some(2)
    ensures MonthField("02-29"[..2]) == Some(2) && DayField("02-29"[3..]) == Some(29)
  {
    assert "02-29"[..2] == "02" && "02-29"[3..] == "29";
    TwoDigits("02");
    TwoDigits("29");
  }

  /** `ParseDate` from the values of its three fields. */
  lemma ParseDateParts(s: string, j: nat, y: int, m: int, d: int)
    requires |s| >= 5 && s[4] == '-' && AllDigits(s[..4]) && DigitsValue(s[..4]) == y
    requires IndexOf(s[5..], '-') == Some(j)
    requires MonthField(s[5..][..j]) == Some(m) && DayField(s[5..][j + 1..]) == Some(d)
    ensures ParseDate(s) == if y < 1 || d > DaysInMonth(y, m) then None else Some(Date(y, m, d))
  {
  }

  lemma YearFields()
    ensures "2024-02-29"[..4] == "2024" && "2024-02-29"[5..] == "02-29"
    ensures "2023-02-29"[..4] == "2023" && "2023-02-29"[5..] == "02-29"
    ensures AllDigits("2024") && DigitsValue("2024") == 2024
    ensures AllDigits("2023") && DigitsValue("2023") == 2023
  {
    FourDigits("2024");
    FourDigits("2023");
  }

  /** A leap day in a leap year is accepted. */
  lemma LeapDayAccepted()
    ensures ParseDate("2024-02-29") == Some(Date(2024, 2, 29))
  {
    YearFields();
    FebruaryTwentyNinth();
    ParseDateParts("2024-02-29", 2, 2024, 2, 29);
  }

  /** A leap day outside a leap year is refused. */
  lemma LeapDayRefused()
    ensures ParseDate("2023-02-29") == None
  {
    YearFields();
    FebruaryTwentyNinth();
    ParseDateParts("2023-02-29", 2, 2023, 2, 29);
  }

  /** One-digit month and day fields are accepted. */
  lemma ShortFieldsAccepted()
    ensures ParseDate("2025-1-5") == Some(Date(2025, 1, 5))
  {
    var s := "2025-1-5";
    assert s[..4] == "2025" && s[5..] == "1-5";
    FourDigits("2025");
    assert IndexOf("1-5", '-') == Some(1);
    assert "1-5"[..1] == "1" && "1-5"[2..] == "5";
    OneDigit("1");
    OneDigit("5");
  }
}
