/**
 * The request records of the billing API and the field constraints its
 * schema layer enforces, plus the dd/mm/yyyy date check.
 * Amounts are exact reals; optional fields are `Option`.
 */
module Schemas {
  import opened Wrappers
  import Text

  /** Client identity; every field is optional. */
  datatype Cliente = Cliente(
    nombre: Option<string>,
    dni: Option<string>,
    ruc: Option<string>,
    telefono: Option<string>)

  datatype Producto = Producto(
    cantidad: real,
    descripcion: string,
    unidadMedida: string,
    precioBase: real,
    igv: int,
    precioTotal: real)

  datatype Resumen = Resumen(
    serie: string,
    numero: string,
    subTotal: real,
    igvTotal: real,
    total: real)

  datatype Credenciales = Credenciales(ruc: string, usuario: string, password: string)

  datatype EmisionRequest = EmisionRequest(
    tipoDocumento: string,
    cliente: Cliente,
    productos: seq<Producto>,
    resumen: Resumen,
    fecha: string,
    idRemitente: string,
    credenciales: Credenciales)

  datatype NotaCreditoRequest = NotaCreditoRequest(
    fechaEmision: string,
    tipoNota: string,
    numeroBoleta: string,
    sustento: string,
    credenciales: Credenciales)

  /** Python truthiness of an optional string: present and non-empty. */
  predicate Truthy(o: Option<string>) {
    o.Some? && o.value != ""
  }

  predicate ProductoValid(p: Producto) {
    && p.cantidad > 0.0
    && p.precioBase >= 0.0
    && 0 <= p.igv <= 100
    && p.precioTotal >= 0.0
  }

  predicate ResumenValid(r: Resumen) {
    r.subTotal >= 0.0 && r.igvTotal >= 0.0 && r.total >= 0.0
  }

  /** The two document kinds the emission endpoint admits. */
  predicate SupportedKind(tipo: string) {
    tipo == "BOLETA" || tipo == "FACTURA"
  }

  /** What the schema layer guarantees of an accepted emission request (the date is not checked). */
  predicate EmisionRequestValid(r: EmisionRequest) {
    && SupportedKind(r.tipoDocumento)
    && (forall k :: 0 <= k < |r.productos| ==> ProductoValid(r.productos[k]))
    && ResumenValid(r.resumen)
  }

  const DefaultTipoNota := "01"

  predicate MotiveCode(code: string) {
    code == "01" || code == "02" || code == "03" || code == "04" || code == "05"
  }

  predicate NotaCreditoRequestValid(r: NotaCreditoRequest) {
    MotiveCode(r.tipoNota)
  }

  /**
   * The credit-note kind as stored: the given code, or "01" when the field is
   * omitted. `NotaCreditoRequest.tipoNota` holds the code after this step.
   */
  function ResolveTipoNota(given: Option<string>): (code: string)
    ensures given.None? ==> code == "01"
    ensures given.Some? ==> code == given.value
    ensures (given.None? || MotiveCode(given.value)) ==> MotiveCode(code)
  {
    match given
    case None => DefaultTipoNota
    case Some(c) => c
  }

  // ---------------------------------------------------------------------------
  // validate_fecha: `datetime.strptime(v, "%d/%m/%Y")` must succeed.
  // strptime matches the whole string against
  //   (3[01]|[12]\d|0[1-9]|[1-9]| [1-9]) / (1[0-2]|0[1-9]|[1-9]) / (\d\d\d\d)
  // and then builds a date, which rejects year 0 and days past the month's end.
  // ---------------------------------------------------------------------------

  datatype Date = Date(day: int, month: int, year: int)

  /** An ASCII decimal digit. `\d` in the pattern also matches other Unicode decimal digits; those are not modelled. */
  predicate IsDigit(c: char) { '0' <= c <= '9' }

  function DigitValue(c: char): int
    requires IsDigit(c)
  {
    c as int - '0' as int
  }

  predicate IsLeapYear(y: int) {
    (y % 4 == 0 && y % 100 != 0) || y % 400 == 0
  }

  function DaysInMonth(m: int, y: int): int
    requires 1 <= m <= 12
  {
    if m == 2 then (if IsLeapYear(y) then 29 else 28)
    else if m == 4 || m == 6 || m == 9 || m == 11 then 30
    else 31
  }

  /** A calendar date that Python's `date` constructor accepts. */
  predicate ValidDate(d: Date) {
    && 1 <= d.year <= 9999
    && 1 <= d.month <= 12
    && 1 <= d.day <= DaysInMonth(d.month, d.year)
  }

  /** The `%d` field: one digit 1-9, a space then 1-9, or two digits worth 1..31. */
  function DayField(s: string): (r: Option<int>)
    ensures r.Some? ==> 1 <= r.value <= 31
  {
    if |s| == 1 && '1' <= s[0] <= '9' then Some(DigitValue(s[0]))
    else if |s| == 2 && s[0] == ' ' && '1' <= s[1] <= '9' then Some(DigitValue(s[1]))
    else if |s| == 2 && IsDigit(s[0]) && IsDigit(s[1])
            && 1 <= 10 * DigitValue(s[0]) + DigitValue(s[1]) <= 31
    then Some(10 * DigitValue(s[0]) + DigitValue(s[1]))
    else None
  }

  /** The `%m` field: one digit 1-9, or two digits worth 1..12. */
  function MonthField(s: string): (r: Option<int>)
    ensures r.Some? ==> 1 <= r.value <= 12
  {
    if |s| == 1 && '1' <= s[0] <= '9' then Some(DigitValue(s[0]))
    else if |s| == 2 && IsDigit(s[0]) && IsDigit(s[1])
            && 1 <= 10 * DigitValue(s[0]) + DigitValue(s[1]) <= 12
    then Some(10 * DigitValue(s[0]) + DigitValue(s[1]))
    else None
  }

  /** The `%Y` field: exactly four digits. */
  function YearField(s: string): (r: Option<int>)
    ensures r.Some? ==> 0 <= r.value <= 9999
  {
    if |s| == 4 && IsDigit(s[0]) && IsDigit(s[1]) && IsDigit(s[2]) && IsDigit(s[3])
    then Some(1000 * DigitValue(s[0]) + 100 * DigitValue(s[1]) + 10 * DigitValue(s[2]) + DigitValue(s[3]))
    else None
  }

  /** The date a string denotes under `%d/%m/%Y`, if `strptime` accepts it. */
  function ParseFecha(s: string): (r: Option<Date>)
    ensures r.Some? ==> ValidDate(r.value)
    ensures r.Some? ==> |Text.Split(s, '/')| == 3
  {
    var parts := Text.Split(s, '/');
    if |parts| != 3 then None
    else
      match (DayField(parts[0]), MonthField(parts[1]), YearField(parts[2]))
      case (Some(d), Some(m), Some(y)) =>
        var date := Date(d, m, y);
        if ValidDate(date) then Some(date) else None
      case _ => None
  }

  function TwoDigits(n: int): (s: string)
    requires 0 <= n <= 99
    ensures |s| == 2 && IsDigit(s[0]) && IsDigit(s[1])
    ensures 10 * DigitValue(s[0]) + DigitValue(s[1]) == n
  {
    [('0' as int + n / 10) as char, ('0' as int + n % 10) as char]
  }

  function FourDigits(n: int): (s: string)
    requires 0 <= n <= 9999
    ensures |s| == 4 && IsDigit(s[0]) && IsDigit(s[1]) && IsDigit(s[2]) && IsDigit(s[3])
    ensures 1000 * DigitValue(s[0]) + 100 * DigitValue(s[1]) + 10 * DigitValue(s[2]) + DigitValue(s[3]) == n
  {
    TwoDigits(n / 100) + TwoDigits(n % 100)
  }

  /** The canonical dd/mm/yyyy rendering of a date, as `strftime("%d/%m/%Y")` writes it. */
  function FormatFecha(d: Date): string
    requires ValidDate(d)
  {
    TwoDigits(d.day) + "/" + TwoDigits(d.month) + "/" + FourDigits(d.year)
  }

  /** Three separator-free fields joined by '/' split back into exactly those fields. */
  lemma SplitThree(a: string, b: string, c: string)
    requires '/' !in a && '/' !in b && '/' !in c
    ensures Text.Split(a + "/" + b + "/" + c, '/') == [a, b, c]
  {
    assert a + "/" + b + "/" + c == a + ['/'] + (b + ['/'] + c);
    Text.SplitCons(a, '/', b + ['/'] + c);
    Text.SplitCons(b, '/', c);
  }

  /** Every valid date, written as dd/mm/yyyy, is accepted and read back unchanged. */
  lemma FormatParseRoundTrip(d: Date)
    requires ValidDate(d)
    ensures ParseFecha(FormatFecha(d)) == Some(d)
  {
    SplitThree(TwoDigits(d.day), TwoDigits(d.month), FourDigits(d.year));
  }

  /** A raw field value as it reaches the validator: text, or any other JSON value. */
  datatype RawValue = Text(s: string) | NonText

  /** `validate_fecha`: returns the value unchanged when it is a dd/mm/yyyy date, otherwise the error message. */
  function ValidateFecha(v: RawValue): (r: Result<string, string>)
    ensures v.NonText? ==> r == Err("La fecha debe ser una cadena de texto")
    ensures v.Text? ==> (r.Ok? <==> ParseFecha(v.s).Some?)
    ensures v.Text? && r.Err? ==> r.error == "La fecha debe estar en formato dd/mm/yyyy"
    ensures r.Ok? ==> v == Text(r.value) && |Text.Split(r.value, '/')| == 3
  {
    match v
    case NonText => Err("La fecha debe ser una cadena de texto")
    case Text(s) =>
      if ParseFecha(s).Some? then Ok(s) else Err("La fecha debe estar en formato dd/mm/yyyy")
  }

  /** Parsing a string made of three '/'-separated fields is parsing the fields. */
  lemma ParseFields(a: string, b: string, c: string)
    requires '/' !in a && '/' !in b && '/' !in c
    ensures ParseFecha(a + "/" + b + "/" + c) ==
      match (DayField(a), MonthField(b), YearField(c))
      case (Some(d), Some(m), Some(y)) =>
        if ValidDate(Date(d, m, y)) then Some(Date(d, m, y)) else None
      case _ => None
  {
    SplitThree(a, b, c);
  }

  /** A single-digit day and month are accepted. */
  lemma FechaShortFields()
    ensures ParseFecha("5/3/2024") == Some(Date(5, 3, 2024))
  {
    assert "5/3/2024" == "5" + "/" + "3" + "/" + "2024";
    assert DayField("5") == Some(5);
    assert MonthField("3") == Some(3);
    assert YearField("2024") == Some(2024);
    ParseFields("5", "3", "2024");
  }

  /** 29 February is a date in a leap year. */
  lemma FechaLeapDay()
    ensures ParseFecha("29/02/2024") == Some(Date(29, 2, 2024))
  {
    assert "29/02/2024" == "29" + "/" + "02" + "/" + "2024";
    assert DayField("29") == Some(29);
    assert MonthField("02") == Some(2);
    assert YearField("2024") == Some(2024);
    assert DaysInMonth(2, 2024) == 29;
    ParseFields("29", "02", "2024");
  }

  /** 29 February is rejected in a common year. */
  lemma FechaNoLeapDay()
    ensures ParseFecha("29/02/2023").None?
  {
    assert "29/02/2023" == "29" + "/" + "02" + "/" + "2023";
    assert DayField("29") == Some(29);
    assert MonthField("02") == Some(2);
    assert YearField("2023") == Some(2023);
    assert DaysInMonth(2, 2023) == 28;
    ParseFields("29", "02", "2023");
  }

  /** Year 0000 matches the pattern but is not a date. */
  lemma FechaYearZero()
    ensures ParseFecha("01/01/0000").None?
  {
    assert "01/01/0000" == "01" + "/" + "01" + "/" + "0000";
    ParseFields("01", "01", "0000");
  }
}
