/**
 * The pre-flight validator of the emission endpoint: warnings for products
 * without IGV, an error when the line totals do not add up to the declared
 * total (tolerance 0.01), and the client-identity rule per document kind.
 */
module Validator {
  import opened Wrappers
  import opened Schemas

  datatype Warning = SinIgv(descripcion: string)

  datatype ValidationError =
    | TotalNoCoincide(calculado: real, declarado: real)
    | BoletaSinCliente
    | FacturaSinRuc

  datatype ValidationReport = ValidationReport(
    valid: bool,
    errors: seq<ValidationError>,
    warnings: seq<Warning>)

  const Tolerance: real := 0.01

  function Abs(x: real): real {
    if x < 0.0 then -x else x
  }

  /** Sum of the line totals. */
  function SumTotals(ps: seq<Producto>): real {
    if ps == [] then 0.0 else ps[0].precioTotal + SumTotals(ps[1..])
  }

  /** One warning per product whose IGV is 0, in product order. */
  function ZeroIgvWarnings(ps: seq<Producto>): seq<Warning> {
    if ps == [] then []
    else (if ps[0].igv == 0 then [SinIgv(ps[0].descripcion)] else []) + ZeroIgvWarnings(ps[1..])
  }

  /** Number of products whose IGV is 0. */
  function CountZeroIgv(ps: seq<Producto>): nat {
    if ps == [] then 0 else (if ps[0].igv == 0 then 1 else 0) + CountZeroIgv(ps[1..])
  }

  predicate TotalMismatch(ps: seq<Producto>, declarado: real) {
    Abs(SumTotals(ps) - declarado) > Tolerance
  }

  /** The client-identity rule: a boleta needs a DNI or a name, a factura a RUC, other kinds nothing. */
  predicate ClienteIncompleto(tipo: string, c: Cliente) {
    if tipo == "BOLETA" then !Truthy(c.dni) && !Truthy(c.nombre)
    else if tipo == "FACTURA" then !Truthy(c.ruc)
    else false
  }

  predicate HasTotalError(errors: seq<ValidationError>) {
    exists k :: 0 <= k < |errors| && errors[k].TotalNoCoincide?
  }

  function TotalErrors(req: EmisionRequest): seq<ValidationError> {
    var calculado := SumTotals(req.productos);
    if Abs(calculado - req.resumen.total) > Tolerance
    then [TotalNoCoincide(calculado, req.resumen.total)]
    else []
  }

  function ClienteErrors(req: EmisionRequest): seq<ValidationError> {
    if req.tipoDocumento == "BOLETA" then
      (if !Truthy(req.cliente.dni) && !Truthy(req.cliente.nombre) then [BoletaSinCliente] else [])
    else if req.tipoDocumento == "FACTURA" then
      (if !Truthy(req.cliente.ruc) then [FacturaSinRuc] else [])
    else []
  }

  /** The report `validate_comprobante` returns for a request. */
  function Validate(req: EmisionRequest): (r: ValidationReport)
    ensures r.valid <==> r.errors == []
    ensures r.warnings == ZeroIgvWarnings(req.productos)
    ensures HasTotalError(r.errors) <==> TotalMismatch(req.productos, req.resumen.total)
    ensures BoletaSinCliente in r.errors <==>
      req.tipoDocumento == "BOLETA" && !Truthy(req.cliente.dni) && !Truthy(req.cliente.nombre)
    ensures FacturaSinRuc in r.errors <==>
      req.tipoDocumento == "FACTURA" && !Truthy(req.cliente.ruc)
    ensures r.valid <==> !TotalMismatch(req.productos, req.resumen.total) && !ClienteIncompleto(req.tipoDocumento, req.cliente)
  {
    var errors := TotalErrors(req) + ClienteErrors(req);
    assert TotalMismatch(req.productos, req.resumen.total) ==> errors[0].TotalNoCoincide?;
    assert forall k :: |TotalErrors(req)| <= k < |errors| ==> !errors[k].TotalNoCoincide?;
    ValidationReport(|errors| == 0, errors, ZeroIgvWarnings(req.productos))
  }

  lemma {:induction false} ZeroIgvWarningsAppend(ps: seq<Producto>, p: Producto)
    ensures ZeroIgvWarnings(ps + [p]) ==
      ZeroIgvWarnings(ps) + (if p.igv == 0 then [SinIgv(p.descripcion)] else [])
  {
    if ps != [] {
      assert (ps + [p])[1..] == ps[1..] + [p];
      ZeroIgvWarningsAppend(ps[1..], p);
    } else {
      assert ps + [p] == [p];
    }
  }

  /** `validate_comprobante`: the warnings are appended in a loop over the products. */
  method ValidateComprobante(req: EmisionRequest) returns (r: ValidationReport)
    ensures r == Validate(req)
  {
    var warnings: seq<Warning> := [];
    var errors: seq<ValidationError> := [];
    var i := 0;
    while i < |req.productos|
      invariant 0 <= i <= |req.productos|
      invariant warnings == ZeroIgvWarnings(req.productos[..i])
    {
      var producto := req.productos[i];
      assert req.productos[..i + 1] == req.productos[..i] + [producto];
      ZeroIgvWarningsAppend(req.productos[..i], producto);
      if producto.igv == 0 {
        warnings := warnings + [SinIgv(producto.descripcion)];
      }
      i := i + 1;
    }
    assert req.productos[..i] == req.productos;

    var totalCalculado := SumTotals(req.productos);
    if Abs(totalCalculado - req.resumen.total) > Tolerance {
      errors := errors + [TotalNoCoincide(totalCalculado, req.resumen.total)];
    }

    if req.tipoDocumento == "BOLETA" {
      if !Truthy(req.cliente.dni) && !Truthy(req.cliente.nombre) {
        errors := errors + [BoletaSinCliente];
      }
    } else if req.tipoDocumento == "FACTURA" {
      if !Truthy(req.cliente.ruc) {
        errors := errors + [FacturaSinRuc];
      }
    }

    r := ValidationReport(|errors| == 0, errors, warnings);
  }

  /** There are exactly as many warnings as products without IGV, and warning k names the k-th such product. */
  lemma {:induction false} WarningsMatchZeroIgvProducts(ps: seq<Producto>)
    ensures |ZeroIgvWarnings(ps)| == CountZeroIgv(ps)
    ensures forall k :: 0 <= k < |ps| && ps[k].igv == 0 ==> SinIgv(ps[k].descripcion) in ZeroIgvWarnings(ps)
    ensures forall w :: w in ZeroIgvWarnings(ps) ==>
      exists k :: 0 <= k < |ps| && ps[k].igv == 0 && w == SinIgv(ps[k].descripcion)
  {
    if ps != [] {
      WarningsMatchZeroIgvProducts(ps[1..]);
      var head := if ps[0].igv == 0 then [SinIgv(ps[0].descripcion)] else [];
      assert ZeroIgvWarnings(ps) == head + ZeroIgvWarnings(ps[1..]);
      forall k | 0 <= k < |ps| && ps[k].igv == 0
        ensures SinIgv(ps[k].descripcion) in ZeroIgvWarnings(ps)
      {
        if k > 0 { assert ps[k] == ps[1..][k - 1]; }
      }
      forall w | w in ZeroIgvWarnings(ps)
        ensures exists k :: 0 <= k < |ps| && ps[k].igv == 0 && w == SinIgv(ps[k].descripcion)
      {
        if w in head {
          assert ps[0].igv == 0 && w == SinIgv(ps[0].descripcion);
        } else {
          var j :| 0 <= j < |ps[1..]| && ps[1..][j].igv == 0 && w == SinIgv(ps[1..][j].descripcion);
          assert ps[j + 1] == ps[1..][j];
        }
      }
    }
  }

  /** Products that agree on their line totals add up to the same amount, whatever their IGV. */
  lemma {:induction false} SumTotalsIgnoresIgv(ps: seq<Producto>, qs: seq<Producto>)
    requires |ps| == |qs|
    requires forall k :: 0 <= k < |ps| ==> ps[k].precioTotal == qs[k].precioTotal
    ensures SumTotals(ps) == SumTotals(qs)
  {
    if ps != [] {
      SumTotalsIgnoresIgv(ps[1..], qs[1..]);
    }
  }

  /**
   * Warnings never affect validity: two requests that differ only in their
   * products' IGV (or any field other than the line total) are equally valid.
   */
  lemma ValidityIgnoresWarnings(a: EmisionRequest, b: EmisionRequest)
    requires a.tipoDocumento == b.tipoDocumento && a.cliente == b.cliente && a.resumen == b.resumen
    requires |a.productos| == |b.productos|
    requires forall k :: 0 <= k < |a.productos| ==> a.productos[k].precioTotal == b.productos[k].precioTotal
    ensures Validate(a).valid == Validate(b).valid
  {
    SumTotalsIgnoresIgv(a.productos, b.productos);
  }

  /** Line totals that satisfy the schema add up to a non-negative amount. */
  lemma {:induction false} SumTotalsNonNegative(ps: seq<Producto>)
    requires forall k :: 0 <= k < |ps| ==> ProductoValid(ps[k])
    ensures SumTotals(ps) >= 0.0
  {
    if ps != [] {
      assert ProductoValid(ps[0]);
      SumTotalsNonNegative(ps[1..]);
    }
  }

  /** The end-to-end example: one product of 2 x 5.00 without IGV, total 10.00, client with DNI. */
  lemma ExampleBoletaSinIgv(req: EmisionRequest)
    requires req.tipoDocumento == "BOLETA"
    requires req.cliente.dni == Some("12345678")
    requires req.productos == [Producto(2.0, "PRODUCTO TEST", "KILOGRAMO", 5.0, 0, 10.0)]
    requires req.resumen.total == 10.0
    ensures Validate(req) == ValidationReport(true, [], [SinIgv("PRODUCTO TEST")])
  {
    assert req.productos[1..] == [];
    assert SumTotals(req.productos) == 10.0;
    assert ZeroIgvWarnings(req.productos) == [SinIgv("PRODUCTO TEST")];
    assert Truthy(req.cliente.dni);
  }
}
