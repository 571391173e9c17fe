/**
 * The boleta/factura emission service: PDF file naming, the total check, the
 * ordered steps of each document kind, and the executor that logs in, runs
 * them, downloads the PDF and always closes the browser it opened.
 *
 * Each flow is specified by a plan, the full list of steps it takes when
 * nothing fails; the methods are proved to take a prefix of their plan and to
 * stop at the first failing step.
 */
module Scraper {
  import opened Wrappers
  import opened Schemas
  import opened Portal
  import Validator

  // ---------------------------------------------------------------------------
  // Pure helpers
  // ---------------------------------------------------------------------------

  const Prefijos: map<string, string> := map[
    "BOLETA" := "PDF-BOLETAEB01-",
    "FACTURA" := "PDF-FACTURAEB01-",
    "NOTA_CREDITO" := "PDF-NOTA_CREDITOEB01-"]

  /** Every prefix in the table is the generic one for its own document kind. */
  lemma PrefijosAreGeneric()
    ensures forall t :: t in Prefijos ==> Prefijos[t] == "PDF-" + t + "EB01-"
  {
    assert Prefijos.Keys == {"BOLETA", "FACTURA", "NOTA_CREDITO"};
    assert Prefijos["BOLETA"] == "PDF-" + "BOLETA" + "EB01-";
    assert Prefijos["FACTURA"] == "PDF-" + "FACTURA" + "EB01-";
    assert Prefijos["NOTA_CREDITO"] == "PDF-" + "NOTA_CREDITO" + "EB01-";
  }

  /** `construir_nombre_pdf`: the table prefix, or the generic one, then number, RUC and ".pdf". */
  function ConstruirNombrePdf(tipo: string, numero: string, ruc: string): (name: string)
    ensures name == "PDF-" + tipo + "EB01-" + numero + ruc + ".pdf"
  {
    PrefijosAreGeneric();
    var prefijo := if tipo in Prefijos then Prefijos[tipo] else "PDF-" + tipo + "EB01-";
    prefijo + numero + ruc + ".pdf"
  }

  /** The file name of a boleta, e.g. "PDF-BOLETAEB01-" + "448" + RUC + ".pdf". */
  lemma NombrePdfBoleta()
    ensures ConstruirNombrePdf("BOLETA", "448", "10000000000") == "PDF-BOLETAEB01-44810000000000.pdf"
  {
  }

  /** The comparison in `validar_total`: the rendered total is accepted within 0.01 of the expected one. */
  function TotalWithinTolerance(actual: real, expected: real): (ok: bool)
    ensures ok <==> expected - Validator.Tolerance <= actual <= expected + Validator.Tolerance
  {
    !(Validator.Abs(actual - expected) > Validator.Tolerance)
  }

  /** The portal-side check and the pre-flight check use the same tolerance, in either direction. */
  lemma SameToleranceAsValidator(ps: seq<Producto>, declarado: real)
    ensures Validator.TotalMismatch(ps, declarado) <==> !TotalWithinTolerance(Validator.SumTotals(ps), declarado)
    ensures TotalWithinTolerance(Validator.SumTotals(ps), declarado) == TotalWithinTolerance(declarado, Validator.SumTotals(ps))
  {
  }

  // ---------------------------------------------------------------------------
  // Plans: the steps each part of the flow takes when nothing fails
  // ---------------------------------------------------------------------------

  const DniDocType := "DOC. NACIONAL DE IDENTIDAD"
  const NoDocType := "SIN DOCUMENTO"

  /** `configurar_cliente_boleta`: DNI path with a wait for the name lookup, or the name typed directly. */
  function ClienteBoletaPlan(c: Cliente): seq<Action> {
    if Truthy(c.dni) then [SelectDocumentType(DniDocType), TypeDocumentNumber(c.dni), AwaitClientName]
    else [SelectDocumentType(NoDocType), TypeClientName(c.nombre)]
  }

  /** A truthy DNI is typed and followed by a wait for the name lookup; otherwise the name is typed and nothing waits. */
  lemma ClienteBoletaPaths(c: Cliente)
    ensures AwaitClientName in ClienteBoletaPlan(c) <==> Truthy(c.dni)
    ensures TypeDocumentNumber(c.dni) in ClienteBoletaPlan(c) <==> Truthy(c.dni)
    ensures TypeClientName(c.nombre) in ClienteBoletaPlan(c) <==> !Truthy(c.dni)
  {
    var steps := ClienteBoletaPlan(c);
    if !Truthy(c.dni) {
      assert steps == [SelectDocumentType(NoDocType), TypeClientName(c.nombre)];
    }
  }

  /** `configurar_cliente_factura`: type the RUC and wait for the name lookup. */
  function ClienteFacturaPlan(c: Cliente): seq<Action> {
    [AwaitClientForm, TypeDocumentNumber(c.ruc), AwaitClientName]
  }

  /** The steps of `emitir_boleta` / `emitir_factura` before the products. */
  function HeaderPlan(req: EmisionRequest): seq<Action>
    requires SupportedKind(req.tipoDocumento)
  {
    if req.tipoDocumento == "BOLETA" then
      [SearchMenu("BOLETA"), ClickMenuEntry("Emitir Boleta de Venta"), EnterApplicationFrame]
      + ClienteBoletaPlan(req.cliente)
      + [ClickContinue, SetEmissionDate("BOLETA", req.fecha)]
    else
      [SearchMenu("FACTURA"), ClickMenuEntry("Emitir Factura"), EnterApplicationFrame, AwaitClientForm]
      + ClienteFacturaPlan(req.cliente)
      + [ClickContinue, SetEmissionDate("FACTURA", req.fecha)]
  }

  /** The header neither fills in a product nor reads the total. */
  lemma HeaderPlanShape(req: EmisionRequest)
    requires SupportedKind(req.tipoDocumento)
    ensures var steps := HeaderPlan(req);
      forall i :: 0 <= i < |steps| ==> !steps[i].FillItem? && !steps[i].ReadTotal?
  {
  }

  /** Every header step must pass. */
  lemma HeaderPlanRequired(req: EmisionRequest)
    requires SupportedKind(req.tipoDocumento)
    ensures AllRequired(HeaderPlan(req))
  {
  }

  /** `agregar_producto`: the IGV-exempt option is ticked exactly when the product's IGV is 0. */
  function ItemPlan(p: Producto, kind: string): seq<Action> {
    [AwaitIdle, OpenItemDialog(kind), FillItem(p)]
    + (if p.igv == 0 then [MarkIgvExempt] else [])
    + [AcceptItem]
  }

  /** The IGV-exempt option is ticked exactly when the product's IGV is 0. */
  lemma ItemPlanIgv(p: Producto, kind: string)
    ensures MarkIgvExempt in ItemPlan(p, kind) <==> p.igv == 0
  {
    if p.igv != 0 {
      assert ItemPlan(p, kind) == [AwaitIdle, OpenItemDialog(kind), FillItem(p), AcceptItem];
    }
  }

  /** One product's steps fill in that product once, at the third step, and end by accepting the item. */
  lemma ItemPlanShape(p: Producto, kind: string)
    ensures var steps := ItemPlan(p, kind);
      && |steps| >= 4 && steps[2] == FillItem(p) && steps[|steps| - 1] == AcceptItem
      && (forall i :: 0 <= i < |steps| && i != 2 ==> !steps[i].FillItem? && !steps[i].ReadTotal?)
  {
  }

  /** One `agregar_producto` per product, in input order. */
  function ItemsPlan(ps: seq<Producto>, kind: string): seq<Action> {
    ItemsUpTo(ps, kind, |ps|)
  }

  /** The `agregar_producto` steps for the first `i` products. */
  function ItemsUpTo(ps: seq<Producto>, kind: string, i: nat): seq<Action>
    requires i <= |ps|
  {
    if i == 0 then [] else ItemsUpTo(ps, kind, i - 1) + ItemPlan(ps[i - 1], kind)
  }

  /** Everything `emitir_boleta` / `emitir_factura` does: header, products, total check. */
  function CargaPlan(req: EmisionRequest): seq<Action>
    requires SupportedKind(req.tipoDocumento)
  {
    HeaderPlan(req) + ItemsPlan(req.productos, req.tipoDocumento) + [ReadTotal(req.tipoDocumento)]
  }

  /** `completar_emision`: save, the optional related-documents dialog, preliminary and final confirmation. */
  function CommitPlan(kind: string): seq<Action> {
    [SaveDocument(kind), AcceptRelatedDocuments, ConfirmPreliminary(kind), ConfirmFinal]
  }

  /** The browser steps of `descargar_pdf`. */
  function DownloadPlan(kind: string): seq<Action> {
    [ReadDocumentNumber, ClickDownload(kind)]
  }

  /** What follows the loading of the document: `completar_emision`, then `descargar_pdf`. */
  function DeliveryPlan(kind: string): seq<Action> {
    CommitPlan(kind) + DownloadPlan(kind)
  }

  /** Everything after the login for a supported kind: load, confirm, download. */
  function EmissionPlan(req: EmisionRequest): seq<Action>
    requires SupportedKind(req.tipoDocumento)
  {
    CargaPlan(req) + DeliveryPlan(req.tipoDocumento)
  }

  /** Every step `send_billing_sunat` takes on the browser when nothing fails, before closing it. */
  function BillingPlan(req: EmisionRequest): seq<Action> {
    [Login(req.credenciales)] + if SupportedKind(req.tipoDocumento) then EmissionPlan(req) else []
  }

  // ---------------------------------------------------------------------------
  // Which error each step raises
  // ---------------------------------------------------------------------------

  /** Where in the billing flow a failure happened, as far as the error raised depends on it. */
  datatype Stage = LoginStage | HeaderStage | ItemStage | TotalStage | CommitStage | DownloadStage

  /** The error each stage raises: its own step error, or the one the stage wraps it in. */
  predicate RaisedIn(f: Fault, s: Stage) {
    match s
    case LoginStage => f.LoginError?
    case HeaderStage => f.DriverFault?
    case ItemStage => f.ProductAdditionError?
    case TotalStage => f.DriverFault? || f.TotalMismatch?
    case CommitStage => f.EmissionError?
    case DownloadStage => f.PdfDownloadError?
  }

  /** The stage of step `n` of loading: header, a product, or the total check. */
  function CargaStage(req: EmisionRequest, n: nat): Stage
    requires SupportedKind(req.tipoDocumento)
  {
    if n <= |HeaderPlan(req)| then HeaderStage
    else if n < |CargaPlan(req)| then ItemStage
    else TotalStage
  }

  /** The stage of step `n` of the delivery: confirmation, then download. */
  function DeliveryStage(kind: string, n: nat): Stage {
    if n <= |CommitPlan(kind)| then CommitStage else DownloadStage
  }

  /** The stage of step `n` of the emission. */
  function EmissionStage(req: EmisionRequest, n: nat): Stage
    requires SupportedKind(req.tipoDocumento)
  {
    if n <= |CargaPlan(req)| then CargaStage(req, n) else DeliveryStage(req.tipoDocumento, n - |CargaPlan(req)|)
  }

  /** The stage of step `n` of the billing flow for a supported kind. */
  function BillingStage(req: EmisionRequest, n: nat): Stage
    requires SupportedKind(req.tipoDocumento)
  {
    if n <= 1 then LoginStage else EmissionStage(req, n - 1)
  }

  // ---------------------------------------------------------------------------
  // Products entered, read off a trace
  // ---------------------------------------------------------------------------

  /** The products whose item fields were filled in, in trace order. */
  function Filled(steps: seq<Action>): seq<Producto> {
    if steps == [] then []
    else (if steps[0].FillItem? then [steps[0].producto] else []) + Filled(steps[1..])
  }

  lemma {:induction false} FilledConcat(a: seq<Action>, b: seq<Action>)
    ensures Filled(a + b) == Filled(a) + Filled(b)
  {
    if a != [] {
      assert (a + b)[1..] == a[1..] + b;
      FilledConcat(a[1..], b);
    } else {
      assert a + b == b;
    }
  }

  lemma {:induction false} FilledNone(s: seq<Action>)
    requires forall i :: 0 <= i < |s| ==> !s[i].FillItem?
    ensures Filled(s) == []
  {
    if s != [] {
      FilledNone(s[1..]);
    }
  }

  /** No total check happens among the product steps. */
  lemma NoReadTotalInItems(ps: seq<Producto>, kind: string)
    ensures forall j :: 0 <= j < |ItemsPlan(ps, kind)| ==> !ItemsPlan(ps, kind)[j].ReadTotal?
  {
    NoReadTotalUpTo(ps, kind, |ps|);
  }

  lemma {:induction false} NoReadTotalUpTo(ps: seq<Producto>, kind: string, i: nat)
    requires i <= |ps|
    ensures forall j :: 0 <= j < |ItemsUpTo(ps, kind, i)| ==> !ItemsUpTo(ps, kind, i)[j].ReadTotal?
  {
    if i > 0 {
      NoReadTotalUpTo(ps, kind, i - 1);
      var done := ItemsUpTo(ps, kind, i - 1);
      ItemPlanShape(ps[i - 1], kind);
      forall j | 0 <= j < |ItemsUpTo(ps, kind, i)|
        ensures !ItemsUpTo(ps, kind, i)[j].ReadTotal?
      {
        if j < |done| {
          assert ItemsUpTo(ps, kind, i)[j] == done[j];
        } else {
          assert ItemsUpTo(ps, kind, i)[j] == ItemPlan(ps[i - 1], kind)[j - |done|];
        }
      }
    }
  }

  /** A prefix of one product's steps has filled in that product or nothing. */
  lemma ItemPrefixFilled(p: Producto, kind: string, m: nat)
    requires m <= |ItemPlan(p, kind)|
    ensures Filled(ItemPlan(p, kind)[..m]) == if m <= 2 then [] else [p]
  {
    var steps := ItemPlan(p, kind);
    ItemPlanShape(p, kind);
    if m <= 2 {
      FilledNone(steps[..m]);
    } else {
      assert steps[..m] == [steps[0], steps[1]] + [FillItem(p)] + steps[3..m];
      FilledConcat([steps[0], steps[1]] + [FillItem(p)], steps[3..m]);
      FilledConcat([steps[0], steps[1]], [FillItem(p)]);
      FilledNone([steps[0], steps[1]]);
      FilledNone(steps[3..m]);
    }
  }

  /** Running the product steps fills in exactly the products, in order. */
  lemma ItemsPlanFillsProducts(ps: seq<Producto>, kind: string)
    ensures Filled(ItemsPlan(ps, kind)) == ps
  {
    ItemsUpToFills(ps, kind, |ps|);
  }

  lemma {:induction false} ItemsUpToFills(ps: seq<Producto>, kind: string, i: nat)
    requires i <= |ps|
    ensures Filled(ItemsUpTo(ps, kind, i)) == ps[..i]
  {
    if i > 0 {
      var item := ItemPlan(ps[i - 1], kind);
      ItemsUpToFills(ps, kind, i - 1);
      ItemPrefixFilled(ps[i - 1], kind, |item|);
      assert item[..|item|] == item;
      FilledConcat(ItemsUpTo(ps, kind, i - 1), item);
      assert ps[..i] == ps[..i - 1] + [ps[i - 1]];
    }
  }

  /** A prefix of the product steps has filled in a prefix of the products. */
  lemma ItemsPrefixFilled(ps: seq<Producto>, kind: string, m: nat) returns (k: nat)
    requires m <= |ItemsPlan(ps, kind)|
    ensures k <= |ps| && Filled(ItemsPlan(ps, kind)[..m]) == ps[..k]
  {
    k := ItemsUpToPrefixFilled(ps, kind, |ps|, m);
  }

  lemma {:induction false} ItemsUpToPrefixFilled(ps: seq<Producto>, kind: string, i: nat, m: nat) returns (k: nat)
    requires i <= |ps| && m <= |ItemsUpTo(ps, kind, i)|
    ensures k <= i && Filled(ItemsUpTo(ps, kind, i)[..m]) == ps[..k]
  {
    if i == 0 {
      k := 0;
    } else if m <= |ItemsUpTo(ps, kind, i - 1)| {
      PrefixWithin(ItemsUpTo(ps, kind, i - 1), ItemPlan(ps[i - 1], kind), m);
      k := ItemsUpToPrefixFilled(ps, kind, i - 1, m);
    } else {
      k := LastItemPrefixFilled(ps, kind, i, m);
    }
  }

  /** A prefix that stops inside the last of the first i products has filled in the products before it, and that one once its fields are filled. */
  lemma LastItemPrefixFilled(ps: seq<Producto>, kind: string, i: nat, m: nat) returns (k: nat)
    requires 0 < i <= |ps| && |ItemsUpTo(ps, kind, i - 1)| < m <= |ItemsUpTo(ps, kind, i)|
    ensures k <= i && Filled(ItemsUpTo(ps, kind, i)[..m]) == ps[..k]
  {
    var done := ItemsUpTo(ps, kind, i - 1);
    var item := ItemPlan(ps[i - 1], kind);
    var j := m - |done|;
    ItemsUpToFills(ps, kind, i - 1);
    ItemPrefixFilled(ps[i - 1], kind, j);
    if j <= 2 {
      FilledPrefixBefore(ItemsUpTo(ps, kind, i), done, item, j, ps[..i - 1]);
      k := i - 1;
    } else {
      FilledPrefixPast(ItemsUpTo(ps, kind, i), done, item, j, ps[..i - 1], ps[i - 1]);
      TakeLast(ps, i);
      k := i;
    }
  }

  /** The first `i` products are the first `i - 1` and then the `i`-th. */
  lemma TakeLast(ps: seq<Producto>, i: nat)
    requires 0 < i <= |ps|
    ensures ps[..i] == ps[..i - 1] + [ps[i - 1]]
  {
  }

  /** A prefix of `all = a + b` that runs past `a` but fills nothing in `b` fills what `a` fills. */
  lemma FilledPrefixBefore(all: seq<Action>, a: seq<Action>, b: seq<Action>, j: nat, qs: seq<Producto>)
    requires all == a + b && j <= |b| && Filled(a) == qs && Filled(b[..j]) == []
    ensures Filled(all[..|a| + j]) == qs
  {
    PrefixAfter(a, b, j);
    FilledConcat(a, b[..j]);
    assert qs + [] == qs;
  }

  /** A prefix of `all = a + b` that runs past `a` and fills `p` in `b` fills what `a` fills, then `p`. */
  lemma FilledPrefixPast(all: seq<Action>, a: seq<Action>, b: seq<Action>, j: nat, qs: seq<Producto>, p: Producto)
    requires all == a + b && j <= |b| && Filled(a) == qs && Filled(b[..j]) == [p]
    ensures Filled(all[..|a| + j]) == qs + [p]
  {
    PrefixAfter(a, b, j);
    FilledConcat(a, b[..j]);
  }

  /**
   * A failure on product k leaves the later products untouched and skips the
   * total check: every prefix of the billing plan has filled in a prefix of
   * the products, and it reads the total only after all of them.
   */
  lemma BillingPrefixProducts(req: EmisionRequest, n: nat) returns (k: nat)
    requires SupportedKind(req.tipoDocumento)
    requires n <= |BillingPlan(req)|
    ensures k <= |req.productos| && Filled(BillingPlan(req)[..n]) == req.productos[..k]
    ensures ReadTotal(req.tipoDocumento) in BillingPlan(req)[..n] ==> k == |req.productos|
  {
    if n <= 1 + |HeaderPlan(req)| + |ItemsPlan(req.productos, req.tipoDocumento)| {
      k := BillingPrefixBeforeTotal(req, n);
    } else {
      BillingPrefixAfterItems(req, n);
      k := |req.productos|;
      assert req.productos[..k] == req.productos;
    }
  }

  /** The billing plan as lead-in (login and header), products, and the rest. */
  lemma BillingPlanThree(req: EmisionRequest)
    requires SupportedKind(req.tipoDocumento)
    ensures BillingPlan(req) ==
      ([Login(req.credenciales)] + HeaderPlan(req))
      + ItemsPlan(req.productos, req.tipoDocumento)
      + ([ReadTotal(req.tipoDocumento)] + CommitPlan(req.tipoDocumento) + DownloadPlan(req.tipoDocumento))
  {
  }

  /** Login and header neither fill in a product nor read the total. */
  lemma LeadInShape(req: EmisionRequest)
    requires SupportedKind(req.tipoDocumento)
    ensures var lh := [Login(req.credenciales)] + HeaderPlan(req);
      forall i :: 0 <= i < |lh| ==> !lh[i].FillItem? && !lh[i].ReadTotal?
  {
    HeaderPlanShape(req);
    var lh := [Login(req.credenciales)] + HeaderPlan(req);
    forall i | 0 <= i < |lh|
      ensures !lh[i].FillItem? && !lh[i].ReadTotal?
    {
      if i > 0 {
        assert lh[i] == HeaderPlan(req)[i - 1];
      }
    }
  }

  /** Nothing after the products fills one in. */
  lemma TailShape(kind: string)
    ensures var rest := [ReadTotal(kind)] + CommitPlan(kind) + DownloadPlan(kind);
      forall i :: 0 <= i < |rest| ==> !rest[i].FillItem?
  {
  }

  /** Up to the end of the products, a prefix of the billing plan fills a prefix of the products and reads no total. */
  lemma BillingPrefixBeforeTotal(req: EmisionRequest, n: nat) returns (k: nat)
    requires SupportedKind(req.tipoDocumento)
    requires n <= 1 + |HeaderPlan(req)| + |ItemsPlan(req.productos, req.tipoDocumento)|
    ensures n <= |BillingPlan(req)|
    ensures k <= |req.productos| && Filled(BillingPlan(req)[..n]) == req.productos[..k]
    ensures ReadTotal(req.tipoDocumento) !in BillingPlan(req)[..n]
  {
    var kind := req.tipoDocumento;
    var lh := [Login(req.credenciales)] + HeaderPlan(req);
    var items := ItemsPlan(req.productos, kind);
    var rest := [ReadTotal(kind)] + CommitPlan(kind) + DownloadPlan(kind);
    BillingPlanThree(req);
    LeadInShape(req);
    NoReadTotalInItems(req.productos, kind);
    var m := if n <= |lh| then 0 else n - |lh|;
    var j := if n <= |lh| then n else |lh|;
    PrefixInMiddle(lh, items, rest, j, m);
    k := ItemsPrefixFilled(req.productos, kind, m);
  }

  /** Past the products, a prefix of the billing plan has filled in every product. */
  lemma BillingPrefixAfterItems(req: EmisionRequest, n: nat)
    requires SupportedKind(req.tipoDocumento)
    requires 1 + |HeaderPlan(req)| + |ItemsPlan(req.productos, req.tipoDocumento)| < n <= |BillingPlan(req)|
    ensures Filled(BillingPlan(req)[..n]) == req.productos
  {
    var kind := req.tipoDocumento;
    var lh := [Login(req.credenciales)] + HeaderPlan(req);
    var items := ItemsPlan(req.productos, kind);
    var rest := [ReadTotal(kind)] + CommitPlan(kind) + DownloadPlan(kind);
    BillingPlanThree(req);
    LeadInShape(req);
    TailShape(kind);
    PrefixPastMiddle(lh, items, rest, n - |lh| - |items|);
    ItemsPlanFillsProducts(req.productos, kind);
  }

  /**
   * A prefix that stops in the lead-in `a` (taking `j` of its steps) or in the
   * middle `b` (taking all of `a` and `m` steps of `b`) fills what that part
   * of `b` fills and reads no total.
   */
  lemma PrefixInMiddle(a: seq<Action>, b: seq<Action>, c: seq<Action>, j: nat, m: nat)
    requires j <= |a| && m <= |b| && (m > 0 ==> j == |a|)
    requires forall i :: 0 <= i < |a| ==> !a[i].FillItem? && !a[i].ReadTotal?
    requires forall i :: 0 <= i < |b| ==> !b[i].ReadTotal?
    ensures (a + b + c)[..j + m] == a[..j] + b[..m]
    ensures Filled((a + b + c)[..j + m]) == Filled(b[..m])
    ensures forall x :: x in (a + b + c)[..j + m] ==> !x.ReadTotal?
  {
    if m > 0 {
      assert (a + b + c)[..j + m] == a + b[..m];
    } else {
      assert (a + b + c)[..j + m] == a[..j] && b[..m] == [];
    }
    FilledConcat(a[..j], b[..m]);
    FilledNone(a[..j]);
  }

  /** A prefix that runs past the middle `b` fills what all of `b` fills. */
  lemma PrefixPastMiddle(a: seq<Action>, b: seq<Action>, c: seq<Action>, m: nat)
    requires m <= |c|
    requires forall i :: 0 <= i < |a| ==> !a[i].FillItem?
    requires forall i :: 0 <= i < |c| ==> !c[i].FillItem?
    ensures Filled((a + b + c)[..|a| + |b| + m]) == Filled(b)
  {
    assert (a + b + c)[..|a| + |b| + m] == a + b + c[..m];
    FilledConcat(a + b, c[..m]);
    FilledConcat(a, b);
    FilledNone(a);
    FilledNone(c[..m]);
  }

  /** The steps of the first i products start those of the first j products. */
  lemma {:induction false} ItemsUpToPrefix(ps: seq<Producto>, kind: string, i: nat, j: nat)
    requires i <= j <= |ps|
    ensures |ItemsUpTo(ps, kind, i)| <= |ItemsUpTo(ps, kind, j)|
    ensures ItemsUpTo(ps, kind, j)[..|ItemsUpTo(ps, kind, i)|] == ItemsUpTo(ps, kind, i)
  {
    if i < j {
      ItemsUpToPrefix(ps, kind, i, j - 1);
      var x := ItemsUpTo(ps, kind, j - 1);
      assert ItemsUpTo(ps, kind, j) == x + ItemPlan(ps[j - 1], kind);
      assert (x + ItemPlan(ps[j - 1], kind))[..|ItemsUpTo(ps, kind, i)|] == x[..|ItemsUpTo(ps, kind, i)|];
    }
  }

  /** The steps of the first i products, then product i's, start the product steps. */
  lemma ItemsPrefixAt(ps: seq<Producto>, kind: string, i: nat)
    requires i < |ps|
    ensures |ItemsUpTo(ps, kind, i)| + |ItemPlan(ps[i], kind)| <= |ItemsPlan(ps, kind)|
    ensures ItemsPlan(ps, kind)[..|ItemsUpTo(ps, kind, i)| + |ItemPlan(ps[i], kind)|] == ItemsUpTo(ps, kind, i) + ItemPlan(ps[i], kind)
  {
    ItemsUpToPrefix(ps, kind, i + 1, |ps|);
    assert ItemsUpTo(ps, kind, i + 1) == ItemsUpTo(ps, kind, i) + ItemPlan(ps[i], kind);
  }

  /** A failure inside `b`, run after `a`, where `a + b` starts `all`, is a failure of `all` at that step. */
  lemma FailedInPrefix(d: Driver, h: seq<Action>, all: seq<Action>, a: seq<Action>, b: seq<Action>, m: nat)
    requires |a| + |b| <= |all| && all[..|a| + |b|] == a + b
    requires FailedAt(d, h + a, b, m)
    requires d.trace == h + a + b[..m]
    ensures |a| + m <= |all|
    ensures d.trace == h + all[..|a| + m]
    ensures FailedAt(d, h, all, |a| + m)
  {
    var c := all[|a| + |b|..];
    assert all == a + b + c;
    FailedAtLift(d, h, a, b, c, m);
    assert h + a + b[..m] == h + (a + b[..m]);
  }

  /** All of `b` passing after the passing `a` makes `a + b` pass. */
  lemma ItemPasses(d: Driver, h: seq<Action>, a: seq<Action>, b: seq<Action>, m: nat)
    requires m == |b|
    requires StepsPass(d, h, a, |a|) && StepsPass(d, h + a, b, m)
    requires d.trace == h + a + b[..m]
    ensures d.trace == h + (a + b)
    ensures StepsPass(d, h, a + b, |a + b|)
  {
    assert b[..m] == b;
    StepsPassConcat(d, h, a, b);
  }

  lemma CargaPlanParts(req: EmisionRequest)
    requires SupportedKind(req.tipoDocumento)
    ensures CargaPlan(req) == HeaderPlan(req) + (ItemsPlan(req.productos, req.tipoDocumento) + [ReadTotal(req.tipoDocumento)])
  {
  }

  // ---------------------------------------------------------------------------
  // The steps, run against a browser
  // ---------------------------------------------------------------------------

  /** The rendered total after history `h` parses and is within 0.01 of `expected`. */
  ghost predicate TotalAccepted(d: Driver, h: seq<Action>, expected: real) {
    d.shownTotal(h).Some? && TotalWithinTolerance(d.shownTotal(h).value, expected)
  }

  /** The file `descargar_pdf` reads: present in the download directory, or not. */
  function PdfInDownloads(files: map<string, Bytes>, name: string, numero: string): (pdf: Option<Pdf>)
    ensures pdf.Some? <==> name in files
    ensures pdf.Some? ==> pdf.value.filename == name && pdf.value.content == files[name]
                          && pdf.value.size == |pdf.value.content| && pdf.value.numeroComprobante == numero
  {
    if name in files then Some(Pdf(name, files[name], |files[name]|, "application/pdf", numero)) else None
  }

  /** `iniciar_sesion`: one login step; a failure becomes a LoginError. */
  method IniciarSesion(d: Driver, credenciales: Credenciales) returns (fault: Option<Fault>)
    modifies d
    ensures d.trace == old(d.trace) + [Login(credenciales)]
    ensures fault.None? <==> d.Reply(old(d.trace), Login(credenciales)).Pass?
    ensures fault.Some? ==> fault.value == LoginError(DriverFault(d.Reply(old(d.trace), Login(credenciales)).message))
  {
    var o := d.Perform(Login(credenciales));
    fault := if o.Fail? then Some(LoginError(DriverFault(o.message))) else None;
  }

  /** `agregar_producto`: the item steps in order; the first failure becomes a ProductAdditionError. */
  method AgregarProducto(d: Driver, p: Producto, kind: string) returns (fault: Option<Fault>, ghost n: nat)
    modifies d
    ensures n <= |ItemPlan(p, kind)| && d.trace == old(d.trace) + ItemPlan(p, kind)[..n]
    ensures fault.None? ==> n == |ItemPlan(p, kind)| && StepsPass(d, old(d.trace), ItemPlan(p, kind), n)
    ensures fault.Some? ==> fault.value.ProductAdditionError? && FailedAt(d, old(d.trace), ItemPlan(p, kind), n)
  {
    assert AllRequired(ItemPlan(p, kind));
    var failure;
    failure, n := RunSteps(d, ItemPlan(p, kind));
    fault := if failure.Some? then Some(ProductAdditionError(DriverFault(failure.value))) else None;
  }

  /**
   * The product loop of `emitir_boleta` / `emitir_factura`: one
   * `agregar_producto` per product, in input order, stopping at the first
   * product that fails.
   */
  method AgregarProductos(d: Driver, ps: seq<Producto>, kind: string) returns (fault: Option<Fault>, ghost n: nat)
    modifies d
    ensures n <= |ItemsPlan(ps, kind)| && d.trace == old(d.trace) + ItemsPlan(ps, kind)[..n]
    ensures fault.None? ==> n == |ItemsPlan(ps, kind)| && StepsPass(d, old(d.trace), ItemsPlan(ps, kind), n)
    ensures fault.Some? ==> fault.value.ProductAdditionError? && FailedAt(d, old(d.trace), ItemsPlan(ps, kind), n)
  {
    ghost var h := d.trace;
    var i := 0;
    while i < |ps|
      invariant 0 <= i <= |ps|
      invariant d.trace == h + ItemsUpTo(ps, kind, i)
      invariant StepsPass(d, h, ItemsUpTo(ps, kind, i), |ItemsUpTo(ps, kind, i)|)
    {
      var itemFault;
      ghost var m;
      itemFault, m := AgregarProducto(d, ps[i], kind);
      if itemFault.Some? {
        ItemsPrefixAt(ps, kind, i);
        FailedInPrefix(d, h, ItemsPlan(ps, kind), ItemsUpTo(ps, kind, i), ItemPlan(ps[i], kind), m);
        return itemFault, |ItemsUpTo(ps, kind, i)| + m;
      }
      ItemPasses(d, h, ItemsUpTo(ps, kind, i), ItemPlan(ps[i], kind), m);
      i := i + 1;
    }
    assert ItemsUpTo(ps, kind, i) == ItemsPlan(ps, kind);
    fault := None;
    n := |ItemsUpTo(ps, kind, i)|;
    assert ItemsUpTo(ps, kind, i)[..n] == ItemsUpTo(ps, kind, i);
  }

  /** `validar_total`: read the rendered total; fail unless it parses and is within 0.01 of the expected one. */
  method ValidarTotal(d: Driver, expected: real, kind: string) returns (fault: Option<Fault>)
    modifies d
    ensures d.trace == old(d.trace) + [ReadTotal(kind)]
    ensures fault.None? <==> d.Reply(old(d.trace), ReadTotal(kind)).Pass? && TotalAccepted(d, old(d.trace), expected)
    ensures d.Reply(old(d.trace), ReadTotal(kind)).Pass? && d.shownTotal(old(d.trace)).Some? ==>
      var actual := d.shownTotal(old(d.trace)).value;
      fault == if TotalWithinTolerance(actual, expected) then None else Some(TotalMismatch(actual, expected))
    ensures fault.Some? ==> fault.value.DriverFault? || fault.value.TotalMismatch?
    ensures fault.Some? && fault.value.TotalMismatch? ==>
              d.shownTotal(old(d.trace)) == Some(fault.value.actual) && fault.value.expected == expected
  {
    var shown := d.shownTotal(d.trace);
    var o := d.Perform(ReadTotal(kind));
    if o.Fail? {
      return Some(DriverFault(o.message));
    }
    match shown
    case None =>
      fault := Some(DriverFault(NotANumberMessage));
    case Some(actual) =>
      fault := if TotalWithinTolerance(actual, expected) then None else Some(TotalMismatch(actual, expected));
  }

  /**
   * `emitir_boleta` / `emitir_factura`: the header steps, the products, then
   * the total check. The first failure stops the flow; it is a failing step
   * or, after all steps, a rejected total.
   */
  method CargarComprobante(d: Driver, req: EmisionRequest) returns (fault: Option<Fault>, ghost n: nat)
    requires SupportedKind(req.tipoDocumento)
    modifies d
    ensures n <= |CargaPlan(req)| && d.trace == old(d.trace) + CargaPlan(req)[..n]
    ensures fault.None? ==>
              && n == |CargaPlan(req)|
              && d.trace == old(d.trace) + CargaPlan(req)
              && StepsPass(d, old(d.trace), CargaPlan(req), n)
              && TotalAccepted(d, old(d.trace) + CargaPlan(req)[..n - 1], req.resumen.total)
    ensures fault.Some? ==> CargaStopped(d, old(d.trace), req, n)
    ensures fault.Some? ==> RaisedIn(fault.value, CargaStage(req, n))
    ensures fault.Some? && fault.value.TotalMismatch? ==>
              && n == |CargaPlan(req)|
              && d.shownTotal(old(d.trace) + CargaPlan(req)[..|CargaPlan(req)| - 1]) == Some(fault.value.actual)
              && fault.value.expected == req.resumen.total
  {
    ghost var h := d.trace;
    var kind := req.tipoDocumento;
    var header := HeaderPlan(req);
    HeaderPlanRequired(req);
    var failure;
    ghost var k;
    failure, k := RunSteps(d, header);
    if failure.Some? {
      CargaHeaderFails(d, h, req, k);
      return Some(DriverFault(failure.value)), k;
    }

    var itemsFault;
    ghost var m;
    itemsFault, m := AgregarProductos(d, req.productos, kind);
    if itemsFault.Some? {
      CargaItemFails(d, h, req, k, m);
      return itemsFault, |header| + m;
    }

    ghost var before := d.trace;
    fault := ValidarTotal(d, req.resumen.total, kind);
    n := |CargaPlan(req)|;
    CargaTotalChecked(d, h, req, before, fault);
  }

  /** Why loading, started after `h`, ended after `n` steps: a failing step, or the rendered total rejected after every step. */
  ghost predicate CargaStopped(d: Driver, h: seq<Action>, req: EmisionRequest, n: nat)
    requires SupportedKind(req.tipoDocumento)
  {
    var carga := CargaPlan(req);
    || FailedAt(d, h, carga, n)
    || (n == |carga| && !TotalAccepted(d, h + carga[..|carga| - 1], req.resumen.total))
  }

  /** A failing header step is a failing step of the whole loading flow. */
  lemma CargaHeaderFails(d: Driver, h: seq<Action>, req: EmisionRequest, k: nat)
    requires SupportedKind(req.tipoDocumento)
    requires FailedAt(d, h, HeaderPlan(req), k)
    ensures k <= |CargaPlan(req)| && h + HeaderPlan(req)[..k] == h + CargaPlan(req)[..k]
    ensures FailedAt(d, h, CargaPlan(req), k)
  {
    CargaPlanParts(req);
    FailedAtWithin(d, h, HeaderPlan(req), ItemsPlan(req.productos, req.tipoDocumento) + [ReadTotal(req.tipoDocumento)], k);
  }

  /** A failing product step, after the whole header, is a failing step of the whole loading flow. */
  lemma CargaItemFails(d: Driver, h: seq<Action>, req: EmisionRequest, k: nat, m: nat)
    requires SupportedKind(req.tipoDocumento)
    requires k == |HeaderPlan(req)|
    requires FailedAt(d, h + HeaderPlan(req)[..k], ItemsPlan(req.productos, req.tipoDocumento), m)
    ensures |HeaderPlan(req)| + m <= |CargaPlan(req)|
    ensures h + HeaderPlan(req)[..k] + ItemsPlan(req.productos, req.tipoDocumento)[..m] == h + CargaPlan(req)[..|HeaderPlan(req)| + m]
    ensures FailedAt(d, h, CargaPlan(req), |HeaderPlan(req)| + m)
  {
    var header := HeaderPlan(req);
    var items := ItemsPlan(req.productos, req.tipoDocumento);
    assert header[..k] == header;
    assert CargaPlan(req) == header + items + [ReadTotal(req.tipoDocumento)];
    FailedAtLift(d, h, header, items, [ReadTotal(req.tipoDocumento)], m);
  }

  /**
   * Loading after `validar_total` ran on the whole header and all products:
   * it went through exactly when the total was read and accepted, and
   * otherwise stopped at the total step with that step's error.
   */
  lemma CargaTotalChecked(d: Driver, h: seq<Action>, req: EmisionRequest, before: seq<Action>, fault: Option<Fault>)
    requires SupportedKind(req.tipoDocumento)
    requires StepsPass(d, h, HeaderPlan(req), |HeaderPlan(req)|)
    requires StepsPass(d, h + HeaderPlan(req)[..|HeaderPlan(req)|], ItemsPlan(req.productos, req.tipoDocumento),
                       |ItemsPlan(req.productos, req.tipoDocumento)|)
    requires before == h + HeaderPlan(req)[..|HeaderPlan(req)|] + ItemsPlan(req.productos, req.tipoDocumento)[..|ItemsPlan(req.productos, req.tipoDocumento)|]
    requires fault.None? <==> d.Reply(before, ReadTotal(req.tipoDocumento)).Pass? && TotalAccepted(d, before, req.resumen.total)
    requires fault.Some? ==> fault.value.DriverFault? || fault.value.TotalMismatch?
    requires fault.Some? && fault.value.TotalMismatch? ==>
               d.shownTotal(before) == Some(fault.value.actual) && fault.value.expected == req.resumen.total
    ensures before + [ReadTotal(req.tipoDocumento)] == h + CargaPlan(req)[..|CargaPlan(req)|]
    ensures fault.None? ==>
              && before + [ReadTotal(req.tipoDocumento)] == h + CargaPlan(req)
              && StepsPass(d, h, CargaPlan(req), |CargaPlan(req)|)
              && TotalAccepted(d, h + CargaPlan(req)[..|CargaPlan(req)| - 1], req.resumen.total)
    ensures fault.Some? ==> CargaStopped(d, h, req, |CargaPlan(req)|)
    ensures fault.Some? ==> RaisedIn(fault.value, CargaStage(req, |CargaPlan(req)|))
    ensures fault.Some? && fault.value.TotalMismatch? ==>
              d.shownTotal(h + CargaPlan(req)[..|CargaPlan(req)| - 1]) == Some(fault.value.actual)
  {
    CargaTotalStep(d, h, req, |HeaderPlan(req)|, |ItemsPlan(req.productos, req.tipoDocumento)|);
  }

  /**
   * After the whole header and all products, the last step reads the total:
   * the flow passes when the earlier steps did and this one does.
   */
  lemma CargaTotalStep(d: Driver, h: seq<Action>, req: EmisionRequest, k: nat, m: nat)
    requires SupportedKind(req.tipoDocumento)
    requires k == |HeaderPlan(req)| && m == |ItemsPlan(req.productos, req.tipoDocumento)|
    ensures
      var header := HeaderPlan(req);
      var items := ItemsPlan(req.productos, req.tipoDocumento);
      var carga := CargaPlan(req);
      var before := h + header[..k] + items[..m];
      && |carga| == k + m + 1
      && before == h + carga[..|carga| - 1]
      && before + [ReadTotal(req.tipoDocumento)] == h + carga[..|carga|]
      && (StepsPass(d, h, header, k) && StepsPass(d, h + header[..k], items, m) && d.Reply(before, ReadTotal(req.tipoDocumento)).Pass?
          ==> StepsPass(d, h, carga, |carga|))
      && (d.Reply(before, ReadTotal(req.tipoDocumento)).Fail? ==> FailedAt(d, h, carga, |carga|))
  {
    var header := HeaderPlan(req);
    var items := ItemsPlan(req.productos, req.tipoDocumento);
    assert header[..k] == header && items[..m] == items;
    StepsThenCheck(d, h, header, items, ReadTotal(req.tipoDocumento));
  }

  /** Two runs of steps followed by one required step, seen as one plan. */
  lemma StepsThenCheck(d: Driver, h: seq<Action>, a: seq<Action>, b: seq<Action>, t: Action)
    requires !Tolerated(t)
    ensures
      var plan := a + b + [t];
      && |plan| == |a| + |b| + 1
      && h + a + b == h + plan[..|plan| - 1]
      && h + a + b + [t] == h + plan[..|plan|]
      && (StepsPass(d, h, a, |a|) && StepsPass(d, h + a, b, |b|) && d.Reply(h + a + b, t).Pass?
          ==> StepsPass(d, h, plan, |plan|))
      && (d.Reply(h + a + b, t).Fail? ==> FailedAt(d, h, plan, |plan|))
  {
    assert a + b + [t] == (a + b) + [t];
    assert h + a + b == h + (a + b);
    StepsPassConcat(d, h, a, b);
    LastStep(d, h, a + b, [t]);
  }

  /**
   * `completar_emision`: save, accept related documents if that dialog shows
   * up (its absence is tolerated), confirm the preliminary, confirm the final.
   * A failure of save or either confirmation becomes an EmissionError.
   */
  method CompletarEmision(d: Driver, kind: string) returns (fault: Option<Fault>, ghost n: nat)
    modifies d
    ensures n <= |CommitPlan(kind)| && d.trace == old(d.trace) + CommitPlan(kind)[..n]
    ensures fault.None? <==>
      && d.Reply(old(d.trace), SaveDocument(kind)).Pass?
      && d.Reply(old(d.trace) + [SaveDocument(kind), AcceptRelatedDocuments], ConfirmPreliminary(kind)).Pass?
      && d.Reply(old(d.trace) + [SaveDocument(kind), AcceptRelatedDocuments, ConfirmPreliminary(kind)], ConfirmFinal).Pass?
    ensures fault.None? ==> n == |CommitPlan(kind)| && d.trace == old(d.trace) + CommitPlan(kind) && StepsPass(d, old(d.trace), CommitPlan(kind), n)
    ensures fault.Some? ==> fault.value.EmissionError? && FailedAt(d, old(d.trace), CommitPlan(kind), n)
  {
    ghost var h := d.trace;
    CommitSteps(d, h, kind);
    var o := d.Perform(SaveDocument(kind));
    if o.Fail? {
      return Some(EmissionError(DriverFault(o.message))), 1;
    }
    var related := d.Perform(AcceptRelatedDocuments);
    o := d.Perform(ConfirmPreliminary(kind));
    if o.Fail? {
      return Some(EmissionError(DriverFault(o.message))), 3;
    }
    o := d.Perform(ConfirmFinal);
    if o.Fail? {
      return Some(EmissionError(DriverFault(o.message))), 4;
    }
    return None, 4;
  }

  /** The confirmation steps one by one: which prefix each exit leaves, and which replies decide the outcome. */
  lemma CommitSteps(d: Driver, h: seq<Action>, kind: string)
    ensures
      var plan := CommitPlan(kind);
      var save := d.Reply(h, SaveDocument(kind));
      var preliminary := d.Reply(h + [SaveDocument(kind), AcceptRelatedDocuments], ConfirmPreliminary(kind));
      var final := d.Reply(h + [SaveDocument(kind), AcceptRelatedDocuments, ConfirmPreliminary(kind)], ConfirmFinal);
      && |plan| == 4
      && h + [SaveDocument(kind)] + [AcceptRelatedDocuments] == h + [SaveDocument(kind), AcceptRelatedDocuments]
      && h + [SaveDocument(kind)] + [AcceptRelatedDocuments] + [ConfirmPreliminary(kind)]
         == h + [SaveDocument(kind), AcceptRelatedDocuments, ConfirmPreliminary(kind)]
      && h + plan[..1] == h + [SaveDocument(kind)]
      && h + plan[..3] == h + [SaveDocument(kind)] + [AcceptRelatedDocuments] + [ConfirmPreliminary(kind)]
      && h + plan[..4] == h + [SaveDocument(kind)] + [AcceptRelatedDocuments] + [ConfirmPreliminary(kind)] + [ConfirmFinal]
      && (save.Fail? ==> FailedAt(d, h, plan, 1))
      && (save.Pass? && preliminary.Fail? ==> FailedAt(d, h, plan, 3))
      && (save.Pass? && preliminary.Pass? && final.Fail? ==> FailedAt(d, h, plan, 4))
      && (save.Pass? && preliminary.Pass? && final.Pass? ==> StepsPass(d, h, plan, 4))
  {
    var plan := CommitPlan(kind);
    assert h + plan[..0] == h;
    assert plan[..1] == [SaveDocument(kind)];
    assert plan[..2] == [SaveDocument(kind), AcceptRelatedDocuments];
    assert plan[..3] == [SaveDocument(kind), AcceptRelatedDocuments, ConfirmPreliminary(kind)];
    assert plan[..4] == plan;
    assert h + [SaveDocument(kind), AcceptRelatedDocuments] == h + plan[..2];
    assert h + [SaveDocument(kind)] + [AcceptRelatedDocuments] + [ConfirmPreliminary(kind)] == h + plan[..3];
    assert h + [SaveDocument(kind)] + [AcceptRelatedDocuments] + [ConfirmPreliminary(kind)] + [ConfirmFinal] == h + plan;
  }

  /**
   * `descargar_pdf`: read the assigned number, press download, then look for
   * the file named by `construir_nombre_pdf`. Every failure becomes a
   * PdfDownloadError; a missing file is one too.
   */
  method DescargarPdf(d: Driver, kind: string, ruc: string) returns (pdf: Result<Pdf, Fault>, ghost n: nat)
    modifies d
    ensures n <= |DownloadPlan(kind)| && d.trace == old(d.trace) + DownloadPlan(kind)[..n]
    ensures
      var name := ConstruirNombrePdf(kind, d.shownNumber(old(d.trace)), ruc);
      var found := PdfInDownloads(d.downloads(old(d.trace) + DownloadPlan(kind)), name, d.shownNumber(old(d.trace)));
      && (pdf.Ok? <==> n == |DownloadPlan(kind)| && StepsPass(d, old(d.trace), DownloadPlan(kind), n) && found.Some?)
      && (pdf.Ok? ==> n == |DownloadPlan(kind)| && Some(pdf.value) == found)
      && (pdf.Err? ==> pdf.error.PdfDownloadError?)
      && (pdf.Err? ==> FailedAt(d, old(d.trace), DownloadPlan(kind), n) || (n == |DownloadPlan(kind)| && found.None?))
  {
    ghost var h := d.trace;
    DownloadSteps(d, h, kind);
    var numero := d.shownNumber(d.trace);
    var o := d.Perform(ReadDocumentNumber);
    if o.Fail? {
      return Err(PdfDownloadError(DriverFault(o.message))), 1;
    }
    o := d.Perform(ClickDownload(kind));
    if o.Fail? {
      return Err(PdfDownloadError(DriverFault(o.message))), 2;
    }
    var name := ConstruirNombrePdf(kind, numero, ruc);
    var found := PdfInDownloads(d.downloads(d.trace), name, numero);
    if found.None? {
      return Err(PdfDownloadError(PdfNotFound(name))), 2;
    }
    return Ok(found.value), 2;
  }

  /** The download steps one by one: which prefix each exit leaves, and which replies decide the outcome. */
  lemma DownloadSteps(d: Driver, h: seq<Action>, kind: string)
    ensures
      var plan := DownloadPlan(kind);
      var read := d.Reply(h, ReadDocumentNumber);
      var click := d.Reply(h + [ReadDocumentNumber], ClickDownload(kind));
      && |plan| == 2
      && h + plan[..1] == h + [ReadDocumentNumber]
      && h + plan[..2] == h + [ReadDocumentNumber] + [ClickDownload(kind)] == h + plan
      && (read.Fail? ==> FailedAt(d, h, plan, 1))
      && (read.Pass? && click.Fail? ==> FailedAt(d, h, plan, 2))
      && (StepsPass(d, h, plan, 2) <==> read.Pass? && click.Pass?)
  {
    var plan := DownloadPlan(kind);
    assert h + plan[..0] == h;
    assert plan[..1] == [ReadDocumentNumber];
    assert plan[..2] == plan;
    assert h + [ReadDocumentNumber] + [ClickDownload(kind)] == h + plan;
  }

  // ---------------------------------------------------------------------------
  // send_billing_sunat
  // ---------------------------------------------------------------------------

  /** The file `descargar_pdf` finds when it starts after history `h` and its steps are all taken. */
  function DeliveredPdf(d: Driver, h: seq<Action>, kind: string, ruc: string): Option<Pdf> {
    var confirmed := h + CommitPlan(kind);
    var numero := d.shownNumber(confirmed);
    PdfInDownloads(d.downloads(confirmed + DownloadPlan(kind)), ConstruirNombrePdf(kind, numero, ruc), numero)
  }

  /** The file the billing flow, started after history `h`, hands back once login and loading are done. */
  function BilledPdf(d: Driver, h: seq<Action>, req: EmisionRequest): Option<Pdf>
    requires SupportedKind(req.tipoDocumento)
  {
    DeliveredPdf(d, h + [Login(req.credenciales)] + CargaPlan(req), req.tipoDocumento, req.credenciales.ruc)
  }

  /** Confirmation and download, started after `h`, pass every step and find the file. */
  ghost predicate DeliveryGoesThrough(d: Driver, h: seq<Action>, kind: string, ruc: string) {
    && StepsPass(d, h, CommitPlan(kind), |CommitPlan(kind)|)
    && StepsPass(d, h + CommitPlan(kind), DownloadPlan(kind), |DownloadPlan(kind)|)
    && DeliveredPdf(d, h, kind, ruc).Some?
  }

  /** Loading, started after `h`, passes every step with the total accepted, and the delivery goes through. */
  ghost predicate EmissionGoesThrough(d: Driver, h: seq<Action>, req: EmisionRequest)
    requires SupportedKind(req.tipoDocumento)
  {
    var carga := CargaPlan(req);
    && StepsPass(d, h, carga, |carga|)
    && TotalAccepted(d, h + carga[..|carga| - 1], req.resumen.total)
    && DeliveryGoesThrough(d, h + carga, req.tipoDocumento, req.credenciales.ruc)
  }

  /** The billing flow, started after `h`, hands back a document: a supported kind, the login and then the emission go through. */
  ghost predicate BillingGoesThrough(d: Driver, h: seq<Action>, req: EmisionRequest) {
    && SupportedKind(req.tipoDocumento)
    && d.Reply(h, Login(req.credenciales)).Pass?
    && EmissionGoesThrough(d, h + [Login(req.credenciales)], req)
  }

  /** Why the delivery, started after `h`, ended after `n` steps without a document: a failing step, or no file after every step. */
  ghost predicate DeliveryStopped(d: Driver, h: seq<Action>, kind: string, ruc: string, n: nat) {
    || FailedAt(d, h, DeliveryPlan(kind), n)
    || (n == |DeliveryPlan(kind)| && DeliveredPdf(d, h, kind, ruc).None?)
  }

  /** Why the emission, started after `h`, ended after `n` steps without a document: a failing step, the rejected total, or no file. */
  ghost predicate EmissionStopped(d: Driver, h: seq<Action>, req: EmisionRequest, n: nat)
    requires SupportedKind(req.tipoDocumento)
  {
    var carga := CargaPlan(req);
    || FailedAt(d, h, EmissionPlan(req), n)
    || (n == |carga| && !TotalAccepted(d, h + carga[..|carga| - 1], req.resumen.total))
    || (n == |EmissionPlan(req)| && DeliveredPdf(d, h + carga, req.tipoDocumento, req.credenciales.ruc).None?)
  }

  /** Why the billing flow, started after `h`, ended after `n` steps without a document: a failing step, the rejected total, or no file. */
  ghost predicate BillingStopped(d: Driver, h: seq<Action>, req: EmisionRequest, n: nat)
    requires SupportedKind(req.tipoDocumento)
  {
    var carga := CargaPlan(req);
    || FailedAt(d, h, BillingPlan(req), n)
    || (n == 1 + |carga| && !TotalAccepted(d, h + [Login(req.credenciales)] + carga[..|carga| - 1], req.resumen.total))
    || (n == |BillingPlan(req)| && BilledPdf(d, h, req).None?)
  }

  /**
   * The billing flow goes through exactly when every required step of its
   * plan passes, the rendered total is accepted and the file is found.
   */
  lemma BillingGoesThroughMeans(d: Driver, h: seq<Action>, req: EmisionRequest)
    requires SupportedKind(req.tipoDocumento)
    ensures
      var carga := CargaPlan(req);
      BillingGoesThrough(d, h, req) <==>
        && StepsPass(d, h, BillingPlan(req), |BillingPlan(req)|)
        && TotalAccepted(d, h + [Login(req.credenciales)] + carga[..|carga| - 1], req.resumen.total)
        && BilledPdf(d, h, req).Some?
  {
    var login, carga, kind := [Login(req.credenciales)], CargaPlan(req), req.tipoDocumento;
    var commit, download := CommitPlan(kind), DownloadPlan(kind);
    StepsPassConcat(d, h, login, EmissionPlan(req));
    StepsPassConcat(d, h + login, carga, DeliveryPlan(kind));
    StepsPassConcat(d, h + login + carga, commit, download);
    assert h + login[..0] == h;
    assert StepsPass(d, h, login, 1) <==> d.Reply(h, Login(req.credenciales)).Pass?;
  }

  /**
   * The part of the `try` in `send_billing_sunat` after loading:
   * `completar_emision`, then `descargar_pdf`. A failed download is a failure
   * like any other.
   */
  method ConfirmarYDescargar(d: Driver, kind: string, ruc: string) returns (pdf: Result<Pdf, Fault>, ghost n: nat)
    modifies d
    ensures n <= |DeliveryPlan(kind)| && d.trace == old(d.trace) + DeliveryPlan(kind)[..n]
    ensures pdf.Ok? <==> DeliveryGoesThrough(d, old(d.trace), kind, ruc)
    ensures pdf.Ok? ==> n == |DeliveryPlan(kind)| && Some(pdf.value) == DeliveredPdf(d, old(d.trace), kind, ruc)
    ensures pdf.Err? ==> DeliveryStopped(d, old(d.trace), kind, ruc, n)
    ensures pdf.Err? ==> RaisedIn(pdf.error, DeliveryStage(kind, n))
  {
    ghost var h := d.trace;
    var commitFault;
    ghost var c;
    commitFault, c := CompletarEmision(d, kind);
    if commitFault.Some? {
      CommitFailsInDelivery(d, h, kind, ruc, c);
      CommitRaises(kind, c, commitFault.value);
      return Err(commitFault.value), c;
    }
    ghost var dl;
    pdf, dl := DescargarPdf(d, kind, ruc);
    DownloadInDelivery(d, h, kind, ruc, dl);
    n := |CommitPlan(kind)| + dl;
    if pdf.Err? {
      DownloadRaises(kind, dl, pdf.error);
    }
  }

  /** An EmissionError at a confirmation step is the error that stage raises. */
  lemma CommitRaises(kind: string, c: nat, f: Fault)
    requires 1 <= c <= |CommitPlan(kind)| && f.EmissionError?
    ensures RaisedIn(f, DeliveryStage(kind, c))
  {
  }

  /** A PdfDownloadError after the confirmation steps is the error the download stage raises. */
  lemma DownloadRaises(kind: string, dl: nat, f: Fault)
    requires 1 <= dl && f.PdfDownloadError?
    ensures RaisedIn(f, DeliveryStage(kind, |CommitPlan(kind)| + dl))
  {
  }

  /** A failing confirmation step is a failing step of the delivery, which then does not go through. */
  lemma CommitFailsInDelivery(d: Driver, h: seq<Action>, kind: string, ruc: string, c: nat)
    requires FailedAt(d, h, CommitPlan(kind), c)
    ensures c <= |DeliveryPlan(kind)| && h + CommitPlan(kind)[..c] == h + DeliveryPlan(kind)[..c]
    ensures DeliveryStopped(d, h, kind, ruc, c)
    ensures !DeliveryGoesThrough(d, h, kind, ruc)
  {
    FailedAtWithin(d, h, CommitPlan(kind), DownloadPlan(kind), c);
    FailedAtBlocks(d, h, CommitPlan(kind), c);
  }

  /** The download steps close the delivery: where each exit leaves the trace, and a failing download step. */
  lemma DownloadInDelivery(d: Driver, h: seq<Action>, kind: string, ruc: string, dl: nat)
    requires dl <= |DownloadPlan(kind)|
    ensures |DeliveryPlan(kind)| == |CommitPlan(kind)| + |DownloadPlan(kind)|
    ensures h + CommitPlan(kind) + DownloadPlan(kind)[..dl] == h + DeliveryPlan(kind)[..|CommitPlan(kind)| + dl]
    ensures FailedAt(d, h + CommitPlan(kind), DownloadPlan(kind), dl)
            || (dl == |DownloadPlan(kind)| && DeliveredPdf(d, h, kind, ruc).None?)
            ==> DeliveryStopped(d, h, kind, ruc, |CommitPlan(kind)| + dl)
  {
    var commit, download := CommitPlan(kind), DownloadPlan(kind);
    assert h + commit + download[..dl] == h + (commit + download[..dl]);
    PrefixAfter(commit, download, dl);
    if FailedAt(d, h + commit, download, dl) {
      FailedAtEnd(d, h, commit, download, dl);
    }
  }

  /**
   * `emitir_boleta` / `emitir_factura` followed by the confirmation and the
   * download: the first failure ends it.
   */
  method Emitir(d: Driver, req: EmisionRequest) returns (pdf: Result<Pdf, Fault>, ghost n: nat)
    requires SupportedKind(req.tipoDocumento)
    modifies d
    ensures n <= |EmissionPlan(req)| && d.trace == old(d.trace) + EmissionPlan(req)[..n]
    ensures pdf.Ok? <==> EmissionGoesThrough(d, old(d.trace), req)
    ensures pdf.Ok? ==>
              && n == |EmissionPlan(req)|
              && Some(pdf.value) == DeliveredPdf(d, old(d.trace) + CargaPlan(req), req.tipoDocumento, req.credenciales.ruc)
    ensures pdf.Err? && n <= |CargaPlan(req)| ==>
              CargaStopped(d, old(d.trace), req, n) && RaisedIn(pdf.error, CargaStage(req, n))
    ensures pdf.Err? && |CargaPlan(req)| < n ==>
              && StepsPass(d, old(d.trace), CargaPlan(req), |CargaPlan(req)|)
              && TotalAccepted(d, old(d.trace) + CargaPlan(req)[..|CargaPlan(req)| - 1], req.resumen.total)
              && DeliveryStopped(d, old(d.trace) + CargaPlan(req), req.tipoDocumento, req.credenciales.ruc, n - |CargaPlan(req)|)
              && RaisedIn(pdf.error, DeliveryStage(req.tipoDocumento, n - |CargaPlan(req)|))
  {
    ghost var h := d.trace;
    var cargaFault;
    ghost var k;
    cargaFault, k := CargarComprobante(d, req);
    if cargaFault.Some? {
      CargaFailsInEmission(d, h, req, k);
      return Err(cargaFault.value), k;
    }
    ghost var m;
    pdf, m := ConfirmarYDescargar(d, req.tipoDocumento, req.credenciales.ruc);
    DeliveryInEmission(d, h, req, m, pdf);
    n := |CargaPlan(req)| + m;
  }

  /** A stop while loading leaves a prefix of the emission's steps, and the emission does not go through. */
  lemma CargaFailsInEmission(d: Driver, h: seq<Action>, req: EmisionRequest, k: nat)
    requires SupportedKind(req.tipoDocumento) && k <= |CargaPlan(req)|
    requires CargaStopped(d, h, req, k)
    ensures k <= |EmissionPlan(req)| && h + CargaPlan(req)[..k] == h + EmissionPlan(req)[..k]
    ensures !EmissionGoesThrough(d, h, req)
  {
    var carga := CargaPlan(req);
    PrefixWithin(carga, DeliveryPlan(req.tipoDocumento), k);
    if FailedAt(d, h, carga, k) {
      FailedAtBlocks(d, h, carga, k);
    }
  }

  /** A stop while loading is a stop of the emission at the same step, in the same stage. */
  lemma CargaStopInEmission(d: Driver, h: seq<Action>, req: EmisionRequest, k: nat, f: Fault)
    requires SupportedKind(req.tipoDocumento) && k <= |CargaPlan(req)|
    requires CargaStopped(d, h, req, k) && RaisedIn(f, CargaStage(req, k))
    ensures EmissionStopped(d, h, req, k) && RaisedIn(f, EmissionStage(req, k))
  {
    if FailedAt(d, h, CargaPlan(req), k) {
      FailedAtWithin(d, h, CargaPlan(req), DeliveryPlan(req.tipoDocumento), k);
    }
  }

  /**
   * After a loading that went through, the delivery decides the emission:
   * where each exit leaves the trace, and the same outcome.
   */
  lemma DeliveryInEmission(d: Driver, h: seq<Action>, req: EmisionRequest, m: nat, pdf: Result<Pdf, Fault>)
    requires SupportedKind(req.tipoDocumento) && m <= |DeliveryPlan(req.tipoDocumento)|
    requires StepsPass(d, h, CargaPlan(req), |CargaPlan(req)|)
    requires TotalAccepted(d, h + CargaPlan(req)[..|CargaPlan(req)| - 1], req.resumen.total)
    requires pdf.Ok? <==> DeliveryGoesThrough(d, h + CargaPlan(req), req.tipoDocumento, req.credenciales.ruc)
    requires pdf.Ok? ==> m == |DeliveryPlan(req.tipoDocumento)|
    requires pdf.Err? ==> DeliveryStopped(d, h + CargaPlan(req), req.tipoDocumento, req.credenciales.ruc, m)
    ensures
      var carga, delivery := CargaPlan(req), DeliveryPlan(req.tipoDocumento);
      && |EmissionPlan(req)| == |carga| + |delivery|
      && h + carga + delivery[..m] == h + EmissionPlan(req)[..|carga| + m]
    ensures pdf.Ok? <==> EmissionGoesThrough(d, h, req)
    ensures pdf.Ok? ==> |CargaPlan(req)| + m == |EmissionPlan(req)|
    ensures pdf.Err? ==> 1 <= m
  {
    var carga, delivery := CargaPlan(req), DeliveryPlan(req.tipoDocumento);
    assert h + carga + delivery[..m] == h + (carga + delivery[..m]);
    PrefixAfter(carga, delivery, m);
  }

  /** A stop of the delivery after a loading that went through is a stop of the emission, counted after loading, in the same stage. */
  lemma DeliveryStopInEmission(d: Driver, h: seq<Action>, req: EmisionRequest, m: nat, f: Fault)
    requires SupportedKind(req.tipoDocumento) && 1 <= m <= |DeliveryPlan(req.tipoDocumento)|
    requires StepsPass(d, h, CargaPlan(req), |CargaPlan(req)|)
    requires TotalAccepted(d, h + CargaPlan(req)[..|CargaPlan(req)| - 1], req.resumen.total)
    requires DeliveryStopped(d, h + CargaPlan(req), req.tipoDocumento, req.credenciales.ruc, m)
    requires RaisedIn(f, DeliveryStage(req.tipoDocumento, m))
    ensures EmissionStopped(d, h, req, |CargaPlan(req)| + m)
    ensures RaisedIn(f, EmissionStage(req, |CargaPlan(req)| + m))
  {
    var carga, delivery := CargaPlan(req), DeliveryPlan(req.tipoDocumento);
    if FailedAt(d, h + carga, delivery, m) {
      FailedAtEnd(d, h, carga, delivery, m);
    }
  }

  /**
   * The body of the `try` in `send_billing_sunat`: log in, dispatch on the
   * document kind, then load, confirm and download. The first failure ends it.
   */
  method EmitirYDescargar(d: Driver, req: EmisionRequest) returns (pdf: Result<Pdf, Fault>, ghost n: nat)
    modifies d
    ensures n <= |BillingPlan(req)| && d.trace == old(d.trace) + BillingPlan(req)[..n]
    ensures pdf.Ok? <==> BillingGoesThrough(d, old(d.trace), req)
    ensures pdf.Ok? ==> n == |BillingPlan(req)| && Some(pdf.value) == BilledPdf(d, old(d.trace), req)
    ensures !SupportedKind(req.tipoDocumento) ==>
              var login := d.Reply(old(d.trace), Login(req.credenciales));
              && n == 1
              && pdf == Err(if login.Pass? then UnsupportedDocumentType(req.tipoDocumento) else LoginError(DriverFault(login.message)))
    ensures pdf.Err? && SupportedKind(req.tipoDocumento) ==> BillingStopped(d, old(d.trace), req, n)
    ensures pdf.Err? && SupportedKind(req.tipoDocumento) ==> RaisedIn(pdf.error, BillingStage(req, n))
  {
    ghost var h := d.trace;
    var loginFault := IniciarSesion(d, req.credenciales);
    if loginFault.Some? {
      LoginFails(d, h, req);
      return Err(loginFault.value), 1;
    }
    if !SupportedKind(req.tipoDocumento) {
      UnsupportedKind(d, h, req);
      return Err(UnsupportedDocumentType(req.tipoDocumento)), 1;
    }
    ghost var hl := d.trace;
    ghost var m;
    pdf, m := Emitir(d, req);
    EmissionInBilling(d, h, req, m);
    n := 1 + m;
    if pdf.Err? {
      EmissionFailsInBilling(d, h, hl, req, m, pdf.error);
    }
  }

  /** A failed login is the first step of the flow failing. */
  lemma LoginFails(d: Driver, h: seq<Action>, req: EmisionRequest)
    requires d.Reply(h, Login(req.credenciales)).Fail?
    ensures 1 <= |BillingPlan(req)| && h + [Login(req.credenciales)] == h + BillingPlan(req)[..1]
    ensures FailedAt(d, h, BillingPlan(req), 1)
    ensures SupportedKind(req.tipoDocumento) ==> BillingStopped(d, h, req, 1) && BillingStage(req, 1) == LoginStage
    ensures !BillingGoesThrough(d, h, req)
  {
    assert BillingPlan(req)[..1] == [Login(req.credenciales)];
    assert h + BillingPlan(req)[..0] == h;
  }

  /** With a kind other than BOLETA or FACTURA the flow is the login alone, and it never goes through. */
  lemma UnsupportedKind(d: Driver, h: seq<Action>, req: EmisionRequest)
    requires !SupportedKind(req.tipoDocumento)
    ensures BillingPlan(req) == [Login(req.credenciales)]
    ensures h + [Login(req.credenciales)] == h + BillingPlan(req)[..1]
    ensures !BillingGoesThrough(d, h, req)
  {
    assert BillingPlan(req)[..1] == BillingPlan(req);
  }

  /** After a passing login, the emission is the rest of the flow: where each exit leaves the trace. */
  lemma EmissionInBilling(d: Driver, h: seq<Action>, req: EmisionRequest, m: nat)
    requires SupportedKind(req.tipoDocumento) && m <= |EmissionPlan(req)|
    ensures |BillingPlan(req)| == 1 + |EmissionPlan(req)|
    ensures h + [Login(req.credenciales)] + EmissionPlan(req)[..m] == h + BillingPlan(req)[..1 + m]
  {
    var login, emission := [Login(req.credenciales)], EmissionPlan(req);
    assert BillingPlan(req) == login + emission;
    assert h + login + emission[..m] == h + (login + emission[..m]);
    PrefixAfter(login, emission, m);
  }

  /** An emission that stops after a passing login is the billing flow stopping one step later. */
  lemma EmissionFailsInBilling(d: Driver, h: seq<Action>, hl: seq<Action>, req: EmisionRequest, m: nat, f: Fault)
    requires SupportedKind(req.tipoDocumento) && m <= |EmissionPlan(req)| && hl == h + [Login(req.credenciales)]
    requires m <= |CargaPlan(req)| ==>
               CargaStopped(d, hl, req, m) && RaisedIn(f, CargaStage(req, m))
    requires |CargaPlan(req)| < m ==>
               && StepsPass(d, hl, CargaPlan(req), |CargaPlan(req)|)
               && TotalAccepted(d, hl + CargaPlan(req)[..|CargaPlan(req)| - 1], req.resumen.total)
               && DeliveryStopped(d, hl + CargaPlan(req), req.tipoDocumento, req.credenciales.ruc, m - |CargaPlan(req)|)
               && RaisedIn(f, DeliveryStage(req.tipoDocumento, m - |CargaPlan(req)|))
    ensures BillingStopped(d, h, req, 1 + m)
    ensures RaisedIn(f, BillingStage(req, 1 + m))
  {
    var login, emission := [Login(req.credenciales)], EmissionPlan(req);
    if m <= |CargaPlan(req)| {
      CargaStopInEmission(d, hl, req, m, f);
    } else {
      assert |emission| == |CargaPlan(req)| + |DeliveryPlan(req.tipoDocumento)|;
      DeliveryStopInEmission(d, hl, req, m - |CargaPlan(req)|, f);
    }
    assert EmissionStopped(d, h + login, req, m) && RaisedIn(f, EmissionStage(req, m));
    assert BillingPlan(req) == login + emission;
    if FailedAt(d, h + login, emission, m) {
      FailedAtEnd(d, h, login, emission, m);
    }
  }

  /** The success message of `send_billing_sunat`. */
  function EmittedMessage(tipo: string): string {
    tipo + " emitida correctamente"
  }

  /**
   * `send_billing_sunat`: open a browser (`launched`, which may have failed),
   * run the flow, build the result record, and close the browser in the
   * `finally` once one was opened. An exception raised while closing escapes
   * and replaces the result.
   */
  method SendBillingSunat(launched: Result<Driver, Fault>, req: EmisionRequest) returns (out: Execution, ghost n: nat)
    modifies if launched.Ok? then {launched.value} else {}
    ensures launched.Err? ==> out == Returned(Failed(launched.error))
    ensures launched.Ok? ==>
              n <= |BillingPlan(req)| && launched.value.trace == old(launched.value.trace) + BillingPlan(req)[..n] + [Quit]
    ensures launched.Ok? ==>
              var d, h := launched.value, old(launched.value.trace);
              var quit := d.Reply(h + BillingPlan(req)[..n], Quit);
              && (quit.Fail? ==> out == Raised(DriverFault(quit.message)))
              && (quit.Pass? ==> out.Returned? && (out.result.Success() <==> BillingGoesThrough(d, h, req)))
    ensures launched.Ok? && out.Returned? && out.result.Success() ==>
              var d, h := launched.value, old(launched.value.trace);
              && SupportedKind(req.tipoDocumento)
              && out.result == Emitted(EmittedMessage(req.tipoDocumento), req.resumen.serie, req.resumen.numero,
                                       req.resumen.total, BilledPdf(d, h, req))
              && BilledPdf(d, h, req).Some?
    ensures launched.Ok? && out.Returned? && !out.result.Success() ==>
              var d, h := launched.value, old(launched.value.trace);
              var login := d.Reply(h, Login(req.credenciales));
              && (!SupportedKind(req.tipoDocumento) ==>
                    out.result.error == if login.Pass? then UnsupportedDocumentType(req.tipoDocumento)
                                        else LoginError(DriverFault(login.message)))
              && (SupportedKind(req.tipoDocumento) ==> BillingStopped(d, h, req, n) && RaisedIn(out.result.error, BillingStage(req, n)))
              && (EmisionRequestValid(req) ==> !out.result.error.UnsupportedDocumentType?)
  {
    if launched.Err? {
      return Returned(Failed(launched.error)), 0;
    }
    var d := launched.value;
    var pdf;
    pdf, n := EmitirYDescargar(d, req);
    if pdf.Err? && EmisionRequestValid(req) {
      ValidRequestIsSupported(req, n, pdf.error);
    }
    var result := match pdf
      case Ok(file) =>
        Emitted(EmittedMessage(req.tipoDocumento), req.resumen.serie, req.resumen.numero, req.resumen.total, Some(file))
      case Err(e) => Failed(e);
    var closed := d.Perform(Quit);
    out := if closed.Fail? then Raised(DriverFault(closed.message)) else Returned(result);
  }

  /**
   * A request the schema layer accepts has a supported kind, so the whole
   * plan runs after the login, and no step of it raises an unsupported-kind
   * error.
   */
  lemma ValidRequestIsSupported(req: EmisionRequest, n: nat, f: Fault)
    requires EmisionRequestValid(req)
    ensures SupportedKind(req.tipoDocumento)
    ensures BillingPlan(req) == [Login(req.credenciales)] + HeaderPlan(req) + ItemsPlan(req.productos, req.tipoDocumento)
                                + [ReadTotal(req.tipoDocumento)] + CommitPlan(req.tipoDocumento) + DownloadPlan(req.tipoDocumento)
    ensures RaisedIn(f, BillingStage(req, n)) ==> !f.UnsupportedDocumentType?
  {
  }

  /** Closing the browser is never one of the flow's own steps. */
  lemma QuitNotInBillingPlan(req: EmisionRequest)
    ensures Quit !in BillingPlan(req)
  {
    if SupportedKind(req.tipoDocumento) {
      QuitNotInItems(req.productos, req.tipoDocumento, |req.productos|);
      assert BillingPlan(req) == [Login(req.credenciales)] + HeaderPlan(req) + ItemsPlan(req.productos, req.tipoDocumento)
        + ([ReadTotal(req.tipoDocumento)] + CommitPlan(req.tipoDocumento) + DownloadPlan(req.tipoDocumento));
    }
  }

  lemma {:induction false} QuitNotInItems(ps: seq<Producto>, kind: string, i: nat)
    requires i <= |ps|
    ensures Quit !in ItemsUpTo(ps, kind, i)
  {
    if i > 0 {
      QuitNotInItems(ps, kind, i - 1);
      assert ItemsUpTo(ps, kind, i) == ItemsUpTo(ps, kind, i - 1) + ItemPlan(ps[i - 1], kind);
    }
  }
}
