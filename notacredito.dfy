/**
 * The credit-note service: the motive table, the extraction of the receipt
 * number from "SERIE-NUMERO", the ordered steps of a credit note, and the
 * executor that logs in, loads and confirms the note, tries to download its
 * PDF (a failed download only leaves the PDF out) and always closes the
 * browser it opened.
 */
module NotaCredito {
  import opened Wrappers
  import opened Schemas
  import opened Portal
  import opened Text
  import Scraper

  // ---------------------------------------------------------------------------
  // Pure helpers
  // ---------------------------------------------------------------------------

  const Motivos: map<string, string> := map[
    "01" := "Anulacion de la Operacion",
    "02" := "Anulacion por Error en el RUC",
    "03" := "Devolucion Total",
    "04" := "Correccion por error en la descripcion",
    "05" := "Devolucion por item"]

  const DefaultMotivo := "Devolucion Total"

  /** `MOTIVOS_NOTA_CREDITO.get(tipo_nota, "Devolucion Total")`. */
  function MotivoTexto(code: string): string {
    if code in Motivos then Motivos[code] else DefaultMotivo
  }

  /**
   * The table holds exactly the five credit-note codes; each maps to its
   * fixed text, and any other code reads as "Devolucion Total", the text of
   * code "03".
   */
  lemma MotivoLookup(code: string)
    ensures code in Motivos <==> MotiveCode(code)
    ensures code == "01" ==> MotivoTexto(code) == "Anulacion de la Operacion"
    ensures code == "02" ==> MotivoTexto(code) == "Anulacion por Error en el RUC"
    ensures code == "03" ==> MotivoTexto(code) == "Devolucion Total"
    ensures code == "04" ==> MotivoTexto(code) == "Correccion por error en la descripcion"
    ensures code == "05" ==> MotivoTexto(code) == "Devolucion por item"
    ensures !MotiveCode(code) ==> MotivoTexto(code) == "Devolucion Total" == MotivoTexto("03")
  {
    assert Motivos.Keys == {"01", "02", "03", "04", "05"};
  }

  /** The five texts are distinct: the motive typed identifies the code, except that unknown codes read as "03". */
  lemma MotivoTextsDistinct(a: string, b: string)
    requires MotiveCode(a) && MotiveCode(b) && a != b
    ensures MotivoTexto(a) != MotivoTexto(b)
  {
  }

  /** `extraer_numero_boleta`: the segment after the first "-" (up to the next one), or the whole text when there is none. */
  function ExtraerNumeroBoleta(numeroCompleto: string): (numero: string)
    ensures '-' !in numero
    ensures '-' !in numeroCompleto ==> numero == numeroCompleto
  {
    if '-' in numeroCompleto then Split(numeroCompleto, '-')[1] else numeroCompleto
  }

  /** With exactly one hyphen, `head + "-" + mid`, the number extracted is `mid`. */
  lemma ExtraerNumeroBoletaOneHyphen(head: string, mid: string)
    requires '-' !in head && '-' !in mid
    ensures ExtraerNumeroBoleta(head + "-" + mid) == mid
  {
    var s := head + ['-'] + mid;
    assert s[|head|] == '-';
    SplitCons(head, '-', mid);
    assert Split(s, '-') == [head, mid];
  }

  /** With more hyphens, `head + "-" + mid + "-" + rest`, the number extracted is still `mid`, the second segment. */
  lemma ExtraerNumeroBoletaMoreHyphens(head: string, mid: string, rest: string)
    requires '-' !in head && '-' !in mid
    ensures ExtraerNumeroBoleta(head + "-" + mid + "-" + rest) == mid
  {
    var tail := mid + ['-'] + rest;
    var s := head + ['-'] + tail;
    assert s == head + "-" + mid + "-" + rest;
    assert s[|head|] == '-';
    SplitCons(head, '-', tail);
    SplitCons(mid, '-', rest);
    assert Split(s, '-') == [head] + ([mid] + Split(rest, '-'));
  }

  /** "EB01-448" gives "448". */
  lemma ExtraerNumeroBoletaSerie()
    ensures ExtraerNumeroBoleta("EB01-448") == "448"
  {
    assert "EB01-448" == "EB01" + "-" + "448";
    ExtraerNumeroBoletaOneHyphen("EB01", "448");
  }

  /** With two hyphens the middle segment is kept: "A-B-C" gives "B", not the last segment. */
  lemma ExtraerNumeroBoletaMiddle()
    ensures ExtraerNumeroBoleta("A-B-C") == "B"
  {
    assert "A-B-C" == "A" + "-" + "B" + "-" + "C";
    ExtraerNumeroBoletaMoreHyphens("A", "B", "C");
  }

  // ---------------------------------------------------------------------------
  // Plans
  // ---------------------------------------------------------------------------

  const NotaKind := "NOTA_CREDITO"

  /**
   * `emitir_nota_credito`: navigate (search, menu entry, frame), date, motive
   * (by its text), receipt number, sustento, continue.
   */
  function LoadNotaPlan(req: NotaCreditoRequest): seq<Action> {
    [SearchMenu("BOLETA"), ClickMenuEntry("Emitir Nota de Credito"), EnterApplicationFrame,
     SetEmissionDate(NotaKind, req.fechaEmision),
     SelectMotive(MotivoTexto(req.tipoNota)),
     EnterReference(ExtraerNumeroBoleta(req.numeroBoleta)),
     EnterSustento(req.sustento),
     ClickContinueNote]
  }

  /** `completar_emision_nota_credito`: save, wait for the overlay to go, confirm. */
  function CommitNotaPlan(): seq<Action> {
    [SaveDocument(NotaKind), AwaitIdle, ConfirmFinal]
  }

  /** Loading then confirming the note. */
  function NotaCorePlan(req: NotaCreditoRequest): seq<Action> {
    LoadNotaPlan(req) + CommitNotaPlan()
  }

  /** Every step `send_nota_credito_sunat` takes on the browser when nothing fails, before closing it. */
  function NotaPlan(req: NotaCreditoRequest): seq<Action> {
    [Login(req.credenciales)] + NotaCorePlan(req) + Scraper.DownloadPlan(NotaKind)
  }

  /**
   * For a request the schema layer accepts, the motive typed is the table's
   * text for its code: the "Devolucion Total" fallback never stands in for
   * another code. A request whose kind was omitted is stored with "01" and
   * so cancels the operation.
   */
  lemma ValidNotaMotive(req: NotaCreditoRequest)
    requires NotaCreditoRequestValid(req)
    ensures req.tipoNota in Motivos && LoadNotaPlan(req)[4] == SelectMotive(Motivos[req.tipoNota])
    ensures req.tipoNota == ResolveTipoNota(None) ==> LoadNotaPlan(req)[4] == SelectMotive("Anulacion de la Operacion")
  {
    MotivoLookup(req.tipoNota);
  }

  /** The motive, the extracted receipt number and the sustento are entered in that order, after the date. */
  lemma LoadNotaPlanOrder(req: NotaCreditoRequest)
    ensures var steps := LoadNotaPlan(req);
      && |steps| == 8
      && steps[3] == SetEmissionDate(NotaKind, req.fechaEmision)
      && steps[4] == SelectMotive(MotivoTexto(req.tipoNota))
      && steps[5] == EnterReference(ExtraerNumeroBoleta(req.numeroBoleta))
      && steps[6] == EnterSustento(req.sustento)
      && steps[7] == ClickContinueNote
  {
  }

  // ---------------------------------------------------------------------------
  // The steps, run against a browser
  // ---------------------------------------------------------------------------

  /** `emitir_nota_credito`: the loading steps in order; the first failure becomes a NotaCreditoLoadError. */
  method EmitirNotaCredito(d: Driver, req: NotaCreditoRequest) returns (fault: Option<Fault>, ghost n: nat)
    modifies d
    ensures n <= |LoadNotaPlan(req)| && d.trace == old(d.trace) + LoadNotaPlan(req)[..n]
    ensures fault.None? <==> n == |LoadNotaPlan(req)| && StepsPass(d, old(d.trace), LoadNotaPlan(req), n)
    ensures fault.None? ==> d.trace == old(d.trace) + LoadNotaPlan(req)
    ensures fault.Some? ==>
              && FailedAt(d, old(d.trace), LoadNotaPlan(req), n)
              && fault.value == NotaCreditoLoadError(DriverFault(d.Reply(old(d.trace) + LoadNotaPlan(req)[..n - 1], LoadNotaPlan(req)[n - 1]).message))
  {
    assert AllRequired(LoadNotaPlan(req));
    var failure;
    failure, n := RunSteps(d, LoadNotaPlan(req));
    fault := if failure.Some? then Some(NotaCreditoLoadError(DriverFault(failure.value))) else None;
  }

  /** `completar_emision_nota_credito`: the confirmation steps in order; the first failure becomes a NotaCreditoCommitError. */
  method CompletarEmisionNotaCredito(d: Driver) returns (fault: Option<Fault>, ghost n: nat)
    modifies d
    ensures n <= |CommitNotaPlan()| && d.trace == old(d.trace) + CommitNotaPlan()[..n]
    ensures fault.None? <==> n == |CommitNotaPlan()| && StepsPass(d, old(d.trace), CommitNotaPlan(), n)
    ensures fault.Some? ==>
              && FailedAt(d, old(d.trace), CommitNotaPlan(), n)
              && fault.value == NotaCreditoCommitError(DriverFault(d.Reply(old(d.trace) + CommitNotaPlan()[..n - 1], CommitNotaPlan()[n - 1]).message))
  {
    assert AllRequired(CommitNotaPlan());
    var failure;
    failure, n := RunSteps(d, CommitNotaPlan());
    fault := if failure.Some? then Some(NotaCreditoCommitError(DriverFault(failure.value))) else None;
  }

  /**
   * Load-then-confirm, started after `h`, stopped at its step `n` with fault
   * `f`: that step failed, and `f` is a NotaCreditoLoadError while loading
   * and a NotaCreditoCommitError while confirming.
   */
  ghost predicate NotaCoreStopped(d: Driver, h: seq<Action>, req: NotaCreditoRequest, n: nat, f: Fault) {
    && FailedAt(d, h, NotaCorePlan(req), n)
    && (n <= |LoadNotaPlan(req)| ==> f.NotaCreditoLoadError?)
    && (n > |LoadNotaPlan(req)| ==> f.NotaCreditoCommitError?)
  }

  /** Load then confirm: the first failure ends it. */
  method CargarYCompletarNota(d: Driver, req: NotaCreditoRequest) returns (fault: Option<Fault>, ghost n: nat)
    modifies d
    ensures n <= |NotaCorePlan(req)| && d.trace == old(d.trace) + NotaCorePlan(req)[..n]
    ensures fault.None? <==> n == |NotaCorePlan(req)| && StepsPass(d, old(d.trace), NotaCorePlan(req), n)
    ensures fault.None? ==> d.trace == old(d.trace) + NotaCorePlan(req)
    ensures fault.Some? ==> NotaCoreStopped(d, old(d.trace), req, n, fault.value)
  {
    ghost var h := d.trace;
    ghost var k;
    fault, k := EmitirNotaCredito(d, req);
    if fault.Some? {
      LoadFailsInCore(d, h, req, k, fault.value);
      return fault, k;
    }
    ghost var c;
    fault, c := CompletarEmisionNotaCredito(d);
    CommitInCore(d, h, req, c, fault);
    n := |LoadNotaPlan(req)| + c;
  }

  /** A failing loading step is a failing step of load-then-confirm, which then does not pass. */
  lemma LoadFailsInCore(d: Driver, h: seq<Action>, req: NotaCreditoRequest, k: nat, f: Fault)
    requires FailedAt(d, h, LoadNotaPlan(req), k) && f.NotaCreditoLoadError?
    ensures k <= |NotaCorePlan(req)| && h + LoadNotaPlan(req)[..k] == h + NotaCorePlan(req)[..k]
    ensures NotaCoreStopped(d, h, req, k, f)
    ensures !StepsPass(d, h, NotaCorePlan(req), |NotaCorePlan(req)|)
  {
    FailedAtWithin(d, h, LoadNotaPlan(req), CommitNotaPlan(), k);
    FailedAtBlocks(d, h, NotaCorePlan(req), k);
  }

  /** After the whole loading, the confirmation decides where load-then-confirm stops and whether it passes. */
  lemma CommitInCore(d: Driver, h: seq<Action>, req: NotaCreditoRequest, c: nat, fault: Option<Fault>)
    requires StepsPass(d, h, LoadNotaPlan(req), |LoadNotaPlan(req)|)
    requires c <= |CommitNotaPlan()|
    requires fault.None? <==> c == |CommitNotaPlan()| && StepsPass(d, h + LoadNotaPlan(req), CommitNotaPlan(), c)
    requires fault.Some? ==> FailedAt(d, h + LoadNotaPlan(req), CommitNotaPlan(), c) && fault.value.NotaCreditoCommitError?
    ensures |LoadNotaPlan(req)| + c <= |NotaCorePlan(req)|
    ensures h + LoadNotaPlan(req) + CommitNotaPlan()[..c] == h + NotaCorePlan(req)[..|LoadNotaPlan(req)| + c]
    ensures fault.None? <==>
              |LoadNotaPlan(req)| + c == |NotaCorePlan(req)| && StepsPass(d, h, NotaCorePlan(req), |LoadNotaPlan(req)| + c)
    ensures fault.None? ==> h + LoadNotaPlan(req) + CommitNotaPlan()[..c] == h + NotaCorePlan(req)
    ensures fault.Some? ==> NotaCoreStopped(d, h, req, |LoadNotaPlan(req)| + c, fault.value)
  {
    var load, commit := LoadNotaPlan(req), CommitNotaPlan();
    assert h + load + commit[..c] == h + (load + commit[..c]);
    PrefixAfter(load, commit, c);
    StepsPassConcat(d, h, load, commit);
    if fault.Some? {
      FailedAtEnd(d, h, load, commit, c);
    }
  }

  // ---------------------------------------------------------------------------
  // send_nota_credito_sunat
  // ---------------------------------------------------------------------------

  const NotaMessage := "Nota de crédito emitida correctamente"

  /**
   * The PDF a download started after `confirmed` hands back: the file named
   * by `construir_nombre_pdf` when both download steps pass and it is there,
   * and nothing otherwise.
   */
  ghost function NotaPdfAfter(d: Driver, confirmed: seq<Action>, ruc: string): Option<Pdf> {
    var download := Scraper.DownloadPlan(NotaKind);
    var numero := d.shownNumber(confirmed);
    if StepsPass(d, confirmed, download, |download|)
    then Scraper.PdfInDownloads(d.downloads(confirmed + download), Scraper.ConstruirNombrePdf(NotaKind, numero, ruc), numero)
    else None
  }

  /** The PDF the credit-note flow started after `h` attaches. */
  ghost function NotaPdf(d: Driver, h: seq<Action>, req: NotaCreditoRequest): Option<Pdf> {
    NotaPdfAfter(d, h + [Login(req.credenciales)] + NotaCorePlan(req), req.credenciales.ruc)
  }

  /** The credit note, started after `h`, is emitted: the login, every loading step and every confirmation step pass. */
  ghost predicate NotaGoesThrough(d: Driver, h: seq<Action>, req: NotaCreditoRequest) {
    && d.Reply(h, Login(req.credenciales)).Pass?
    && StepsPass(d, h + [Login(req.credenciales)], NotaCorePlan(req), |NotaCorePlan(req)|)
  }

  /**
   * The credit-note flow goes through exactly when every step of its plan
   * before the download passes: the download has no say in it.
   */
  lemma NotaGoesThroughMeans(d: Driver, h: seq<Action>, req: NotaCreditoRequest)
    ensures
      var upto := 1 + |NotaCorePlan(req)|;
      upto <= |NotaPlan(req)| && (NotaGoesThrough(d, h, req) <==> StepsPass(d, h, NotaPlan(req)[..upto], upto))
  {
    var login, core := [Login(req.credenciales)], NotaCorePlan(req);
    assert NotaPlan(req)[..1 + |core|] == login + core;
    StepsPassConcat(d, h, login, core);
    assert h + login[..0] == h;
    assert StepsPass(d, h, login, 1) <==> d.Reply(h, Login(req.credenciales)).Pass?;
  }

  /**
   * The credit note, started after `h`, stopped at step `n` of its plan with
   * fault `f`: that step failed, it came before the download, and the fault
   * names the phase it belongs to (login, loading or confirmation).
   */
  ghost predicate NotaStopped(d: Driver, h: seq<Action>, req: NotaCreditoRequest, n: nat, f: Fault) {
    && n <= 1 + |NotaCorePlan(req)|
    && FailedAt(d, h, NotaPlan(req), n)
    && (n == 1 ==> f.LoginError?)
    && (1 < n <= 1 + |LoadNotaPlan(req)| ==> f.NotaCreditoLoadError?)
    && (1 + |LoadNotaPlan(req)| < n ==> f.NotaCreditoCommitError?)
  }

  /** The inner `try` around `descargar_pdf`: any failure there only means no PDF. */
  method DescargarSiDisponible(d: Driver, ruc: string) returns (pdf: Option<Pdf>, ghost dl: nat)
    modifies d
    ensures dl <= |Scraper.DownloadPlan(NotaKind)| && d.trace == old(d.trace) + Scraper.DownloadPlan(NotaKind)[..dl]
    ensures pdf == NotaPdfAfter(d, old(d.trace), ruc)
  {
    ghost var h := d.trace;
    var pdfData;
    pdfData, dl := Scraper.DescargarPdf(d, NotaKind, ruc);
    pdf := if pdfData.Ok? then Some(pdfData.value) else None;
    NotaPdfFromDownload(d, h, ruc, pdfData, dl);
  }

  /** Log in, then load and confirm the note: the part of the flow whose failure fails it. */
  method IniciarYEmitirNota(d: Driver, req: NotaCreditoRequest) returns (fault: Option<Fault>, ghost n: nat)
    modifies d
    ensures n <= 1 + |NotaCorePlan(req)| <= |NotaPlan(req)| && d.trace == old(d.trace) + NotaPlan(req)[..n]
    ensures fault.None? <==> NotaGoesThrough(d, old(d.trace), req)
    ensures fault.None? ==> d.trace == old(d.trace) + [Login(req.credenciales)] + NotaCorePlan(req)
    ensures fault.Some? ==> NotaStopped(d, old(d.trace), req, n, fault.value)
  {
    ghost var h := d.trace;
    NotaPlanParts(req);
    fault := Scraper.IniciarSesion(d, req.credenciales);
    if fault.Some? {
      NotaLoginFails(d, h, req, fault.value);
      return fault, 1;
    }
    ghost var k;
    fault, k := CargarYCompletarNota(d, req);
    if fault.Some? {
      CoreFailsInNota(d, h, req, k, fault.value);
      return fault, 1 + k;
    }
    NotaCorePasses(d, h, req);
    n := 1 + |NotaCorePlan(req)|;
  }

  /** The flow's plan is the login, loading and confirmation, then the download. */
  lemma NotaPlanParts(req: NotaCreditoRequest)
    ensures |NotaPlan(req)| == 1 + |NotaCorePlan(req)| + |Scraper.DownloadPlan(NotaKind)|
    ensures NotaPlan(req)[..1 + |NotaCorePlan(req)|] == [Login(req.credenciales)] + NotaCorePlan(req)
  {
  }

  /** A passing login followed by a passing load-and-confirm is the flow going through. */
  lemma NotaCorePasses(d: Driver, h: seq<Action>, req: NotaCreditoRequest)
    requires d.Reply(h, Login(req.credenciales)).Pass?
    requires StepsPass(d, h + [Login(req.credenciales)], NotaCorePlan(req), |NotaCorePlan(req)|)
    ensures NotaGoesThrough(d, h, req)
    ensures 1 + |NotaCorePlan(req)| <= |NotaPlan(req)|
    ensures h + [Login(req.credenciales)] + NotaCorePlan(req) == h + NotaPlan(req)[..1 + |NotaCorePlan(req)|]
  {
    NotaPlanParts(req);
  }

  /**
   * The body of the outer `try` in `send_nota_credito_sunat`: log in, load,
   * confirm, then try the download; a failed download only leaves the PDF out.
   */
  method EmitirNotaYDescargar(d: Driver, req: NotaCreditoRequest) returns (result: EmissionResult, ghost n: nat)
    modifies d
    ensures n <= |NotaPlan(req)| && d.trace == old(d.trace) + NotaPlan(req)[..n]
    ensures result.Success() <==> NotaGoesThrough(d, old(d.trace), req)
    ensures result.Success() ==>
              && n >= 1 + |NotaCorePlan(req)|
              && result == NotaCreditoEmitted(NotaMessage, req.numeroBoleta, req.fechaEmision, req.tipoNota, NotaPdf(d, old(d.trace), req))
    ensures result.Failed? ==> NotaStopped(d, old(d.trace), req, n, result.error)
  {
    ghost var h := d.trace;
    var fault;
    fault, n := IniciarYEmitirNota(d, req);
    if fault.Some? {
      return Failed(fault.value), n;
    }
    var pdf;
    ghost var dl;
    pdf, dl := DescargarSiDisponible(d, req.credenciales.ruc);
    DownloadInNota(d, h, req, dl, d.trace);
    result := NotaCreditoEmitted(NotaMessage, req.numeroBoleta, req.fechaEmision, req.tipoNota, pdf);
    n := 1 + |NotaCorePlan(req)| + dl;
  }

  /** A failed login is the first step of the flow failing. */
  lemma NotaLoginFails(d: Driver, h: seq<Action>, req: NotaCreditoRequest, f: Fault)
    requires d.Reply(h, Login(req.credenciales)).Fail? && f.LoginError?
    ensures 1 <= |NotaPlan(req)| && h + [Login(req.credenciales)] == h + NotaPlan(req)[..1]
    ensures NotaStopped(d, h, req, 1, f)
    ensures !NotaGoesThrough(d, h, req)
  {
    assert NotaPlan(req)[..1] == [Login(req.credenciales)];
    assert h + NotaPlan(req)[..0] == h;
  }

  /** A failure while loading or confirming, after the login, is a failing step of the flow. */
  lemma CoreFailsInNota(d: Driver, h: seq<Action>, req: NotaCreditoRequest, k: nat, f: Fault)
    requires NotaCoreStopped(d, h + [Login(req.credenciales)], req, k, f)
    ensures 1 + k <= |NotaPlan(req)|
    ensures h + [Login(req.credenciales)] + NotaCorePlan(req)[..k] == h + NotaPlan(req)[..1 + k]
    ensures NotaStopped(d, h, req, 1 + k, f)
    ensures !NotaGoesThrough(d, h, req)
  {
    var login, core := [Login(req.credenciales)], NotaCorePlan(req);
    FailedAtLift(d, h, login, core, Scraper.DownloadPlan(NotaKind), k);
    assert h + login + core[..k] == h + (login + core[..k]);
    FailedAtBlocks(d, h + login, core, k);
  }

  /** The download steps close the flow: the trace they leave is a prefix of the plan that runs past loading and confirming. */
  lemma DownloadInNota(d: Driver, h: seq<Action>, req: NotaCreditoRequest, dl: nat, t: seq<Action>)
    requires dl <= |Scraper.DownloadPlan(NotaKind)|
    requires t == h + [Login(req.credenciales)] + NotaCorePlan(req) + Scraper.DownloadPlan(NotaKind)[..dl]
    ensures 1 + |NotaCorePlan(req)| + dl <= |NotaPlan(req)|
    ensures t == h + NotaPlan(req)[..1 + |NotaCorePlan(req)| + dl]
  {
    var done, download := [Login(req.credenciales)] + NotaCorePlan(req), Scraper.DownloadPlan(NotaKind);
    assert t == h + (done + download[..dl]);
    PrefixAfter(done, download, dl);
  }

  /** What `descargar_pdf` returned, with a failure read as "no PDF", is the PDF the flow attaches. */
  lemma NotaPdfFromDownload(d: Driver, confirmed: seq<Action>, ruc: string, pdf: Result<Pdf, Fault>, dl: nat)
    requires dl <= |Scraper.DownloadPlan(NotaKind)|
    requires
      var download := Scraper.DownloadPlan(NotaKind);
      var numero := d.shownNumber(confirmed);
      var found := Scraper.PdfInDownloads(d.downloads(confirmed + download), Scraper.ConstruirNombrePdf(NotaKind, numero, ruc), numero);
      && (pdf.Ok? <==> dl == |download| && StepsPass(d, confirmed, download, dl) && found.Some?)
      && (pdf.Ok? ==> Some(pdf.value) == found)
      && (pdf.Err? ==> FailedAt(d, confirmed, download, dl) || (dl == |download| && found.None?))
    ensures (if pdf.Ok? then Some(pdf.value) else None) == NotaPdfAfter(d, confirmed, ruc)
  {
    var download := Scraper.DownloadPlan(NotaKind);
    if FailedAt(d, confirmed, download, dl) {
      FailedAtBlocks(d, confirmed, download, dl);
    }
  }

  /**
   * `send_nota_credito_sunat`: open a browser (`launched`, which may have
   * failed), run the flow, and close the browser in the `finally` once one
   * was opened. An exception raised while closing escapes and replaces the
   * result.
   */
  method SendNotaCreditoSunat(launched: Result<Driver, Fault>, req: NotaCreditoRequest) returns (out: Execution, ghost n: nat)
    modifies if launched.Ok? then {launched.value} else {}
    ensures launched.Err? ==> out == Returned(Failed(launched.error))
    ensures launched.Ok? ==> n <= |NotaPlan(req)|
    ensures launched.Ok? ==> launched.value.trace == old(launched.value.trace) + NotaPlan(req)[..n] + [Quit]
    ensures launched.Ok? ==>
              var d, h := launched.value, old(launched.value.trace);
              var quit := d.Reply(h + NotaPlan(req)[..n], Quit);
              && (quit.Fail? ==> out == Raised(DriverFault(quit.message)))
              && (quit.Pass? ==> out.Returned? && (out.result.Success() <==> NotaGoesThrough(d, h, req)))
    ensures launched.Ok? && out.Returned? && out.result.Success() ==>
              out.result == NotaCreditoEmitted(NotaMessage, req.numeroBoleta, req.fechaEmision, req.tipoNota,
                                               NotaPdf(launched.value, old(launched.value.trace), req))
    ensures launched.Ok? && out.Returned? && out.result.Failed? ==>
              NotaStopped(launched.value, old(launched.value.trace), req, n, out.result.error)
  {
    if launched.Err? {
      return Returned(Failed(launched.error)), 0;
    }
    var d := launched.value;
    var result;
    result, n := EmitirNotaYDescargar(d, req);
    var closed := d.Perform(Quit);
    out := if closed.Fail? then Raised(DriverFault(closed.message)) else Returned(result);
  }

  /** Closing the browser is never one of the flow's own steps. */
  lemma QuitNotInNotaPlan(req: NotaCreditoRequest)
    ensures Quit !in NotaPlan(req)
  {
  }
}
