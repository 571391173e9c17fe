/**
 * The automation surface the emission flows drive, reduced to abstract
 * may-fail steps. A `Driver` records every step it is asked to take in
 * `trace`; whether a step succeeds, and what the page shows, is decided by
 * fixed functions of the steps taken before it (the portal's behaviour).
 * Also here: the exception taxonomy of the services and the result records
 * they return.
 */
module Portal {
  import opened Wrappers
  import opened Schemas

  type Bytes = seq<bv8>

  /** One user-interface step against the tax portal. */
  datatype Action =
    | Login(credenciales: Credenciales)           // open the portal, type RUC, user and password, press accept
    | SearchMenu(term: string)                     // type a term in the menu search box
    | ClickMenuEntry(entry: string)                // click the matching "emit" entry
    | EnterApplicationFrame                        // wait for the application iframe and switch into it
    | AwaitClientForm                              // wait for the client document-number field
    | SelectDocumentType(docType: string)          // choose the client's identity document type
    | TypeDocumentNumber(number: Option<string>)   // type the client's DNI or RUC, then TAB
    | AwaitClientName                              // wait until the portal has looked up the client's name
    | TypeClientName(name: Option<string>)         // type the client's name directly
    | ClickContinue                                // leave the client screen
    | SetEmissionDate(kind: string, fecha: string)
    | AwaitIdle                                    // wait until the "please wait" overlay is gone
    | OpenItemDialog(kind: string)
    | FillItem(producto: Producto)                 // item sub-type, quantity, unit, description, unit price
    | MarkIgvExempt                                // tick the IGV-exempt option of the item
    | AcceptItem
    | ReadTotal(kind: string)                      // read the rendered grand total
    | SaveDocument(kind: string)
    | AcceptRelatedDocuments                       // optional dialog; its absence is tolerated
    | ConfirmPreliminary(kind: string)
    | ConfirmFinal
    | SelectMotive(text: string)                   // credit note: reason, typed into an autocomplete field
    | EnterReference(reference: string)            // credit note: number of the referenced receipt
    | EnterSustento(text: string)                  // credit note: free-text justification
    | ClickContinueNote
    | ReadDocumentNumber                           // read the number the portal assigned
    | ClickDownload(kind: string)                  // press the PDF download button
    | Quit                                         // close the browser

  datatype Outcome = Pass | Fail(message: string)

  /**
   * The message of the TypeError raised when `send_keys` is given None
   * instead of text. The text depends on the Selenium version (this is
   * the one from `keys_to_typing` in Selenium 3; Selenium 4 reports that
   * 'NoneType' object is not iterable); only the failure itself matters.
   */
  const NoneTypeMessage := "object of type 'NoneType' has no len()"

  /** What Python raises when the rendered total does not parse as a float. */
  const NotANumberMessage := "could not convert string to float"

  /** The exceptions the services raise, by class, wrapping the exception that caused them. */
  datatype Fault =
    | DriverFault(message: string)               // raised by the browser surface itself (timeout, missing element, TypeError)
    | LoginError(cause: Fault)                   // "No se pudo iniciar sesión: ..."
    | ProductAdditionError(cause: Fault)         // "No se pudo agregar producto: ..."
    | TotalMismatch(actual: real, expected: real) // ValueError "Total no coincide: ..."
    | EmissionError(cause: Fault)                // "No se pudo completar la emisión: ..."
    | PdfNotFound(filename: string)              // "No se encontró el archivo PDF: ..."
    | PdfDownloadError(cause: Fault)             // "No se pudo descargar el PDF: ..."
    | UnsupportedDocumentType(tipo: string)      // ValueError "Tipo de documento no soportado: ..."
    | NotaCreditoLoadError(cause: Fault)         // EmissionNotaCreditoError "No se pudo emitir nota de crédito: ..."
    | NotaCreditoCommitError(cause: Fault)       // EmissionNotaCreditoError "No se pudo completar la emisión: ..."

  /** The downloaded document as the services attach it. */
  datatype Pdf = Pdf(
    filename: string,
    content: Bytes,
    size: nat,
    mimeType: string,
    numeroComprobante: string)

  /** The result dictionary of an emission: a success payload or `{success: False, error}`. */
  datatype EmissionResult =
    | Emitted(message: string, serie: string, numero: string, total: real, pdf: Option<Pdf>)
    | NotaCreditoEmitted(message: string, numeroBoleta: string, fechaEmision: string, tipoNota: string, pdf: Option<Pdf>)
    | Failed(error: Fault)
  {
    /** The `success` key. */
    predicate Success() { !Failed? }
  }

  /** How a service call ends: it returns a result, or an exception escapes it. */
  datatype Execution = Returned(result: EmissionResult) | Raised(fault: Fault)

  class Driver {
    /** Every step taken on this browser, oldest first. */
    var trace: seq<Action>

    /** Whether the portal lets a step through, given the steps taken before it. */
    const respond: (seq<Action>, Action) -> Outcome
    /** The rendered grand total after a history, or None when it does not parse as a number. */
    const shownTotal: seq<Action> -> Option<real>
    /** The (stripped) document number the portal shows after a history. */
    const shownNumber: seq<Action> -> string
    /** The files in the download directory after a history. */
    const downloads: seq<Action> -> map<string, Bytes>

    constructor (respond: (seq<Action>, Action) -> Outcome, shownTotal: seq<Action> -> Option<real>,
                 shownNumber: seq<Action> -> string, downloads: seq<Action> -> map<string, Bytes>)
      ensures trace == []
      ensures this.respond == respond && this.shownTotal == shownTotal
      ensures this.shownNumber == shownNumber && this.downloads == downloads
    {
      trace := [];
      this.respond := respond;
      this.shownTotal := shownTotal;
      this.shownNumber := shownNumber;
      this.downloads := downloads;
    }

    /**
     * The outcome of step `a` after history `h`: the portal's answer, except
     * that typing None fails with Python's TypeError once the field is found.
     */
    function Reply(h: seq<Action>, a: Action): (o: Outcome)
      ensures (a == TypeDocumentNumber(None) || a == TypeClientName(None)) ==> o.Fail?
      ensures respond(h, a).Fail? ==> o == respond(h, a)
    {
      match respond(h, a)
      case Fail(m) => Fail(m)
      case Pass =>
        if a == TypeDocumentNumber(None) || a == TypeClientName(None) then Fail(NoneTypeMessage) else Pass
    }

    /** Take one step. */
    method Perform(a: Action) returns (o: Outcome)
      modifies this
      ensures trace == old(trace) + [a]
      ensures o == Reply(old(trace), a)
    {
      o := Reply(trace, a);
      trace := trace + [a];
    }
  }

  /** The one step whose failure the flows tolerate: the related-documents dialog may not appear. */
  predicate Tolerated(a: Action) {
    a.AcceptRelatedDocuments?
  }

  /** None of `steps` is one whose failure is tolerated. */
  ghost predicate AllRequired(steps: seq<Action>) {
    forall i :: 0 <= i < |steps| ==> !Tolerated(steps[i])
  }

  /** Every step before index `upto` whose failure is not tolerated passes, each after the history that precedes it. */
  ghost predicate StepsPass(d: Driver, h: seq<Action>, steps: seq<Action>, upto: nat)
    requires upto <= |steps|
  {
    forall i :: 0 <= i < upto && !Tolerated(steps[i]) ==> d.Reply(h + steps[..i], steps[i]).Pass?
  }

  /** The `n`-th step (counting from 1) is one that must pass, and it failed. */
  ghost predicate FailedAt(d: Driver, h: seq<Action>, steps: seq<Action>, n: nat) {
    && 1 <= n <= |steps|
    && !Tolerated(steps[n - 1])
    && d.Reply(h + steps[..n - 1], steps[n - 1]).Fail?
  }

  /**
   * Take `steps`, none of them tolerated, in order and stop at the first one
   * that fails: the trace grows by the steps taken, all of which passed
   * except the last one when `fault` is set, and `fault` is that step's message.
   */
  method RunSteps(d: Driver, steps: seq<Action>) returns (fault: Option<string>, ghost n: nat)
    requires AllRequired(steps)
    modifies d
    ensures n <= |steps| && d.trace == old(d.trace) + steps[..n]
    ensures fault.None? <==> n == |steps| && StepsPass(d, old(d.trace), steps, n)
    ensures fault.Some? ==>
              && FailedAt(d, old(d.trace), steps, n)
              && StepsPass(d, old(d.trace), steps, n - 1)
              && d.Reply(old(d.trace) + steps[..n - 1], steps[n - 1]) == Fail(fault.value)
  {
    ghost var h := d.trace;
    var i := 0;
    while i < |steps|
      invariant 0 <= i <= |steps|
      invariant d.trace == h + steps[..i]
      invariant StepsPass(d, h, steps, i)
    {
      assert steps[..i + 1] == steps[..i] + [steps[i]];
      var o := d.Perform(steps[i]);
      if o.Fail? {
        return Some(o.message), i + 1;
      }
      i := i + 1;
    }
    return None, i;
  }

  /** A prefix that runs past `x` is `x` followed by a prefix of what comes after it. */
  lemma PrefixAfter(x: seq<Action>, y: seq<Action>, m: nat)
    requires m <= |y|
    ensures (x + y)[..|x| + m] == x + y[..m]
  {
  }

  /** A prefix that stops inside `y` does not see `z`. */
  lemma PrefixWithin(y: seq<Action>, z: seq<Action>, m: nat)
    requires m <= |y|
    ensures (y + z)[..m] == y[..m]
  {
  }

  /** Running `a` then `b` passes exactly when `a` passes and then `b` passes after it. */
  lemma StepsPassConcat(d: Driver, h: seq<Action>, a: seq<Action>, b: seq<Action>)
    ensures StepsPass(d, h, a + b, |a + b|) <==> StepsPass(d, h, a, |a|) && StepsPass(d, h + a, b, |b|)
  {
    if StepsPass(d, h, a + b, |a + b|) {
      forall i | 0 <= i < |a| && !Tolerated(a[i])
        ensures d.Reply(h + a[..i], a[i]).Pass?
      {
        assert (a + b)[..i] == a[..i] && (a + b)[i] == a[i];
      }
      forall j | 0 <= j < |b| && !Tolerated(b[j])
        ensures d.Reply(h + a + b[..j], b[j]).Pass?
      {
        assert (a + b)[..|a| + j] == a + b[..j] && (a + b)[|a| + j] == b[j];
        assert h + (a + b[..j]) == h + a + b[..j];
      }
    }
    if StepsPass(d, h, a, |a|) && StepsPass(d, h + a, b, |b|) {
      forall i | 0 <= i < |a + b| && !Tolerated((a + b)[i])
        ensures d.Reply(h + (a + b)[..i], (a + b)[i]).Pass?
      {
        if i < |a| {
          assert (a + b)[..i] == a[..i] && (a + b)[i] == a[i];
        } else {
          var j := i - |a|;
          assert (a + b)[..i] == a + b[..j] && (a + b)[i] == b[j];
          assert h + (a + b[..j]) == h + a + b[..j];
        }
      }
    }
  }

  /** A failure inside `b`, run after `a`, is a failure of `a + b + c` at the same step. */
  lemma {:induction false} FailedAtLift(d: Driver, h: seq<Action>, a: seq<Action>, b: seq<Action>, c: seq<Action>, m: nat)
    requires FailedAt(d, h + a, b, m)
    ensures FailedAt(d, h, a + b + c, |a| + m)
    ensures (a + b + c)[..|a| + m] == a + b[..m]
  {
    assert (a + b + c)[..|a| + m - 1] == a + b[..m - 1];
    assert (a + b + c)[|a| + m - 1] == b[m - 1];
    assert h + (a + b[..m - 1]) == h + a + b[..m - 1];
    assert (a + b + c)[..|a| + m] == a + b[..m];
  }

  /** A failure inside `b`, run after `a`, is a failure of `a + b` at the same step. */
  lemma FailedAtEnd(d: Driver, h: seq<Action>, a: seq<Action>, b: seq<Action>, m: nat)
    requires FailedAt(d, h + a, b, m)
    ensures FailedAt(d, h, a + b, |a| + m)
    ensures (a + b)[..|a| + m] == a + b[..m]
  {
    FailedAtLift(d, h, a, b, [], m);
    assert a + b + [] == a + b;
  }

  /** A failure inside `b` is a failure of `b + c` at the same step. */
  lemma FailedAtWithin(d: Driver, h: seq<Action>, b: seq<Action>, c: seq<Action>, m: nat)
    requires FailedAt(d, h, b, m)
    ensures FailedAt(d, h, b + c, m)
    ensures (b + c)[..m] == b[..m]
  {
    assert (b + c)[..m - 1] == b[..m - 1];
    assert (b + c)[..m] == b[..m];
  }

  /** The last step of a plan: the plan passes when the steps before it pass and then it does. */
  lemma LastStep(d: Driver, h: seq<Action>, pre: seq<Action>, a: seq<Action>)
    requires |a| == 1 && !Tolerated(a[0])
    ensures (pre + a)[..|pre|] == pre && (pre + a)[..|pre| + 1] == pre + a
    ensures StepsPass(d, h, pre + a, |pre| + 1) <==> StepsPass(d, h, pre, |pre|) && d.Reply(h + pre, a[0]).Pass?
    ensures d.Reply(h + pre, a[0]).Fail? ==> FailedAt(d, h, pre + a, |pre| + 1)
  {
    assert (pre + a)[..|pre|] == pre;
    assert (h + pre) + a[..0] == h + pre;
    StepsPassConcat(d, h, pre, a);
  }

  /** A plan with a failing step does not pass. */
  lemma FailedAtBlocks(d: Driver, h: seq<Action>, steps: seq<Action>, n: nat)
    requires FailedAt(d, h, steps, n)
    ensures !StepsPass(d, h, steps, |steps|)
  {
    assert !d.Reply(h + steps[..n - 1], steps[n - 1]).Pass?;
  }
}
