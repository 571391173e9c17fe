# SUNAT emission backend — a Dafny model

This project models the core of a small FastAPI backend. The backend issues electronic
receipts (boletas), invoices (facturas) and credit notes (notas de crédito) on the SUNAT tax
portal. It does this by driving the portal's web interface through a browser. The model
covers four pieces:

- **Requests** (`schemas.dfy`, module `Schemas`). The request records hold a client, its
  products, a summary, credentials and a date. Predicates state the field constraints.
  `ValidateFecha` models the `%d/%m/%Y` date check as `strptime` reads it for ASCII digits:
  one- or two-digit day and month, a four-digit year, and a real calendar date.
- **The pre-flight validator** (`validator.dfy`, module `Validator`). It returns a report
  with one warning per product without IGV. It reports an error when the line totals
  differ from the declared total by more than 0.01, or when the client identity does not
  match what the document kind needs. The report is valid exactly when it holds no error.
  `ValidateComprobante` builds the report in a loop, as the endpoint does, and is proved
  equal to the pure `Validate`.
- **The two emission services** (`portal.dfy`, `scraper.dfy`, `notacredito.dfy`).
  - The browser is a `Driver` object. Every step it takes is appended to its `trace`. A
    step's outcome is an oracle over the steps taken before it. So are the total the portal
    shows, the document number it assigns, and the files in the download directory.
  - Each flow is described by a *plan*: the exact list of steps it takes when nothing fails.
    Every executor is proved to leave the trace equal to its history plus a prefix of its
    plan. It stops at the first step that fails, and it names that step. The error it
    raises is the kind that step's position calls for: a login error, a header step's own
    error, a product error, a failed read or a mismatch of the total, a confirmation error,
    or a download error.
  - `SendBillingSunat` and `SendNotaCreditoSunat` close the browser exactly once, as the
    `finally` blocks do. They report success exactly when every required step passes.
    The boleta/factura service also needs the total to be accepted and the PDF to be found.
    The credit-note service turns a failed download into "no PDF".
- **The task registry** (`tasks.dfy`, module `Tasks`). A `TaskStore` holds `tasks_storage`
  as a `map` from id to record, together with an abstract clock.
  - Submitting adds a pending record.
  - Processing marks the record processing, runs a service, and settles it as completed or
    failed.
  - The status query derives the duration.
  - The health count is the number of records in processing.
  - Every operation keeps the registry's invariant: each record is filed under its own id,
    holds the fields its status calls for, and has its timestamps in order (created, then
    started, then completed), none later than the clock.

`wrappers.dfy` holds `Option` and `Result`. `text.dfy` holds Python's `str.split` and
`str.join` on one separator character, with their round trip.

## Model

| member | source | states |
|---|---|---|
| Text.Split | app/services/nota_credito.py:40 | `str.split` on one character: at least one part, more than one exactly when the separator occurs, and no part contains the separator |
| Schemas.ResolveTipoNota | app/schemas.py:79 | an omitted credit-note kind is "01"; a given one is kept; the result is always one of the five codes when the input is |
| Schemas.ParseFecha | app/schemas.py:51 | a string that `strptime` accepts for `%d/%m/%Y` denotes a real calendar date and is three `/`-separated fields |
| Schemas.FormatParseRoundTrip | app/schemas.py:47-54 | every calendar date written as dd/mm/yyyy is accepted and read back as the same date |
| Schemas.ValidateFecha | app/schemas.py:47-54 | a non-text value gets "La fecha debe ser una cadena de texto"; a text is returned unchanged exactly when it parses, otherwise it gets "La fecha debe estar en formato dd/mm/yyyy" |
| Schemas.FechaShortFields | app/schemas.py:51 | single-digit day and month ("5/3/2024") are accepted |
| Schemas.FechaLeapDay | app/schemas.py:51 | 29/02 is accepted in a leap year |
| Schemas.FechaNoLeapDay | app/schemas.py:51 | 29/02 is rejected in a common year |
| Schemas.FechaYearZero | app/schemas.py:51 | year 0000 matches the pattern but is rejected as a date |
| Validator.Validate | app/main.py:118-146 | valid exactly when there are no errors; the warnings are the zero-IGV products; a total error exactly when the sum is off by more than 0.01; the boleta error exactly when a BOLETA has neither DNI nor name; the factura error exactly when a FACTURA has no RUC; no client check for other kinds |
| Validator.ValidateComprobante | app/main.py:118-146 | the loop that appends warnings and errors returns exactly the report `Validate` describes |
| Validator.WarningsMatchZeroIgvProducts | app/main.py:125-127 | as many warnings as products with IGV 0; every such product has a warning naming it, and every warning names such a product |
| Validator.SumTotalsIgnoresIgv | app/main.py:130 | the computed total depends only on the line totals |
| Validator.ValidityIgnoresWarnings | app/main.py:125-146 | two requests that differ only in what the warnings look at (IGV, descriptions) are equally valid |
| Validator.SumTotalsNonNegative | app/main.py:130 | products that satisfy the schema have a non-negative computed total |
| Validator.ExampleBoletaSinIgv | app/main.py:118-146 | the sample boleta (one product 2 x 5.00 without IGV, total 10.00, client with DNI) is valid with one warning |
| Portal.Driver.Reply | app/services/scraper_service.py:250-254 | typing a missing DNI or name fails as Python's `send_keys(None)` does, and a failure the portal reports is kept |
| Portal.Driver.Perform | app/services/scraper_service.py:52-57 | one browser step is appended to the trace and answered after the history before it |
| Portal.RunSteps | app/services/nota_credito.py:117-137 | the steps run in order and stop at the first failure: the trace is a prefix of the steps; no fault exactly when all pass; a fault names the step that failed |
| Scraper.PrefijosAreGeneric | app/services/scraper_service.py:170-174 | each table prefix equals the generic fallback `"PDF-" + kind + "EB01-"` |
| Scraper.ConstruirNombrePdf | app/services/scraper_service.py:168-177 | the name is `"PDF-" + kind + "EB01-" + number + ruc + ".pdf"` for every kind, listed or not |
| Scraper.NombrePdfBoleta | app/services/scraper_service.py:168-177 | the name of boleta 448 for RUC 10000000000 |
| Scraper.TotalWithinTolerance | app/services/scraper_service.py:278 | a total is accepted exactly when it is within 0.01 of the expected one |
| Scraper.SameToleranceAsValidator | app/services/scraper_service.py:272-283 | the portal-side check rejects the computed sum exactly when the validator reports a total mismatch, and the check is symmetric |
| Scraper.ClienteBoletaPaths | app/services/scraper_service.py:232-255 | a truthy DNI is typed and waited on; otherwise the name is typed and nothing waits |
| Scraper.ItemPlanIgv | app/services/scraper_service.py:100-102 | the IGV-exempt option is ticked exactly when the product's IGV is 0 |
| Scraper.ItemsPlanFillsProducts | app/services/scraper_service.py:316-317 | the product steps fill in exactly the request's products, in input order |
| Scraper.BillingPrefixProducts | app/services/scraper_service.py:316-320 | wherever the billing flow stops, it has filled in a prefix of the products, and it has read the total only after all of them |
| Scraper.PdfInDownloads | app/services/scraper_service.py:201-212 | a PDF is found exactly when its name is in the download directory, and it carries that name and the file's bytes |
| Scraper.IniciarSesion | app/services/scraper_service.py:41-62 | one login step; no fault exactly when it passes; a failure is a LoginError wrapping the browser's message |
| Scraper.AgregarProducto | app/services/scraper_service.py:65-110 | the item steps in order, stopping at the first failure, which is a ProductAdditionError |
| Scraper.AgregarProductos | app/services/scraper_service.py:316-317 | one product after another; a failure on one product stops the loop there |
| Scraper.ValidarTotal | app/services/scraper_service.py:272-283 | reads the total; no fault exactly when the read passes and the value parses and is within 0.01; a failure is the read's own error or a mismatch, and a mismatch reports the total shown and the expected one |
| Scraper.CargarComprobante | app/services/scraper_service.py:286-325 | the header, the products and the total check, stopping at the first failing step or at a rejected total; a header step raises its own error, a product step a ProductAdditionError, the last step a read error or a TotalMismatch of the total shown against the declared one |
| Scraper.CompletarEmision | app/services/scraper_service.py:113-151 | save, optional related documents, preliminary and final confirmation; the related-documents step may fail without effect; any other failure is an EmissionError |
| Scraper.DescargarPdf | app/services/scraper_service.py:180-229 | reads the number, presses download, and returns the file named by `construir_nombre_pdf` when it is there; every failure is a PdfDownloadError |
| Scraper.ConfirmarYDescargar | app/services/scraper_service.py:391-398 | confirmation then download: a PDF exactly when both go through, otherwise the step where they stopped, with an EmissionError during confirmation and a PdfDownloadError during the download or for a missing file |
| Scraper.Emitir | app/services/scraper_service.py:389-398 | loading, confirmation and download for a supported kind: the trace is a prefix of the emission's steps; a PDF exactly when all go through; a failure at a loading step is loading's stop there with the header, product or total-step error; a later failure comes after a loading that went through and is the delivery's stop with an EmissionError or a PdfDownloadError |
| Scraper.EmitirYDescargar | app/services/scraper_service.py:387-398 | login, then the supported kind's flow; an unsupported kind fails right after the login, with the login error if the login failed; for a supported kind the error is a LoginError at the login and otherwise the one the emission's position calls for |
| Scraper.UnsupportedKind | app/services/scraper_service.py:395-396 | for a kind other than BOLETA or FACTURA the flow is the login alone and never succeeds |
| Scraper.BillingGoesThroughMeans | app/services/scraper_service.py:387-416 | the billing flow succeeds exactly when every required step passes, the total is accepted and the PDF is found |
| Scraper.SendBillingSunat | app/services/scraper_service.py:377-427 | a failed browser launch is `{success: False}` with no browser step; otherwise the trace is a prefix of the plan and then exactly one quit; success exactly when the flow goes through; success carries serie, numero, total and the PDF; failure names the step and carries the error that step raises (login, header, product, total, confirmation, download); a request the schema accepts never fails as an unsupported kind; a failing quit escapes |
| Scraper.ValidRequestIsSupported | app/schemas.py:33 | a request whose kind is BOLETA or FACTURA, as the schema's pattern demands, takes the whole plan after the login, and none of its steps can raise an unsupported-kind error |
| Scraper.QuitNotInBillingPlan | app/services/scraper_service.py:424-427 | closing the browser is never one of the flow's steps, so the final quit is the only one |
| NotaCredito.MotivoLookup | app/services/nota_credito.py:28-34 | the table holds exactly the five codes with their texts; any other code reads as "Devolucion Total", the `.get` default of line 82 |
| NotaCredito.MotivoTextsDistinct | app/services/nota_credito.py:28-34 | different codes map to different texts |
| NotaCredito.ExtraerNumeroBoleta | app/services/nota_credito.py:37-45 | the result never contains "-", and a text without "-" is returned unchanged |
| NotaCredito.ExtraerNumeroBoletaOneHyphen | app/services/nota_credito.py:39-42 | with one hyphen the result is the part after it |
| NotaCredito.ExtraerNumeroBoletaMoreHyphens | app/services/nota_credito.py:39-42 | with more hyphens the result is the second segment, not the last |
| NotaCredito.ExtraerNumeroBoletaSerie | app/services/nota_credito.py:39-42 | "EB01-448" gives "448" |
| NotaCredito.ExtraerNumeroBoletaMiddle | app/services/nota_credito.py:39-42 | "A-B-C" gives "B" |
| NotaCredito.ValidNotaMotive | app/schemas.py:79 | a credit-note kind among the codes 01 to 05, as the schema's pattern demands, selects its own motive text, never the fallback; the default "01" selects "Anulacion de la Operacion" |
| NotaCredito.LoadNotaPlanOrder | app/services/nota_credito.py:122-131 | after navigating: date, motive text, extracted receipt number, sustento, continue |
| NotaCredito.EmitirNotaCredito | app/services/nota_credito.py:117-137 | the loading steps in order; the first failure stops them and is an EmissionNotaCreditoError wrapping the browser's message |
| NotaCredito.CompletarEmisionNotaCredito | app/services/nota_credito.py:141-166 | save, wait, confirm; the first failure is an EmissionNotaCreditoError |
| NotaCredito.CargarYCompletarNota | app/services/nota_credito.py:180-181 | load then confirm; the failure, by position, comes from loading or from confirming |
| NotaCredito.DescargarSiDisponible | app/services/nota_credito.py:183-192 | any failure of the download only means no PDF; the PDF is the file found after both download steps pass |
| NotaCredito.IniciarYEmitirNota | app/services/nota_credito.py:179-181 | login, load, confirm: no fault exactly when all pass; a fault names the failing step and its phase |
| NotaCredito.EmitirNotaYDescargar | app/services/nota_credito.py:173-210 | success exactly when login, loading and confirmation pass, whatever the download does; success echoes numero_boleta, fecha_emision and tipo_nota and carries the PDF if one was found |
| NotaCredito.NotaGoesThroughMeans | app/services/nota_credito.py:179-210 | the credit note succeeds exactly when every step before the download passes |
| NotaCredito.SendNotaCreditoSunat | app/services/nota_credito.py:170-221 | a failed launch is `{success: False}` with no step; otherwise a prefix of the plan and exactly one quit; success exactly when the note goes through; failure names the step before the download that failed; a failing quit escapes |
| NotaCredito.QuitNotInNotaPlan | app/services/nota_credito.py:218-221 | closing the browser is never one of the flow's steps |
| Tasks.StoredResult | app/main.py:191-209 | a returned result is stored as is; an escaped exception becomes `{success: False, error}` |
| Tasks.SettledAfterStart | app/main.py:181-209 | after processing, completed exactly when the service reported success and failed otherwise; both timestamps and a result are set; the exception path is failed with its error; the id, request and creation time are kept |
| Tasks.StatusOf | app/main.py:101-116 | the answer mirrors the record; the duration is present exactly when both timestamps are, and is their difference |
| Tasks.DurationOfProcessing | app/main.py:103-107 | a task processed once reports the service's running time; a pending task has no duration |
| Tasks.ActiveCount | app/main.py:53 | the number of records in processing is at most the number of records |
| Tasks.ActiveCountUpdate | app/main.py:53 | writing one record changes the count by the difference between the old and new record's status being processing |
| Tasks.LifecycleInOrder | app/main.py:181-209 | a record's timestamps stay in lifecycle order (created, then started, then completed) through one run exactly when each stamp is taken no earlier than the one before; every record in the registry keeps that order |
| Tasks.ActiveCountLifecycle | app/main.py:53 | submitting leaves the count unchanged; starting a pending task raises it by one; settling a processing task lowers it by one |
| Tasks.RunBilling | app/main.py:187-188 | the boleta/factura service as the registry sees it: a failed launch is `{success: False}`; a returned result succeeds exactly when the flow goes through |
| Tasks.RunNotaCredito | app/main.py:219-220 | the credit-note service as the registry sees it: a failed launch is `{success: False}`; a returned result succeeds exactly when the note goes through |
| Tasks.TaskStore.constructor | app/main.py:36 | the registry starts empty |
| Tasks.TaskStore.GetTaskStatus | app/main.py:95-116 | not found ("Tarea no encontrada") exactly for an unknown id; otherwise the record's status answer; the registry is only read |
| Tasks.TaskStore.ActiveTasks | app/main.py:53 | the health check's count of tasks in processing |
| Tasks.TaskStore.Submit | app/main.py:70-93 | a fresh id gets a pending record with no timestamps or result and the request as data; no other record changes; the answer is pending with the creation time |
| Tasks.TaskStore.SubmitEmision | app/main.py:64-93 | queues an emission with "Comprobante en cola para procesamiento" |
| Tasks.TaskStore.SubmitNotaCredito | app/main.py:148-175 | queues a credit note with "Nota de crédito en cola para procesamiento" |
| Tasks.TaskStore.BeginProcessing | app/main.py:181-182 | only that record changes: status processing and the start time |
| Tasks.TaskStore.FinishProcessing | app/main.py:191-209 | only that record changes: the status and result follow the service call, then the completion time |
| Tasks.TaskStore.ProcessEmission | app/main.py:177-209 | for a known id only that record changes: started, then settled with the result of `send_billing_sunat`, whose success is exactly the flow going through; an unknown id changes nothing |
| Tasks.TaskStore.ProcessNotaCredito | app/main.py:211-240 | the same lifecycle around `send_nota_credito_sunat` |

## Left out

- Selenium selectors, XPaths, `WebDriverWait` conditions, timeouts and `time.sleep`. Each step is one abstract step that passes or fails. The waits that decide nothing are not separate steps.
- Float parsing and formatting: the `"{:.4f}"` price, `float(... .replace("S/ ", ""))` and how amounts print in messages. Amounts are exact reals. The rendered total is an oracle that is a number or unparsable. NaN and infinities are not modelled.
- Exception messages are structured `Fault` values (class plus cause), not the formatted `str(e)` text.
- The file system and base64 in `descargar_pdf`. The download directory is an oracle map from file name to bytes; `makedirs`, the working directory and the encoding are not modelled.
- Logging (`app/utils/logger.py`), configuration constants (`app/config.py`) and browser set-up (`app/utils/selenium_utils.py`). The browser `configurar_driver` opens is the `launched` parameter: a driver, or the fault its creation raised.
- FastAPI, CORS, HTTP status codes, the root endpoint, the health check's uptime and version, and `BackgroundTasks` scheduling. Processing is an explicit method call, and concurrent tasks are not modelled.
- `uuid4` and `datetime.utcnow().isoformat()`. Ids are a freshness precondition. Time is a `nat` clock, and the running time of a service call is the `elapsed` parameter.
- The `__main__` blocks of both service files.
- One plan covers both `emitir_boleta` and `emitir_factura`, chosen by the document kind; the factura's extra wait for the client form is a step of its own.
- The documentation describes the extracted receipt number as what follows the last hyphen. The code takes the segment after the first hyphen (`split("-")[1]`), and the model follows the code.
- `if pdf_data:` is read as "a PDF was returned": `descargar_pdf` either returns a non-empty record or raises.
- Processing an unknown id raises `KeyError` in both the body and the handler of `process_emission`, so the error leaves the background task. The model does nothing in that case.
- `Started` keeps an earlier completion time and result, as the source does. A task processed twice can therefore show a negative duration while it runs again; the API never processes a task twice.
- Emitir: a TotalMismatch's two amounts (the total shown and the declared one) are stated by `ValidarTotal` and `CargarComprobante`. Emitir states only that such an error comes from the total step.
- EmitirYDescargar: for a supported kind, a TotalMismatch is placed at the total step and a LoginError at the login. The mismatch's amounts are stated by `CargarComprobante`, and the login error's message by `IniciarSesion`; neither is restated here.
- SendBillingSunat: as for `EmitirYDescargar`, the mismatch's amounts and the login error's message are not restated.
- ParseFecha: the fields accept ASCII digits only. `strptime`'s `\d` also matches other Unicode decimal digits (so "01/01/٢٠٢٤" is accepted by Python), and the model rejects such strings.
- ValidateFecha: the same ASCII-only gap, inherited from `ParseFecha`.
- `validate_fecha` is not attached to the `fecha` field by `__get_validators__`. Requests are therefore not assumed to hold a valid date.
