# Bulk product clone pipeline — a Dafny model

The system clones products of a hospital ERP (the MV schema `DBAMV` in
Oracle) in bulk. An operator uploads a spreadsheet whose rows name a
predecessor product and a new classification (species, class,
sub-class), together with a column mapping. The HTTP layer admits the
upload, records a PROCESSING job in a MariaDB audit store and answers
202. The job then runs in the background. For each row it:

- checks the whole audit history for an earlier SUCCESS of the same predecessor;
- pins the Oracle session to operating company 4;
- validates the classification;
- draws a product code from `SEQ_PRODUTO`;
- copies the product, its units (with fresh unit codes and no barcode) and its company-4 bindings, using column lists read from the live catalogue;
- retires the predecessor;
- commits, or rolls back on any error;
- writes one AUDIT_PRODUTO ledger row with the outcome.

When no Oracle connection can be had, every row is recorded as ERROR_ORACLE.

The job ends COMPLETED or FAILED. Read-only endpoints report:

- the active and recent jobs;
- a job's progress counters;
- its error rows.

A separate endpoint re-validates a classification and marks an audit row
ERROR_VALIDACAO.

The model is split into these modules:

| module | models |
|---|---|
| `Values` and `Text` | JavaScript's dynamic values, truthiness, `Number()` on strings, template rendering and SQL `=` |
| `JsObjects` | objects as `Object.entries` lists |
| `OracleStore` | the Oracle session as a class, with two views of the tables (working and committed), the two sequences, the reference tables, the session company and a statement trace |
| `AuditStore` | the audit store as a class over the job table and the ledger |
| `Identifiers` and `CloneColumns` | the identifier guards and the catalogue-driven column lists |
| `SessionGuard` | `prepararSessaoMV` |
| `Clone` | `cloneProdutoOracle`, split into its steps |
| `Processing` | `processarPlanilha` and the connection-failure path |
| `JobQueries` | the job service queries |
| `ColumnMapping` | the header heuristic `suggestMapping` |
| `Server` | the decisions of `server/index.js` |

What the model does at the I/O boundaries:

- Connection acquisition is an input: either a connection, or the message of the error the pool raised.
- The test switch `ORA_SKIP_SET_EMPRESA=1` is a boolean parameter.
- Timestamps are opaque integers supplied by the caller.
- The Oracle behaviour the code cannot see is a pair of constants of the session:
  - which company-switch procedures raise, and with what message;
  - whether store-side logic pins the session to some other company.

Where the code and the documented design of the system differ, the model
follows the code:

- A failed Oracle connection records every row with status ERROR_ORACLE. The text `ERROR_ORACLE_CONNECTION` is only the fallback message.
- The processing loop does not pin the session before the first row; the clone pins it twice itself.
- Within a job, an invalid classification is recorded as ERROR_ORACLE. ERROR_VALIDACAO is only written by `POST /api/validate-subclas`, which UPDATEs an existing ledger row. So the ledger is not append-only.
- The upload handler's single-active-job check is a read followed by an insert.
- The submitter is not stored on ledger rows (`registrarAuditoria` never binds it).

## Model

| member | source | states |
|---|---|---|
| `AuditStore.FindJob` | server/services/job.service.js:41-52 | the job with the requested id when there is one; none exactly when no job has that id |
| `AuditStore.AuditDb.CreateJob` | server/services/job.service.js:23-30 | appends one PROCESSING job with the filename, uploader and row count, under the next auto-increment id, which it returns; ids stay positive and increasing |
| `AuditStore.AuditDb.UpdateJobStatus` | server/services/job.service.js:32-39 | the jobs become `SetStatus` of the old jobs; the id invariant is kept |
| `AuditStore.AuditDb.CancelJob` | server/services/job.service.js:90-97 | the jobs become `Cancel` of the old jobs; the id invariant is kept |
| `AuditStore.AuditDb.AppendAudit` | server/services/processing.service.js:128-147 | appends exactly one ledger row under the next id and returns that id |
| `AuditStore.AuditDb.MarkValidationError` | server/index.js:81-91 | the ledger becomes `MarkInvalid` of the old ledger; ids are untouched |
| `AuditStore.CreatedJobFound` | server/services/job.service.js:23-30 | a job created with an id above all existing ones is found under its id; every other id finds what it found before |
| `AuditStore.SetStatusOnlyTarget` | server/services/job.service.js:32-39 | an unknown id changes nothing; the target gets the new status, and `finished_at` is set exactly for COMPLETED and FAILED; every other job is found unchanged |
| `AuditStore.CancelOnlyProcessing` | server/services/job.service.js:90-97 | a PROCESSING job becomes FAILED with `finished_at`; a finished or unknown job is unchanged; other jobs are untouched |
| `AuditStore.CancelNoOp` | server/services/job.service.js:90-97 | cancelling when no job with that id is PROCESSING leaves the table equal to what it was |
| `AuditStore.MarkInvalidOnlyTarget` | server/index.js:89-90 | only rows whose id matches the bound id (NULL never matches) change, and only their status, to ERROR_VALIDACAO |
| `JobQueries.GetAllProcessingJobs` | server/services/job.service.js:99-107 | exactly the PROCESSING jobs, a permutation of them, newest first |
| `JobQueries.GetActiveJob` | server/services/job.service.js:1-10 | none exactly when no job is PROCESSING; otherwise a PROCESSING job created no earlier than any other PROCESSING job |
| `JobQueries.GetRecentJobs` | server/services/job.service.js:12-21 | `min(limit, n)` distinct jobs of the table (a sub-multiset), newest first; all of them when the limit covers the table |
| `JobQueries.RecentJobsAreNewest` | server/services/job.service.js:12-21 | no job left out of the recent list is newer than a job in it |
| `JobQueries.GetJobSummary` | server/services/job.service.js:41-76 | none exactly for an unknown job; otherwise the counts of the job's ledger rows, SUCCESS and non-SUCCESS rows adding up to it, and `remaining = max(total - processed, 0)` |
| `JobQueries.GetJobErrors` | server/services/job.service.js:78-88 | exactly the job's non-SUCCESS ledger rows, as a permutation, by ascending row number |
| `JobQueries.JobErrorsMatchSummary` | server/services/job.service.js:54-88 | the error listing has as many rows as the summary's `errors` |
| `JsObjects.Lookup` | server/index.js:232 | `undefined` for a key the object lacks; otherwise the value of an entry with that key |
| `JsObjects.Put` | server/index.js:76 | an existing key keeps its position; a new key goes last |
| `JsObjects.PutLookup` | server/index.js:76 | after the assignment the key reads the new value, every other key reads as before, the key set grows by that key only, and keys stay distinct |
| `Identifiers.SanitizeIdentifier` | server/services/oracle-clone.service.js:8-12 | an accepted name comes back as a non-empty `[A-Z0-9_]` run of the same length; a refused one is the error; acceptance of every valid name is `Identifiers.SanitizeAgreesWithSafeIdentifier` |
| `Identifiers.SanitizeUpperIdentifier` | server/services/oracle-clone.service.js:8-12 | a name already in upper-case identifier form sanitises to itself |
| `Identifiers.SanitizeIdempotent` | server/services/oracle-clone.service.js:8-12 | sanitising an accepted name again gives the same answer |
| `Identifiers.SafeIdentifier` | server/index.js:52-60 | returns the value unchanged exactly when it is a non-empty `[A-Za-z0-9_]` run; otherwise an error naming the setting |
| `Identifiers.SanitizeAgreesWithSafeIdentifier` | server/services/oracle-clone.service.js:8-12 | both guards accept exactly the non-empty `[A-Za-z0-9_]` runs: the clone engine's returns the upper-cased name, the HTTP layer's the name itself; any other name is refused with the name, or the setting, as the error |
| `CloneColumns.TableColumns` | server/services/oracle-clone.service.js:74-83 | the catalogue rows of `owner.table`, all of them, in `column_id` order |
| `CloneColumns.GetTableColumnsMeta` | server/services/oracle-clone.service.js:70-89 | a success holds only catalogue rows of the upper-cased owner and table, at least one, in `column_id` order, and both names passed the identifier guard; the error cases and completeness are `CloneColumns.TableColumnsMetaAnswers` |
| `CloneColumns.TableColumnsMetaAnswers` | server/services/oracle-clone.service.js:70-89 | an invalid table name, then an invalid owner, fails with that name; with valid names the read succeeds exactly when the catalogue has a column of the upper-cased table, and otherwise fails with table-not-found; a success is all of that table's catalogue rows (as a multiset) |
| `CloneColumns.SanitizeAll` | server/services/oracle-clone.service.js:93 | succeeds exactly when every exclusion sanitises, giving their upper-cased forms in order |
| `CloneColumns.SanitizeAllUpper` | server/services/oracle-clone.service.js:93 | exclusions written as upper-case identifiers sanitise to themselves |
| `CloneColumns.KeepColumns` | server/services/oracle-clone.service.js:95 | fails exactly when a catalogue name is not a valid identifier; otherwise keeps, in order, the columns whose upper-cased name is not excluded |
| `CloneColumns.CloneColumnListSpec` | server/services/oracle-clone.service.js:91-101 | a successful column list is non-empty, in `column_id` order, and holds exactly the table's columns whose upper-cased name is not among the upper-cased exclusions |
| `SessionGuard.FirstWorkingSetter` | server/services/oracle-clone.service.js:46-54 | the first switch procedure that does not raise: every earlier one raises |
| `SessionGuard.SwitchCompany` | server/services/oracle-clone.service.js:43-54 | tries the procedures in order and stops at the first that completes, leaving the session on the company; when all raise, it issues all four and reports each `name: message` in order, with the session unchanged |
| `SessionGuard.PrepareSession` | server/services/oracle-clone.service.js:18-68 | with the test switch on, it issues nothing and passes; fails with no statement after the count when CONFIGEST lacks the company; fails listing every attempt when no switch procedure works; otherwise issues the calls up to the first working one, initialises and reads the session company, and passes exactly when `Number` of it is the company |
| `Clone.ValidateSubClas` | server/services/oracle-clone.service.js:103-118 | passes exactly when SUB_CLAS has the triple, NULL matching nothing; otherwise fails with the classification error |
| `Clone.ReadCloneColumns` | server/services/oracle-clone.service.js:91-101 | issues one catalogue read and returns `getCloneColumnList` of the catalogue |
| `Clone.InsertProductCopy` | server/services/oracle-clone.service.js:153-178 | a column-list failure is passed on with nothing written; with a column list, a predecessor count other than one fails with predecessor-not-found; a success copied exactly one row, and the product table gains the copies with the new code, classification and SYSDATE |
| `Clone.InsertUnitCopies` | server/services/oracle-clone.service.js:180-192 | every predecessor unit is copied with consecutive SEQ_UNI_PRO values and the sequence advances by their number; a failure is the column-list error, with nothing written |
| `Clone.InsertBindingCopies` | server/services/oracle-clone.service.js:194-219 | copies the predecessor's bindings (only company 4's when asked) under the new code; a failure is the column-list error, with nothing written |
| `Clone.InsertCopies` | server/services/oracle-clone.service.js:153-219 | on success, exactly one predecessor row existed and the tables are `CopyEffect` of the old ones |
| `Clone.RetirePredecessor` | server/services/oracle-clone.service.js:221-244 | runs the session guard again; on success the tables are `Retired`, otherwise unchanged |
| `Clone.WriteClone` | server/services/oracle-clone.service.js:153-244 | on success the tables are `CloneEffect` of the old ones and SEQ_UNI_PRO advanced by the number of units |
| `Clone.CheckSession` | server/services/oracle-clone.service.js:135-145 | when it passes without the test switch, CONFIGEST has company 4 and the session reads as company 4 |
| `Clone.CloneProduct` | server/services/oracle-clone.service.js:128-247 | never commits; an invalid classification fails before the sequence is drawn or a row is written, with the classification error or, when the session guard failed first, a session error; on success it returns the drawn, non-zero code, and the tables are `CloneEffect` of the old ones for the catalogue's column lists |
| `Clone.UnitCopyFields` | server/services/oracle-clone.service.js:184-192 | a unit copy has its own code, the new product, a NULL barcode and the other copied columns of its source |
| `Clone.NewProductRowFields` | server/services/oracle-clone.service.js:160-174 | a product copy has the new code and classification, SYSDATE, and the other copied columns of the predecessor |
| `Clone.ProductExclusionsSanitize` | server/services/oracle-clone.service.js:154-158 | the product exclusion list sanitises to itself |
| `Clone.UnitExclusionsSanitize` | server/services/oracle-clone.service.js:181-182 | the unit exclusion list sanitises to itself |
| `Clone.BindingExclusionsSanitize` | server/services/oracle-clone.service.js:195-196 | the binding exclusion list sanitises to itself |
| `Clone.RetireAfterProductCopy` | server/services/oracle-clone.service.js:160-233 | after copying one row and retiring: one row more, existing rows changed only where they are the predecessor, the copy as built |
| `Clone.CloneAddsOneProduct` | server/services/oracle-clone.service.js:160-233 | a successful clone adds one product row with the new code, classification and SYSDATE and the predecessor's other copied columns, and retires the predecessor's rows only |
| `Clone.CloneCopiesUnits` | server/services/oracle-clone.service.js:184-192 | the units are the old ones followed by one copy per predecessor unit, in order, each with the next unit code, the new product and no barcode |
| `Clone.BindingsToCopySelects` | server/services/oracle-clone.service.js:198-219 | the copied bindings are exactly the predecessor's, restricted to company 4 when asked |
| `Clone.RetireAfterBindingCopies` | server/services/oracle-clone.service.js:194-244 | after copying and retiring, existing bindings change only where they are the predecessor's company-4 binding; each copy keeps the new product and its copied columns |
| `Clone.CloneCopiesBindings` | server/services/oracle-clone.service.js:194-244 | the bindings after a clone: the old ones with the predecessor's company-4 binding retired, then one copy per selected binding under the new product |
| `Clone.RetireMarksRow` | server/services/oracle-clone.service.js:225-233 | retiring sets `SN_MOVIMENTACAO = 'N'`, `SN_BLOQUEIO_DE_COMPRA = 'S'` and nothing else |
| `OracleStore.Where` | server/services/oracle-clone.service.js:164-165 | the rows whose column equals the value under SQL `=` and no others |
| `OracleStore.OracleDb.Commit` | server/services/processing.service.js:58 | the committed tables become the working ones |
| `OracleStore.OracleDb.Rollback` | server/services/processing.service.js:75-77 | the working tables go back to the committed ones |
| `OracleStore.OracleDb.Close` | server/services/processing.service.js:97-103 | the connection is closed |
| `OracleErrors.Message` | server/services/processing.service.js:79-86 | no clone or session error message equals `DUPLICADO_HISTORICO`, so only the duplicate check yields that status |
| `Values.NumberOfRenderedInt` | server/index.js:157 | `Number` of an integer written in decimal is that integer |
| `Processing.ToNumberOrZero` | server/services/processing.service.js:106-109 | a finite `Number(v)` is kept; anything else becomes 0 |
| `Processing.ToNumberOrZeroIdempotent` | server/services/processing.service.js:106-109 | coercing twice is coercing once |
| `Processing.HasPriorSuccess` | server/services/processing.service.js:36-47 | true exactly when some ledger row is a SUCCESS with `success_antecessor` equal (SQL `=`) to the predecessor |
| `Processing.PriorSuccessAfterAppend` | server/services/processing.service.js:36-47 | a new ledger row makes a predecessor a duplicate exactly when it is a SUCCESS for it |
| `Processing.RecordFeedsDuplicateCheck` | server/services/processing.service.js:128-147 | a ledger row counts for later duplicate checks exactly when its row was cloned and its predecessor matches |
| `Processing.FailureRowsShape` | server/services/processing.service.js:111-126 | one ERROR_ORACLE row per sheet row, in order, numbered from 1, with no new product and the message; predecessor and classification are `toNumberOrZero` of the row's mapped cells; none counts as a prior success |
| `Processing.RegisterConnectionFailure` | server/services/processing.service.js:111-126 | the ledger grows by exactly `FailureRows` of the sheet, with consecutive ids |
| `Processing.CloneRow` | server/services/processing.service.js:34-79 | a duplicate is rejected with `DUPLICADO_HISTORICO` before any sequence is drawn; any other rejection carries `Message` of the error the clone threw, which for an unknown classification is the classification error unless the session guard failed first; a rejection leaves nothing uncommitted; a clone is committed with a fresh non-zero code and the `CloneEffect` of the tables; the last statement is the commit or the rollback |
| `Processing.CloneAndSettle` | server/services/processing.service.js:49-79 | the clone is committed when it returns and rolled back when it throws, the thrown error's `Message` becoming the outcome; an unknown classification is always rejected without drawing a sequence |
| `Processing.ProcessRow` | server/services/processing.service.js:25-95 | appends exactly one ledger row for the sheet row, whose status agrees with the duplicate check and whose error is the thrown error's message, and leaves no uncommitted change |
| `Processing.ProcessedRowLogged` | server/services/processing.service.js:60-92 | the ledger row of a processed row carries the job, row number, cells and outcome, with `success_antecessor` set on SUCCESS rows only |
| `Processing.ProcessRows` | server/services/processing.service.js:25-96 | every sheet row gets exactly one ledger row, in order, after the existing ledger, which is kept |
| `Processing.ProcessSpreadsheet` | server/services/processing.service.js:4-104 | with no connection: every row recorded as failed, the error passed on, Oracle untouched; otherwise every row logged in order, nothing left uncommitted, connection closed |
| `Processing.SecondOccurrenceIsDuplicate` | server/services/processing.service.js:36-47 | a predecessor cloned at one row is recorded as DUPLICADO_HISTORICO at every later row of the job that names it |
| `Processing.LoggedRowsOfJob` | server/services/processing.service.js:60-92 | every ledger row the loop wrote belongs to the job |
| `Processing.CompletedJobSummary` | server/services/job.service.js:41-76 | once all of a job's rows are logged, its summary shows all processed, success plus errors equal to the total, nothing remaining |
| `ColumnMapping.SuggestMapping` | src/utils/mapping.js:1-25 | the suggestion is empty or one of the four required fields |
| `ColumnMapping.SuggestMappingIgnoresCase` | src/utils/mapping.js:6 | headers equal up to upper-casing get the same suggestion |
| `ColumnMapping.SuggestMappingOfUpperCased` | src/utils/mapping.js:6 | upper-casing a header first changes nothing |
| `ColumnMapping.SuggestMappingPriority` | src/utils/mapping.js:8-24 | each suggestion is produced exactly by its keywords in priority order: PROD/ANT, then ESP, then SUB, then CLA without SUB |
| `Server.Inverted` | server/index.js:74-78 | the inverted mapping has distinct keys |
| `Server.InvertedHasKey` | server/index.js:74-78 | the inverted mapping has a field exactly when some entry with a truthy value names it; otherwise the field reads `undefined` |
| `Server.InvertedLast` | server/index.js:74-78 | a field maps to the column of the last entry naming it |
| `Server.NormalizeMapping` | server/index.js:66-79 | none for a falsy mapping; the mapping itself when it has all field keys; otherwise the inverted one |
| `Server.MissingFields` | server/index.js:232 | exactly the required fields the mapping leaves falsy, as a subsequence of `REQUIRED_MAPPING_FIELDS` (in its order) |
| `Server.CheckUpload` | server/index.js:195-244 | admitted exactly with a file, no active job, a parsed non-null mapping with every required field and a non-empty sheet; each of the six refusals exactly when the earlier checks pass and its own fails, in the handler's order; an incomplete mapping lists its missing fields |
| `Server.Uploader` | server/index.js:248 | a non-empty `uploadedBy` as given, `desconhecido` when it is absent or empty |
| `Server.AdmitUpload` | server/index.js:195-252 | a refusal creates no job; admission creates exactly one PROCESSING job under the next id |
| `Server.RunJob` | server/index.js:254-271 | the job becomes COMPLETED when processing finished and FAILED when it raised; the ledger only grows |
| `Server.HandleUpload` | server/index.js:195-279 | a refusal changes nothing in either store; an admitted upload ends with one new job holding its final status and one ledger row per sheet row |
| `Server.FinalStatusOfNewJob` | server/index.js:246-267 | finalising the job just created changes that job only |
| `Server.CountSubClas` | server/index.js:107-116 | the count is zero exactly when the classification does not exist |
| `Server.ValidateSubclas` | server/index.js:93-134 | 400 without all four inputs; 500 without a connection; otherwise valid exactly when the triple exists, and an invalid one marks the audit row ERROR_VALIDACAO |
| `Server.DefaultAuditIdentifiersSafe` | server/index.js:81-88 | the default table and column names pass `safeIdentifier` |
| `Server.JobIdParam` | server/index.js:157-160 | accepted exactly when `Number` of it is finite and positive |
| `Server.JobIdParamOfRendered` | server/index.js:157-160 | a positive id in decimal is accepted as itself |
| `Server.RecentLimit` | server/index.js:139-140 | the given limit when `Number` of it is finite and positive; 5 otherwise |
| `Server.RecentLimitOfRendered` | server/index.js:139-140 | a positive limit in decimal is used as given |
| `Server.ActiveJobs` | server/index.js:136-152 | no active job exactly when none is PROCESSING, otherwise a PROCESSING job no older than any other; `min(limit, n)` distinct jobs newest first, none left out newer than one listed; the active job is among them when the list is not full |
| `Server.JobSummaryEndpoint` | server/index.js:154-171 | 400 exactly for an invalid id, 404 exactly for an unknown job, otherwise that job's `getJobSummary`: its total, the count of its ledger rows, split into SUCCESS and the rest |
| `Server.JobDetailsEndpoint` | server/index.js:173-187 | 400 exactly for an invalid id; otherwise exactly that job's non-SUCCESS rows, as a permutation, by ascending row number |

## Left out

- Concurrency: requests, `Promise.all` and the `setImmediate` background task run one after another. So the race between two uploads that both pass the active-job check (server/index.js:207-250) is not modelled.
- The background run is modelled as finishing right after the 202 answer; the answer itself and JSON serialisation (`jsonSafe`) are not modelled.
- `server/config/database.js` exports no `getOracleConnection`, although `server/index.js:13` and `server/services/processing.service.js:1` import it. Acquiring a connection is an input of the model: a connection, or the error the pool raised.
- Spreadsheet parsing (`parseSpreadsheet`), multer file handling and the `unlink` of the uploaded file are I/O and are left out. A sheet is a sequence of header-to-cell maps.
- Logging (`console.*`) is left out.
- The outer `catch` of the upload handler (500) is left out, and so are driver-level failures of single statements (an audit insert, a rollback or a close that raises). The model's statements either succeed or fail only where the code checks a result.
- `Number()` is modelled on integers only: decimals, exponents, hex and `Infinity` are not. A decimal `recentLimit` is therefore not modelled.
- Upper-casing is ASCII-only: non-ASCII letters are left unchanged. JavaScript's `toUpperCase` maps a few non-ASCII letters to ASCII ones (`ſ` to `S`, `ı` to `I`), so `sanitizeIdentifier` accepts names the model refuses.
- `Identifiers.SanitizeIdentifier`: its own contract states what an accepted or refused name comes back as, not that every valid name is accepted. That direction is proved in `Identifiers.SanitizeAgreesWithSafeIdentifier`. The function is evaluated on literal table and column names throughout the clone proofs, and the stronger contract made those proofs too costly.
- SQL comparisons other than the audit id compare values strictly, so a numeric string never equals a number. MariaDB and Oracle would coerce.
- The audit id of `POST /api/validate-subclas` (`AuditStore.IdMatches`) is compared through JavaScript's `Number()` of the bound value. MariaDB converts a string by its numeric prefix instead: for `'12abc'` it matches row 12, or raises a truncation error in strict mode, where the model matches no row.
- Triggers, column defaults and every column a clone does not name are not modelled.
- The order in which `SEQ_UNI_PRO` values are handed out inside one `INSERT … SELECT` is taken to be table order.
- Timestamps are opaque: the `NOW()` columns of ledger rows are not modelled, and job timestamps are caller-supplied integers.
- The `DB_AUDIT_TABLE`, `DB_AUDIT_ID_COLUMN` and `DB_AUDIT_STATUS_COLUMN` overrides are left out. `markValidationError` always uses the defaults, which `Server.DefaultAuditIdentifiersSafe` shows pass the guard.
- A parsed mapping that is not a plain object (an array, a number) is left out.
- JavaScript's ordering of integer-like keys first in `Object.entries` is left out. Entries keep insertion order.
- A switch procedure that raises without a message (`'N/A'`) is covered only in that the raised message is an input of the session.
- `Clone.CloneAddsOneProduct` and `Clone.CloneCopiesBindings` require that the new product code differs from the predecessor's. When it does not, the retiring `UPDATE` also hits the copies.
- `CloneColumns.GetTableColumnsMeta`: its own contract states what a successful read holds, not when the read succeeds or which error it gives. Those are proved in `CloneColumns.TableColumnsMetaAnswers`. The function is evaluated on literal table names throughout the clone proofs, and the fuller contract made those proofs too costly.
- `Clone.CloneProduct` does not name which error a failing catalogue read or predecessor lookup produces. `SessionGuard.PrepareSession`, `CloneColumns.TableColumnsMetaAnswers` and `Clone.InsertProductCopy` state those.
- `Processing.ProcessRows` states that the Oracle tables end committed only when the sheet has at least one row. For an empty sheet nothing is written to Oracle; the upload handler refuses such a sheet anyway.
- Ties in `ORDER BY created_at` / `row_number` are not resolved: the contracts state sortedness and permutation only.
