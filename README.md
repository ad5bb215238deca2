# KPI upload backend — ingestion core in Dafny

This project models the ingestion core of the KPI dashboard backend. An
administrator uploads up to seven spreadsheet exports, one per KPI:

- TMO
- TransfEPA
- Tipificaciones
- SatEP
- ResEP
- SatSNL
- ResSNL

The upload runs as follows:

- The service decides which KPIs the form marks as omitted.
- For each file it keeps, it finds the column holding the metric value and
  extracts one percentage per executive.
- It joins those extracts into one record per executive, sorted by name, and
  stores the records in an in-memory preview map under a session id.
- Confirming a session sends the records to the n8n webhook. The session is
  deleted only when the webhook answers 200.

The model also covers the guards in front of these endpoints:

- extracting the bearer token;
- the admin test on the user record the main API returns;
- in the user-administration router: the token table with expiry eviction,
  `require_admin`, the 72-byte password guard, and the values `create_user`
  and `update_user` write.

## Modules

| module | what it models |
|---|---|
| `Wrappers` | `Option`, `Result` and `HttpError` |
| `Text` | string helpers: `strip`, ASCII `lower`/`upper`, `find`, `replace`, `join` |
| `Numbers` | exact decimal `float()` parsing and Python's round-half-even `round(x, n)`, on reals |
| `Sheets` | what the spreadsheet reader returns: cells, a header-inferred sheet, and a raw read |
| `Normalizer` | `normalizar_valor` |
| `ColumnLocator` | `buscar_columna_valor` |
| `KpiDetector` | `detectar_tipo_kpi` |
| `SheetExtractor` | `procesar_archivo_kpi` |
| `StringOrder` | Python string order, and `sorted` over a set of names |
| `Kpis` | the seven KPIs and their record keys |
| `Unifier` | `unificar_datos_kpi` |
| `Json` | the user records of the main API, and their truthiness |
| `Auth` | `extract_bearer_token` and the admin test of `require_admin_token` |
| `UploadForm` | the omitted list and the kept-file map of `upload_files` |
| `Webhook` | `enviar_a_n8n` |
| `PreviewStore` | `preview_data`, as a class whose upload and confirm methods update it |
| `AdminUsers` | the user-administration router |

Code that is a pure computation in the source is written as functions, with
lemmas about them. Code that loops or updates state is written as methods:

- the row loops;
- the loops in the unifier;
- the token table (class `TokenStore`);
- the preview map (class `Store`);
- the `fields`/`values` builder of `update_user`.

Each such method is proved equal to a specification function. The lemmas state
the properties of that function.

### Where the code and its documentation differ (the model follows the code)

- `normalizar_valor` removes every space and every `%`, not only a trailing
  sign. Its result is not bounded by 1: 250 gives 2.5
  (`Normalizer.NormalizeUnbounded`).
- The segment scan of `detectar_tipo_kpi` does not stop at the first
  matching cell. Its `break` only leaves the inner loop, so the last row that
  names a segment decides (`KpiDetector.LastRowWins`).
- In `require_admin_token`, `role_id in (99, 1)` uses Python `==`. Because
  `True == 1`, a `role_id` of `true` also passes (`Auth.IsAdmin`).
- The docstring of `require_admin` in `admin_users.py` speaks of `role_id=99`.
  The code tests the role name that `ROLE_MAP` gives.
- The docstring of `buscar_columna_valor` says its second priority looks for a
  header containing the KPI type. The code reads the first data row instead,
  and the model follows it (`ColumnLocator.PatternWins`).
- A token whose `expires_at` equals the current time is still accepted,
  because the test is `expires_at < now`.

### Straight-line code written as loops

- `upload_files`: the seven `omitir_*` tests and the seven file tests are
  written as loops over the fixed KPI order.
- `update_user`: the six profile-field tests are written as a loop over the
  column positions.

In both places the order, the tests and the appended entries are the same as
in the source.

## Model

| member | source | states |
|---|---|---|
| Normalizer.Normalize | main.py:144-181 | the model of `normalizar_valor`; its behaviour is stated by NormalizeNone, Scale4Rule, NormalizeNumber and the examples below |
| Normalizer.Clean | main.py:159-163 | the cleaned text holds no space, `%` or `,`, and is no longer than the input |
| Normalizer.CleanConcat | main.py:159-163 | cleaning works character by character: it distributes over concatenation |
| Normalizer.CleanChar | main.py:159-163 | on one character, a space or `%` is removed, `,` becomes `.`, and anything else is kept |
| Normalizer.Scale4Rule | main.py:168-178 | a value is rejected exactly when negative; up to 1 it is kept (rounded to 4 places); above 1 it is divided by 100; results are non-negative |
| Normalizer.NormalizeNone | main.py:154-181 | `None` exactly for a missing cell, `""`, a string empty after cleaning, a string that does not parse, or a negative number; otherwise a non-negative fraction |
| Normalizer.NormalizeNumber | main.py:165-176 | a numeric cell follows the same scale rule as a parsed string |
| Normalizer.NormalizeUnbounded | main.py:168-170 | the result is not capped at 1: 250 normalises to 2.5 |
| NormalizerExamples.NormalizeLocalePercent | main.py:147-148 | "95,50 %" normalises to 0.955 |
| NormalizerExamples.NormalizeLocaleFraction | main.py:149 | "0,9550" normalises to 0.955 |
| NormalizerExamples.NormalizeNumericExamples | main.py:150-152 | 95.5 gives 0.955 and 1 gives 1.0 |
| NormalizerExamples.ParseDecimal | main.py:164 | a decimal without sign or padding parses to its digits scaled down by its number of decimals |
| Numbers.Round | main.py:170 | the model of `round(x, n)` on exact decimals; stated by RoundIsNearest and RoundExact |
| Numbers.RoundIsNearest | main.py:170 | `round(x, n)` lands on a multiple of 10^-n within half a unit of `x` |
| Numbers.RoundExact | main.py:173 | a value with at most `n` decimals is unchanged by `round(x, n)` |
| Numbers.RoundHalfEven | main.py:170 | the nearest integer, a tie going to the even neighbour |
| Numbers.ParseNumber | main.py:164 | the model of `float()` on the decimal grammar: whitespace, an optional sign, then an unsigned decimal; stated by ParseNumberStrip, ParseNumberSigned, ParseUnsignedGrammar and ParseSign |
| Numbers.ParseNumberStrip | main.py:164 | surrounding whitespace (including tabs, newlines and no-break spaces left after cleaning) does not change the result |
| Numbers.ParseNumberSigned | main.py:164 | for an accepted unsigned decimal `u`: `u` and `"+" + u` give its value, `"-" + u` gives its negation |
| Numbers.ParseUnsignedGrammar | main.py:164 | an unsigned decimal is accepted exactly when it is digits with at most one point and at least one digit; its value is its digits, scaled down by the number of digits after the point |
| Numbers.ParseSign | main.py:164 | a leading minus gives a value ≤ 0, otherwise ≥ 0 |
| ColumnLocator.FindFirst | main.py:198-200 | the first index at or after `from` whose cell satisfies the test; none exactly when no cell does |
| ColumnLocator.FindTotal | main.py:198-200 | the first header equal to "total" after lower-casing and stripping; none exactly when no header is |
| ColumnLocator.FindPattern | main.py:213-222 | the first column whose first-row text contains a pattern of the KPI; none exactly when no column does |
| ColumnLocator.LocateColumn | main.py:184-228 | the chosen column is a column of the sheet |
| ColumnLocator.TotalWins | main.py:197-200 | the first "Total" header wins whatever the KPI |
| ColumnLocator.PatternWins | main.py:202-222 | without a "Total" header, the first column whose first data row matches a pattern wins |
| ColumnLocator.FallbackToSecond | main.py:224-228 | with neither, the second column is chosen, or nothing below two columns |
| ColumnLocator.NotFound | main.py:184-228 | no column exactly when there are fewer than two columns and nothing matched |
| ColumnLocator.SharedPatterns | main.py:207-210 | SatEP/SatSNL and ResEP/ResSNL always locate the same column |
| KpiDetector.DetectMetric | main.py:246-260 | the model of the keyword tests on the first row; stated by MetricPriority |
| KpiDetector.FirstRule | main.py:251-260 | the first keyword in priority order occurring in the text |
| KpiDetector.MetricPriority | main.py:247-260 | a family is reported exactly when its keyword occurs and no keyword before it does |
| KpiDetector.LastSegment | main.py:262-271 | the model of the service scan; stated by LastRowWins and computed by ScanSegment |
| KpiDetector.LastRowWins | main.py:263-271 | the segment found is that of the last row naming one, later rows name none, and none is found exactly when no row names one |
| KpiDetector.ScanSegment | main.py:263-271 | the nested scan with its inner `break` computes the last row's segment |
| KpiDetector.Describe | main.py:273-292 | the model of how the label, metric and service fields are built; stated by LabelIdentifies and Detect |
| KpiDetector.LabelHead | main.py:274-286 | the first two characters of every label name its family (a proof device with no counterpart in the service) |
| KpiDetector.LabelIdentifies | main.py:274-286 | equal labels mean equal families, and equal segments for Satisfacción/Resolución/Transferencias |
| KpiDetector.Detect | main.py:231-295 | an unreadable file gives the error sentinel; otherwise the label and fields are built from the detected family and segment, with "Desconocido"/"N/A" when missing |
| SheetExtractor.Collect | main.py:327-348 | the model of the row loop's dictionary; stated by CollectKeys, CollectLastWins and CollectNonNegative |
| SheetExtractor.Extracted | main.py:298-352 | the model of `procesar_archivo_kpi`; stated by ExtractedShape and ExtractedLastWins |
| SheetExtractor.CollectKeys | main.py:329-346 | a name is a key exactly when some row that is not skipped carries it |
| SheetExtractor.CollectLastWins | main.py:329-346 | a name holds the percentage of the last row carrying it |
| SheetExtractor.CollectNonNegative | main.py:339-346 | every stored percentage is non-negative |
| SheetExtractor.ExtractedShape | main.py:311-337 | nothing is extracted from an unreadable or empty file or without a value column; the first data row is never read; keys are the names of the remaining rows that are not skipped |
| SheetExtractor.ExtractedLastWins | main.py:324-346 | the extract maps a name to the percentage of the value cell of the last data row with that name |
| SheetExtractor.ExtractSheet | main.py:298-352 | the early returns and the row loop compute the specified extract |
| SheetExtractor.CollectRows | main.py:327-348 | the row loop builds the specified map |
| StringOrder.LessTotal | main.py:371 | Python string order is total on distinct strings |
| StringOrder.LessTransitive | main.py:371 | Python string order is transitive |
| StringOrder.SortedUnique | main.py:371 | two strictly sorted sequences with the same elements are equal |
| StringOrder.SortNames | main.py:371 | `sorted(set)` is strictly ascending and holds exactly the set's elements |
| Kpis.KeyLiterals | main.py:373-374 | the record keys are "tmo", "transfepa", "tipificaciones", "satep", "resep", "satsnl", "ressnl" |
| Kpis.KeysDistinct | main.py:373-374 | distinct KPIs have distinct record keys |
| Unifier.RecordFields | main.py:372-378 | every record has the seven KPI fields; an omitted KPI or a missing file or name holds nothing; otherwise the extract's value |
| Unifier.NamesFromFiles | main.py:362-368 | the names are exactly those found in the files that are not omitted |
| Unifier.UnifiedUnique | main.py:370-381 | the unified list is determined by the files and the omitted list |
| Unifier.ExtractAll | main.py:360-364 | one extract per uploaded KPI that is not omitted |
| Unifier.CollectNames | main.py:366-368 | the union of the extracts' keys |
| Unifier.BuildRecord | main.py:372-378 | the inner loop builds the specified record |
| Unifier.BuildRecords | main.py:370-379 | one record per name, in the order given |
| Unifier.Unify | main.py:355-381 | the records are sorted strictly by name, cover exactly the names found, and each is the specified record |
| Auth.BearerToken | main.py:122-138 | the model of `extract_bearer_token`; stated by BearerTokenSpec and BearerRoundTrip |
| Auth.IsAdmin | main.py:102-111 | the three admin criteria, including `True == 1`; stated by RequireAdminToken and AdminExamples |
| Auth.AfterFirstSpace | main.py:138 | `split(" ", 1)[1]` is what follows the first space, present exactly when there is a space |
| Auth.BearerTokenSpec | main.py:122-138 | a header is accepted exactly when it starts with "bearer " in any case; the token is what follows; errors are 401, a missing header gives "Header Authorization requerido" |
| Auth.BearerRoundTrip | main.py:122-138 | "Bearer " followed by a token gives the token back |
| Auth.RequireAdminToken | main.py:100-119 | the user passes exactly when validation succeeded and one admin criterion holds; otherwise the validation error or 403 |
| Auth.Authorize | main.py:957-958 | an admin endpoint proceeds exactly when the header holds a token the main API validates for an admin |
| Auth.AdminExamples | main.py:102-111 | each criterion alone admits a user; a plain user or an empty record does not |
| UploadForm.FlaggedInSpec | main.py:961-975 | the flagged KPIs of an ordered list are in order and are exactly those flagged "on" |
| UploadForm.OmittedSpec | main.py:961-975 | a KPI is omitted exactly when its flag is "on"; the list follows the fixed order, without repeats |
| UploadForm.OmittedList | main.py:961-975 | the seven flag tests build the specified list |
| UploadForm.KeptFiles | main.py:977-991 | a file is kept exactly when it was uploaded and its KPI is not omitted, unchanged |
| Webhook.MonthField | main.py:390 | a parsed month is 1 to 12 and is the value of the field's digits |
| Webhook.DayField | main.py:390 | a parsed day is 1 to 31 and is the value of the field's digits, or of the digit after a leading space |
| Webhook.MonthFieldTokens | main.py:390 | the accepted month fields are exactly one digit from 1 to 9, or two digits from 01 to 12 |
| Webhook.MonthFieldRefusals | main.py:390 | "00", "13" and " 1" are refused as months |
| Webhook.DayFieldTokens | main.py:390 | the accepted day fields are exactly one or two digits from 1 to 31, or a space and a digit from 1 to 9 |
| Webhook.ParseDate | main.py:390 | a parsed date is a real calendar date |
| Webhook.ParseDateParts | main.py:390-396 | the date is built from its three fields, and refused past the end of the month |
| Webhook.LeapDayAccepted | main.py:390 | "2024-02-29" parses |
| Webhook.LeapDayRefused | main.py:390 | "2023-02-29" is refused |
| Webhook.ShortFieldsAccepted | main.py:390 | "2025-1-5" parses to 5 January 2025 |
| Webhook.IngresadoPor | main.py:399-407 | with no uploader, or an empty record, the "Sistema" block |
| Webhook.IngresadoPorFallbacks | main.py:399-405 | e-mail from `email`, else `correo`, else "unknown"; name from `nombre_mostrar`, else `nombre`, else "Desconocido"; `rut`; role defaulting to "admin" |
| Webhook.BuildPayload | main.py:390-416 | a payload exists exactly when the date parses; it carries the records, the date, the year, the Spanish month name, the uploader block, and `digitador` equal to that block |
| Webhook.SendToWebhook | main.py:384-429 | success exactly when the date parses and the POST answers 200; a bad date is reported as such |
| PreviewStore.Store.UploadFiles | main.py:953-1003 | refused with the auth error and nothing stored; otherwise the preview path, with only the new session added, holding the date, the omitted list, the admin and the unified records of the kept files |
| PreviewStore.Store.Confirm | main.py:1271-1301 | auth error, or 404 for an unknown session, change nothing; a successful send gives 200 and removes exactly that session; a failed send gives 500 and keeps it |
| PreviewStore.ConfirmRemovesOnlyThatSession | main.py:1281-1292 | confirming one session never touches another |
| AdminUsers.HeaderToken | admin_users.py:65-68 | the bearer token, or 401 "No autenticado" |
| AdminUsers.CurrentUserOf | admin_users.py:63-89 | the model of what `get_current_user_from_token` returns; stated by CurrentUserSpec |
| AdminUsers.CurrentUserSpec | admin_users.py:63-89 | the user is found exactly when the header holds a known, unexpired token of an existing user; the result is that user's row and role name; every failure is 401 |
| AdminUsers.TokenStore.CurrentUserFromToken | admin_users.py:63-89 | returns the specified result; the table loses the token exactly when it has expired |
| AdminUsers.AdminOf | admin_users.py:94-96 | passes exactly a found user whose role name is "admin"; otherwise the same error or 403 |
| AdminUsers.TokenStore.RequireAdmin | admin_users.py:92-97 | the admin check on the current user, with the same eviction |
| AdminUsers.Utf8LengthBounds | admin_users.py:102 | an encoding takes one to four bytes per character, exactly one for ASCII |
| AdminUsers.HashPassword | admin_users.py:100-104 | the hash of the password exactly when it fits in 72 bytes, otherwise 400 |
| AdminUsers.HashPasswordLimit | admin_users.py:100-103 | up to 18 characters always passes, over 72 always fails; for ASCII, passes exactly up to 72 |
| AdminUsers.CreateUserRow | admin_users.py:152-172 | the model of the row `create_user` inserts; stated by CreateUserSpec |
| AdminUsers.CreateUserSpec | admin_users.py:152-171 | a password under 6 characters, then over 72 bytes, is refused with 400; otherwise the row holds its hash, the trimmed rut and name, the display name stripped (nothing when missing or empty), the e-mail lower-cased and stripped (nothing when missing or empty), the role id, and `is_active` defaulting to 1 |
| AdminUsers.SetPositions | admin_users.py:214-242 | the positions set by the body, ascending, and all of them |
| AdminUsers.UpdateOf | admin_users.py:211-250 | the model of the UPDATE `update_user` builds; stated by UpdateErrors, UpdateEndsWithTimestamp, UpdateAligned, UpdateInColumnOrder and UpdateFieldsExact |
| AdminUsers.UpdateErrors | admin_users.py:238-245 | a non-empty password under 6 characters is refused first; "Nada que actualizar" exactly when no field is given |
| AdminUsers.UpdateEndsWithTimestamp | admin_users.py:247-248 | the last clause is `updated_at = NOW()` and the last value the user id, after at least one field |
| AdminUsers.UpdateAligned | admin_users.py:214-242 | each clause but the last sets a field the body gives, with that field's value at the same position |
| AdminUsers.UpdateInColumnOrder | admin_users.py:214-242 | the clauses follow the fixed column order |
| AdminUsers.ClausesInOrder | admin_users.py:214-242 | clauses of ascending positions are in column order |
| AdminUsers.UpdateFieldsExact | admin_users.py:214-242 | a column's clause appears exactly when the body sets it |
| AdminUsers.ClauseLiterals | admin_users.py:215-241 | the seven clause strings |
| AdminUsers.PasswordPosition | admin_users.py:238-242 | the password clause and its hash come after the six profile fields |
| AdminUsers.BuildUpdate | admin_users.py:211-248 | the builder returns the specified update, or the 400 it raises |

## Left out

- Reading the spreadsheets, the temporary files and pandas are not modelled. The reader's output is an input, as are its failure (`Unreadable`) and the `str()` text of a numeric cell.
- Validating a token against the main API is an input (`validate`), including its 401/503 errors. So is the HTTP POST to the webhook (`post`).
- The database is not modelled: the users table is an input, and `create_user`/`update_user` stop at the values they would write. Their SQL errors (duplicate e-mail, row count 0), `list_users`, `disable_user` and the reply rows are left out.
- bcrypt is not modelled: a hash is the symbolic `BcryptOf(password)`.
- The clock is an input (`now` for token expiry). So is the session id that the service derives from the time.
- Concurrency is not modelled: two requests sharing `preview_data` or `TOKENS` are not covered.
- Floating point is not modelled. Numbers are exact decimals, so binary rounding effects of `round` are not captured.
- `float()` accepts only an optional sign, digits and at most one point. Exponents, `inf`, `nan`, underscores and non-ASCII digits are left out.
- Case mapping is ASCII only. So are the digits `strptime` accepts.
- Text.Lower: lower-cases ASCII letters only, so a header with a non-ASCII letter whose lower case changes its length is not covered.
- Sheets whose column labels repeat are left out. Columns are identified by position.
- Within one file, executive names are map keys as `str()` gives them. Two cells with the same text are the same executive, as in the source.
- The generic `except Exception` paths of `upload_files` (500) and `confirm_insertion` (500) cover faults not listed above. They are not modelled beyond what the inputs can raise: a failed POST is `Raised` and gives 500 as modelled.
- `print` diagnostics are left out.
- The HTML preview and the template endpoints are not part of this model.
- AdminUsers.UpdateSql: the SQL text is given only as a function; no property is stated about it.
