# Employee ingestion and column cleaning, modelled in Dafny

This project models how the employee-turnover application cleans the data it receives.

The Node.js server (`server.js`) accepts employee records in bulk. It turns each record into one canonical employee row with `normalizeEmployee` and writes the rows in chunks with multi-row `INSERT`s. It answers with a summary of how many fields had to be filled with defaults. It also validates the status an upload may be moved to, and it rewrites the name an uploaded file is stored under.

The Python prediction service (`modelo_api/predictor_api.py`) normalises column names and finds the employee-id column. It also turns unusable request values into `None` before it builds a data frame.

The modules follow the program's structure:

| file | module | what it holds |
|---|---|---|
| `maybe.dfy` | `Maybe` | the `Option` type |
| `text.dfy` | `Text` | character classes, `toLowerCase`/`lower`, `includes`, `replace` |
| `numbers.dfy` | `Numbers` | exact decimals, digit strings, JavaScript number printing and parsing |
| `js_values.dfy` | `JsValues` | JavaScript values, `trim`, `String()`, `Number()`, truthiness, object properties and spreads |
| `sanitize.dfy` | `Sanitize` | `sanitizeIncomingValue` |
| `seqs.dfy` | `Seqs` | `findIndex`-style search, and picking flagged elements in order |
| `aliases.dfy` | `Aliases` | the candidate-key loops and the id-key scan of `normalizeEmployee` |
| `normalizer.dfy` | `Normalizer` | every field block of `normalizeEmployee` as a specification function; the blocks that loop, and `normalizeEmployee` itself, are methods proved equal to those functions |
| `normalizer_props.dfy`, `field_props.dfy`, `normalizer_examples.dfy` | `NormalizerProps`, `FieldProps`, `NormalizerExamples` | what the normaliser guarantees |
| `bulk.dfy` | `BulkIngest` | `flattenValues`, `colsPlaceholder` and the chunk/summary loop of `POST /api/empleados_raw/bulk` |
| `routes.dfy` | `Routes` | the status allowlist of `POST /uploads/:id/status` and the stored file name |
| `predictor.dfy` | `Predictor` | `ID_ALIASES`, `normalizar_columna`, `detectar_id`, `sanitize_input_value`, `sanitize_row_before_df` |

Some parts of the system are outside the model or nondeterministic: the database, `JSON.parse`, `Math.random`, the clock, `unidecode` and UTF-8 decoding. Each of these is a parameter. The database is a record of outcomes (`BulkIngest.World`, `dbOk`). The random id suffix and the timestamp are strings. `JSON.parse` is a partial function. `unidecode` and `decode` are plain functions.

## Model

| member | source | states |
|---|---|---|
| Sanitize.SanitizeIncomingValue | server.js:132-144 | The result is null exactly for these inputs: undefined, null, a string whose trimmed text is empty or one of nan, none, null, n/a or vacio-nada (in any case), and a non-finite number. Any other string comes back trimmed. Any other value comes back unchanged. |
| Sanitize.SanitizeIdempotent | server.js:132-144 | Sanitising a sanitised value changes nothing. |
| Sanitize.SanitizedTextIsTrimmed | server.js:134-137 | A string result is non-empty, has no white space at either end, and is not a sentinel. |
| Sanitize.DefaultTextIsSentinel | server.js:119-136 | The default text "Vacio-Nada" is itself a sentinel: fed back in, with any padding, it reads as null. |
| JsValues.Assign | server.js:349 | After `o[k] = x`, `k` reads `x` and every other key reads as before. Every property of the result is the new one or was already there. |
| JsValues.AssignNamedKeyGoesLast | server.js:203 | A new key that is not an array index goes after every key already there. |
| JsValues.AssignInserts | server.js:203 | A new key is inserted at one place: after every key it does not go before, and in front of the first key it does go before. The other keys keep their order. |
| JsValues.AssignKeepsOrder | server.js:203 | Assignment keeps the keys in the order an ordinary object lists them: each key once, array indices first and ascending. |
| JsValues.MergeKeepsOrder | server.js:338-342 | An object spread keeps that order too. |
| JsValues.SpreadListsIndexFirst | server.js:342 | `{ ...{ _generated_employee_id: true }, ...["x"] }` lists "0" first, although it is assigned last. |
| JsValues.MergeKeeps | server.js:338 | Spreading in properties that do not mention `k` leaves `k` as it was. |
| JsValues.CollapseWhitespaceNoSpace | server.js:110 | `replace(/\s+/g, '_')` leaves no white space. |
| JsValues.CollapseWhitespaceKeepsClean | server.js:110 | A text without white space is kept as it is. |
| JsValues.CollapseWhitespaceIdempotent | server.js:110 | Rewriting twice equals rewriting once. |
| JsValues.CollapseWhitespaceJoins | server.js:110 | Two words separated by any run of white space are joined by one "_". |
| JsValues.CollapseWhitespaceOverClean | server.js:158 | A prefix without white space passes through unchanged, and only the rest is rewritten. |
| Aliases.FindNormalizedKey | server.js:158 | The result is None exactly when no key normalises to `c`. Otherwise it is the first key, in `Object.keys` order, whose normalised form is `c`. |
| Aliases.AliasHit | server.js:154-161 | The search misses exactly when no candidate matches. Otherwise the first matching candidate decides, through its exact key or its first normalised key. |
| Aliases.LookupCandidates | server.js:154-161 | The candidate loop with its `break`s returns exactly `AliasHit`. |
| Aliases.IdScanKey | server.js:192-198 | The scan stops at the first key whose lower-cased name contains id, codigo, dni, dui, legajo or numero and whose value is not blank. It finds nothing exactly when no key qualifies. |
| Aliases.ScanIdKey | server.js:192-198 | The `for ... of Object.keys(raw)` loop returns exactly `IdScanKey`. |
| Normalizer.EmployeeIdField | server.js:189-205 | The id is defaulted exactly when neither the `||` chain nor the key scan yields a truthy value. It is then "srv_" followed by the random suffix. |
| Normalizer.ChainedTextField | server.js:207-213 | A defaulted nombre or fecha_ingreso holds its default. The full rule is stated by `FieldProps.ChainFirstTruthyDecides`. |
| Normalizer.GeneroField | server.js:215-236 | genero is defaulted exactly when it is "No declarado". |
| Normalizer.TextField | server.js:152-167 | A defaulted `setTextField` field holds "Vacio-Nada". |
| Normalizer.NumField | server.js:169-187 | A defaulted `setNumField` field holds 0. |
| Normalizer.FirstUnsignedNumber | server.js:261 | The regex finds no number exactly when the text has no digit. A number it finds is non-negative. Which number it finds is stated by `FieldProps.FirstNumberIsLeftmostRun` and `FieldProps.FirstNumberWithFraction`. |
| Normalizer.RoundCents | server.js:262 | `Math.round(x * factor * 100)` is the nearest whole number of cents, halves rounded up. |
| Normalizer.SalarioField | server.js:251-270 | A defaulted salario is 0. Otherwise it has two decimals and is non-negative. |
| Normalizer.ParsedField | server.js:278-280 | The field is defaulted exactly when `Number()` of the text, with its first comma made a point, is not finite. A defaulted field is 0 and any other field is that number. |
| Normalizer.ChainedNumberField | server.js:272-281 | A defaulted satisfaccion or edad is 0. A first truthy value that reads as absent defaults it (`FieldProps.ChainFirstTruthyDecides`). |
| Normalizer.IngresosField | server.js:283-292 | A defaulted ingresos_mensuales is 0. |
| Normalizer.HorasField | server.js:294-314 | A defaulted horas_extras is 0. |
| Normalizer.TakeEmployeeId | server.js:189-205 | The employee_id block computes `EmployeeIdField`. |
| Normalizer.TakeGenero | server.js:215-236 | The genero loop and its classification compute `GeneroField`. |
| Normalizer.SetTextField | server.js:152-167 | `setTextField` computes `TextField`. |
| Normalizer.SetNumField | server.js:169-187 | `setNumField` computes `NumField`. |
| Normalizer.TakeHoras | server.js:294-314 | The horas_extras loop computes `HorasField`. |
| Normalizer.ResolveAll | server.js:189-329 | The thirteen blocks give the specified fields, and `autofilled` is their defaulted names in processing order. |
| Normalizer.NormalizeEmployee | server.js:147-353 | `normalizeEmployee` returns exactly `Normalize(raw, ...)`. |
| NormalizerProps.AutofieldsPicked | server.js:189-329 | `autofilled` is the defaulted fields, picked in processing order. |
| NormalizerProps.AutofieldsListed | server.js:189-329 | A field's name is listed exactly when the field was defaulted. No name is listed twice, and only field names are listed. |
| NormalizerProps.AutofieldsAreTheDefaultedFields | server.js:147-353 | The same, for the result of `normalizeEmployee`. `autofilled_count` is the list's length, which is at most 13. |
| NormalizerProps.NothingGivesAllDefaults | server.js:147-353 | A record without properties gets every field's default. Its timestamps are both "now". |
| NormalizerProps.NothingReportsEveryField | server.js:147-353 | Such a record reports all 13 names in order. `otros` carries the list and both `_generated_*` marks. |
| NormalizerProps.OthersInPropertyOrder | server.js:149-349 | The extras object always lists its keys as JavaScript does: each key once, array indices first and ascending, then the other keys in the order they were first assigned. |
| NormalizerProps.OthersMarks | server.js:336-349 | `_fields_autofilled` always holds the list. A `_generated_*` mark survives when `raw.otros` is falsy. |
| FieldProps.FemaleBeforeMale | server.js:233-234 | A text containing "female" also contains "male". It is still classified Femenino. |
| FieldProps.OrChainPicksFirstTruthy | server.js:208 | `a \|\| b \|\| …` is the first truthy operand. |
| FieldProps.OrChainAllFalsy | server.js:273 | When no operand is truthy, the chain is the last operand. |
| FieldProps.ChainFirstTruthyDecides | server.js:207-213 | The first key whose raw value is truthy decides a chained field. If that value then reads as absent, the field is defaulted even when a later key holds a usable value, and so is a chained number field. Otherwise the text field is that value, sanitised. |
| FieldProps.ChainNoTruthyKey | server.js:207-213 | When no key holds a truthy value, a chained text field is defaulted. |
| FieldProps.GeneroAbsent | server.js:215-230 | When no candidate matches, genero is "No declarado" and is reported. |
| FieldProps.GeneroFromExactKey | server.js:219-236 | An exact, non-blank `genero` key is classified by its lower-cased trimmed text. |
| FieldProps.FirstMatchDecidesText | server.js:152-167 | The first matching candidate decides a text field, even when its value is absent and a later candidate holds a usable one. |
| FieldProps.FirstMatchDecidesNumber | server.js:169-187 | The same rule holds for numeric fields. An absent or non-finite value gives 0. |
| FieldProps.NoMatchDefaults | server.js:152-187 | When no candidate matches, both kinds of field are defaulted. |
| FieldProps.IdFromChain | server.js:190 | A usable value from the `||` chain is the id, and the key scan is not consulted. |
| FieldProps.IdFromScan | server.js:190-204 | Otherwise the first id-like key with a non-blank value supplies the id. The id is generated when that value sanitises to something falsy. |
| FieldProps.GeneratedIdIsReported | server.js:200-204 | A generated id is "srv_" plus the suffix and is reported first. It is marked in `otros` unless `raw.otros` overrides the mark. |
| FieldProps.IdReportedFirst | server.js:200-202 | A defaulted id is the first name in `autofilled`. |
| FieldProps.MergeOtrosKeeps | server.js:337-347 | Merging `raw.otros` leaves alone every key it does not carry, except `_otros_raw`. |
| FieldProps.SalarioByPresence | server.js:252-270 | The salary source is the first of salario, ingresos_mensuales and salario_por_hora that is present, whatever its value. So a present salario whose text has no digit gives a defaulted salary of 0, even when ingresos_mensuales holds a usable number. |
| FieldProps.SalarioDefaults | server.js:256-270 | The salary is defaulted exactly when there is no source, the source is blank, or its text has no digit. |
| FieldProps.DigitsSurviveReplaceAndTrim | server.js:259 | Replacing the first comma and trimming neither adds nor removes digits. |
| FieldProps.SalarioScaling | server.js:259-265 | The salary is the text's first number, times 160 when the text has an hourly marker, rounded to cents. |
| FieldProps.FirstNumberIsLeftmostRun | server.js:261 | The regex picks the leftmost run of digits. When no ".digit" follows the run, the number is the run's value. |
| FieldProps.FirstNumberWithFraction | server.js:261 | When a "." and more digits follow the leftmost run, the fraction is read as well. |
| FieldProps.IngresosFallsBackToSalario | server.js:285-287 | Without its own value, ingresos_mensuales takes the salary. It is reported exactly when the result is 0. |
| FieldProps.IngresosOwnValue | server.js:283-292 | An own ingresos value that is not blank decides the field whatever salario holds. It is reported exactly when `Number()` of its text is not finite, and otherwise the field is that number. |
| NormalizerExamples.GeneroExamples | server.js:232-235 | "femenina" is classified Femenino, "m" Masculino and "xyz" Otro. |
| NormalizerExamples.NoDeclaradoFedBack | server.js:228-235 | "No declarado", fed back in, is classified Otro. |
| NormalizerExamples.WithoutFAndMIsOtro | server.js:233-235 | A text with neither 'f' nor 'm' is Otro. |
| NormalizerExamples.HourlyMarkerIsInTheText | server.js:255-265 | The text "9.5" gives 950 cents, because it has no hourly marker, and "9.5/h" gives 152000 cents. |
| NormalizerExamples.HourlyKeyIsNotScaled | server.js:251-265 | The record `{ salario_por_hora: "9.5" }` gets a monthly salary of 9.50, not scaled, because the key alone does not mark an hourly rate. |
| NormalizerExamples.SentinelHidesLaterKey | server.js:207-213 | `{ nombre: "nan", name: "Ana" }` gives the default name, because "nan" is truthy and stops the chain. |
| NormalizerExamples.EmptyTextFallsThrough | server.js:207-213 | `{ nombre: "", name: "Ana" }` gives "Ana", because the empty text is falsy. |
| NormalizerExamples.ZeroUnderFirstKeyIsDefaulted | server.js:320-329 | `{ edad: 0 }` gives a defaulted edad, because 0 is falsy and so the chain yields `raw.age`, which is undefined. |
| BulkIngest.RowValues | server.js:541 | A row has one value per insert column. |
| BulkIngest.RowKeepsEveryField | server.js:535-541 | The row loses no field: two records with equal rows are the same record, given that their `otros` texts differ when their `otros` do. |
| BulkIngest.FlattenUniform | server.js:123-126 | Flattening rows of width `w` gives `rows * w` values. Column `k` of row `i` lands at position `i * w + k`. |
| BulkIngest.Placeholders | server.js:128-130 | `colsPlaceholder` for `n` columns is `2n - 1` characters long, alternating "?" and ",". |
| BulkIngest.PlaceholdersCount | server.js:128-130 | It holds exactly `n` question marks. |
| BulkIngest.ValuesClauseCount | server.js:547 | The VALUES clause for `rows` rows of `cols` columns holds `rows * cols` question marks. |
| BulkIngest.InsertBindsEveryValue | server.js:547-565 | The INSERT has exactly one placeholder per flattened value it binds. |
| BulkIngest.ChunksPartition | server.js:533-534 | The chunks concatenate back to the input. Each has `n` records except possibly a shorter non-empty last one. |
| BulkIngest.ChunkAt | server.js:533-534 | Chunk `c` is the slice starting at `c * n`. |
| BulkIngest.Empleados | server.js:518 | The records are `body.empleados` when it is an array, else the body when it is an array, else none. |
| BulkIngest.DetailsArePicked | server.js:538-539 | The detail pushes pick, in order, the records with defaults. |
| BulkIngest.DetailsListDefaulted | server.js:536-543 | `details` lists, in input order, exactly the records whose count is above 0. |
| BulkIngest.NormalizeRecord | server.js:537 | Each record is normalised with the inputs for its position. |
| BulkIngest.ProcessChunk | server.js:536-543 | The inner loop yields the chunk's rows. It carries the running total and details forward. |
| BulkIngest.InsertChunk | server.js:533-566 | A chunk fails exactly when it is non-empty and its INSERT fails. It counts its records. |
| BulkIngest.InsertAll | server.js:533-567 | The loop succeeds exactly when every chunk's INSERT does. Then `inserted` is the total, `autofilled_total` is the sum of the counts, and `details` is the picked list. |
| BulkIngest.BulkInsert | server.js:517-577 | The handler answers `Outcome`. When no connection is obtained, it answers `{ ok: false, error }` without a rollback. When the transaction cannot begin, an INSERT fails or the commit fails, it rolls back and answers `{ ok: false, error }`. Otherwise it returns the full summary. |
| Routes.UpdateStatus | server.js:494-507 | The request is a 400 "status inválido" exactly when the status is not one of the four strings, and the database is never touched then. Otherwise the reply is the UPDATE's outcome, with truthy notes stored as given and falsy notes stored as null. |
| Routes.StatusIsCaseSensitive | server.js:498 | "Done" and " done" are refused, and "done" is accepted. |
| Routes.StoredName | server.js:110 | The stored name has no white space, and an "_" follows the timestamp. |
| Routes.TimestampRoundTrip | server.js:110 | The timestamp can be read back from the front of the stored name. |
| Predictor.PyStrip | modelo_api/predictor_api.py:55 | `strip()` leaves no Python white space at either end. |
| Predictor.PyStripDropsOnlySpace | modelo_api/predictor_api.py:55 | `strip()` returns a slice of the text, and everything it drops at either end is white space. |
| Predictor.KeepColumnChars | modelo_api/predictor_api.py:57 | Only ASCII alphanumerics and "_" are kept, and every kept character comes from the text. |
| Predictor.KeepColumnCharsAppend | modelo_api/predictor_api.py:57 | The filter works character by character: filtering a concatenation concatenates the filtered parts. |
| Predictor.KeepColumnCharsAt | modelo_api/predictor_api.py:57 | A column character is kept in its place, and any other character is dropped. |
| Predictor.NormalizarColumna | modelo_api/predictor_api.py:53-57 | A normalised name holds only alphanumerics and "_", with no blank and no hyphen. |
| Predictor.NormalizarColumnaKeepsClean | modelo_api/predictor_api.py:53-57 | A name already in lower-case ASCII letters, digits and "_" is returned unchanged, given that `unidecode` leaves ASCII alone. |
| Predictor.AliasesAreClean | modelo_api/predictor_api.py:44-47 | Every entry of `ID_ALIASES` is a clean name. |
| Predictor.DictPut | modelo_api/predictor_api.py:62 | A dict store adds at most one item and adds no other item. |
| Predictor.NormIndex | modelo_api/predictor_api.py:62 | Every item of the comprehension maps a column's normalised name to that column. |
| Predictor.LastIndexWith | modelo_api/predictor_api.py:62 | This is the position of the last column with a given normalised name, or None when no column has it. |
| Predictor.NormIndexGet | modelo_api/predictor_api.py:62-67 | Looking a name up in the comprehension gives the last column that normalises to it. |
| Predictor.FirstKeyPut | modelo_api/predictor_api.py:62-72 | A later column never reorders the keys, so the first accepted key stays first. |
| Predictor.FirstKeyOfIndex | modelo_api/predictor_api.py:62-72 | The first key the heuristic accepts is the name of the first column it accepts. |
| Predictor.DetectWith | modelo_api/predictor_api.py:60-74 | A detected column is one of the data frame's columns. |
| Predictor.DetectarId | modelo_api/predictor_api.py:60-74 | The same, with `normalizar_columna` as the normaliser. |
| Predictor.DetectPrefersAlias | modelo_api/predictor_api.py:44-67 | Take the earliest alias, in list order, that some column normalises to. The answer is the last column with that name. |
| Predictor.DetectFallsBackToHeuristic | modelo_api/predictor_api.py:69-72 | With no alias present, take the first column whose name is "id", ends in "_id", or contains "emple" or "codigo". The answer is the last column with that same normalised name. |
| Predictor.DetectFindsNothing | modelo_api/predictor_api.py:60-74 | Nothing is found exactly when no column is named like an alias and none passes the heuristic. |
| Predictor.DetectarIdCharacterised | modelo_api/predictor_api.py:60-74 | Alias precedence and the None case hold for `detectar_id` itself. |
| Predictor.SanitizeValue | modelo_api/predictor_api.py:82-96 | The result is never bytes. It is None, the value itself, or the decoded text. A string result is not a sentinel, and a float result is finite. A value that is neither text, bytes nor a float comes back unchanged. |
| Predictor.SanitizeText | modelo_api/predictor_api.py:86-90 | A text gives None exactly when its stripped, lower-cased form is "", nan, none, null, inf, -inf or +inf. Otherwise the untrimmed text is returned. |
| Predictor.SanitizeInputValue | modelo_api/predictor_api.py:76-98 | The result is safe for pandas: no bytes, no text standing for a missing value, no NaN or infinite float. A plain value, or the value a numpy scalar's `item()` returns, is cleaned by the value rule, and a numpy scalar whose `item()` raises gives None. |
| Predictor.NumpyItemIsCleaned | modelo_api/predictor_api.py:80-96 | A numpy scalar is cleaned exactly like the Python value its `item()` yields, so a numpy NaN gives None. |
| Predictor.SanitizeStrings | modelo_api/predictor_api.py:83-90 | The string rule holds for plain strings, and bytes behave as their decoded text. |
| Predictor.SanitizeFloats | modelo_api/predictor_api.py:92-95 | A float is dropped exactly when it is NaN or infinite. |
| Predictor.SanitizeIdempotent | modelo_api/predictor_api.py:76-98 | Sanitising a sanitised value changes nothing. |
| Predictor.PaddedNaNIsNull | modelo_api/predictor_api.py:86-89 | " NaN " gives None. |
| Predictor.PaddedZeroIsKept | modelo_api/predictor_api.py:86-90 | " 0 " comes back with its padding. |
| Predictor.SanitizeRowBeforeDf | modelo_api/predictor_api.py:101-106 | The loop builds the row with every value sanitised. |
| Predictor.SanitizedRowKeepsKeys | modelo_api/predictor_api.py:101-106 | The sanitised row has the same keys in the same order, and each value is the sanitised input value, which is safe for pandas. Sanitising the row again changes nothing. |

## Left out

Where the behaviour described for the system differs from the code, the model follows the code:

- An hourly salary is recognised only by a marker in the value's text, never by the key `salario_por_hora`. So "9.5" under that key gives 9.50, not 1520.00 (`NormalizerExamples.HourlyMarkerIsInTheText`).
- Normalising a normalised record again does not always give the same record. "No declarado" fed back is classified Otro (`NormalizerExamples.NoDeclaradoFedBack`), and "Vacio-Nada" reads as absent again (`Sanitize.DefaultTextIsSentinel`).
- The upload route has no file-extension allowlist. Only the name rewrite at server.js:110 exists, and it is modelled.

Parts of the system that are not modelled, and why:

- These parts are framework and network plumbing:
  - Express routing, sessions, login with bcrypt, `requiereLogin` and logout;
  - the contact route with SMTP;
  - the file-download routes and multer's disk writes;
  - the MySQL pool;
  - console logging.
- The database is a record of outcomes. `BulkIngest.World.insertOk` is indexed by chunk number. Obtaining the connection, starting the transaction and the commit are flags. The ON DUPLICATE KEY UPDATE semantics and all-or-nothing rollback belong to the database.
- `JSON.parse` is a parameter. `JSON.stringify` of `otros` is not modelled: `Employee.otros` keeps the property list it would serialise, in the order an ordinary object lists its keys.
- `Math.random` and `new Date()` are parameters: the id suffix and the current timestamp text.
- Numbers are exact decimals. These are not modelled:
  - IEEE-754 rounding of `Math.round(x * 100) / 100` and of `parseFloat`;
  - exponent-form printing;
  - hexadecimal, octal and binary literals in `Number()`;
  - overflow to ±Infinity. In the source, a salary text of more than 308 digits makes `parseFloat` return Infinity, so server.js:269-270 stores salario 0 without reporting it, and `Number("1e400")` is Infinity, so server.js:278-329 defaults satisfaccion, ingresos_mensuales, horas_extras and edad. The model keeps such values exact and finite, so it defaults none of them.
- `toLowerCase` and Python's `lower` cover ASCII and the Latin-1 capitals only. Other Unicode case mappings are not modelled.
- The keys a lookup can reach on a record exist only on objects. The index keys "0", "1", … of a string or array record are not modelled. They never equal a candidate name, and a lower-cased index never contains an id marker.
- `EMP_INSERT_CHUNK` is taken to be a positive integer. A setting that `parseInt` reads as NaN or as a value ≤ 0 is not modelled: with NaN the loop body never runs, and with 0 it never ends.
- The 400 branch for a non-array `empleados` is not modelled because it cannot be reached: the value is always an array. The `DEBUG` stack trace in the 500 reply is not modelled either.
- `/api/predictions/bulk` and every route not named above are not part of this model.
- `preprocesar_df`, the scaler, model inference and the FastAPI endpoint are not modelled: they are pandas and scikit-learn numerics.
- `unidecode` and `bytes.decode("utf-8", errors="ignore")` are parameters. Only the promise that `unidecode` leaves ASCII text alone is used.
- `isalnum()` is taken on ASCII, because `unidecode` returns ASCII. Non-ASCII letters and digits are not modelled.
- `str()` of a column label that is not a string is not modelled: column names are strings.
- Numpy values other than scalars with `item()` are not modelled. A Python float is an exact decimal, NaN or an infinity.
- `sanitize_row_before_df` takes a dict, so its keys are distinct. The row is modelled as that dict's items in order.
- Routes.UpdateStatus: the `UPDATE` succeeds even for an upload id that does not exist. That case is part of `dbOk`, and the id parameter is not modelled.
