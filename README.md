# Settings service of mcphub, modelled in Dafny

This project models the settings service of mcphub (`src/config/index.ts`).
The service keeps one process-wide settings aggregate: the MCP server registry
and the user list. It has two parts.

- **Settings cache and stores** (`settings.dfy`, module `Settings`). The
  `settingsCache` slot sits in front of the settings file. Every successful
  save is mirrored, best effort, into row `id = 1` of the `settings` table.
  A restore path pulls that row back into the cache and the file after the
  container's disk has been reset. `SettingsService` is a class with the
  cache, the file store and the database as fields. Its methods are
  `loadSettings`, `saveSettings`, `saveSettingsToDatabase`,
  `clearSettingsCache`, `getSettingsCacheInfo` and
  `restoreSettingsFromDatabase`. The file and the table are abstract stores.
  The outcome of each read, write or query is a parameter, because the
  program does not control it. A ghost counter `fileReads` records how often
  the file was read.
- **Environment-variable expansion** (`env_expand.dfy`, module `EnvExpand`).
  `expandEnvVars` runs two global regex replacements. The first,
  `\$\{([^}]+)\}`, handles the brace form. The second,
  `\$([A-Z_][A-Z0-9_]*)`, handles the bare form and scans the output of the
  first. Each pass is a recursive function over `seq<char>`. The environment
  is a `map<string, string>`. An unbound name expands to the empty string.
  `replaceEnvVars` is a method whose loop fills the result map entry by
  entry. `js_values.dfy` models the JavaScript values a record can hold and
  the `String(value)` coercion applied to values that are not strings.
  `wrappers.dfy` holds the `Option` type.

The client methods at the end of `settings.dfy` each run a short call
sequence and state its outcome. They cover: two loads in a row, the cached
default, save then load, mirror non-interference, clearing twice, clear then
load, and restore then load.

Two details of the code that the model keeps:

- A brace reference accepts any non-empty run of characters other than `}`,
  including spaces and `$`. It is not limited to identifiers.
- The restore path tests whether `row.data` is truthy. A row whose payload is
  missing or null restores nothing.

## Model

| member | source | states |
|---|---|---|
| Settings.SettingsService.constructor | src/config/index.ts:21 | a new process starts with an empty cache and no file reads yet |
| Settings.SettingsService.StoredRow | src/config/index.ts:140-141 | defines what `findOneBy({ id: 1 })` and the test `row && row.data` yield: the payload of row 1 exactly when that row exists and has one, and nothing otherwise |
| Settings.SettingsService.LoadSettings | src/config/index.ts:27-52 | a cache hit returns the cached value and does not read the file; a miss reads the file once and returns its content if the read succeeds and parses, otherwise the default `{mcpServers: {}, users: []}`; afterwards the cache holds the returned value in every case |
| Settings.SettingsService.SaveSettings | src/config/index.ts:54-70 | returns true exactly when the file write succeeds; on success the cache and the file hold the new value; on failure the cache and the file are unchanged; the mirror outcome changes only the table, never the answer or the cache |
| Settings.SettingsService.SaveSettingsToDatabase | src/config/index.ts:118-130 | row 1 becomes the settings only if the database is initialized and the repository save completes; a failed or abandoned write, or an uninitialized database, leaves the table unchanged |
| Settings.SettingsService.ClearSettingsCache | src/config/index.ts:75-77 | the cache is empty afterwards |
| Settings.SettingsService.GetSettingsCacheInfo | src/config/index.ts:82-86 | `hasCache` is true exactly when the cache is filled |
| Settings.SettingsService.RestoreSettingsFromDatabase | src/config/index.ts:135-157 | if the database is initialized, the query succeeds and row 1 has a payload, the cache becomes that payload whether or not the file write succeeds, and the file takes it only when the write succeeds; otherwise the cache and the file are unchanged |
| Settings.LoadTwice | src/config/index.ts:27-51 | two loads with nothing in between return the same value and read the file at most once, and not at all if the cache was already filled |
| Settings.LoadDefaultWhenMissing | src/config/index.ts:43-50 | with no usable file, both loads return the default and only the first reads the file |
| Settings.SaveThenLoad | src/config/index.ts:57-65 | after a successful save, whatever the mirror did, the next load returns exactly the saved value without reading the file; after a failed save the file is unchanged and a filled cache still answers |
| Settings.MirrorDoesNotInterfere | src/config/index.ts:63 | two services in the same state, saving the same value with different mirror outcomes, end with the same answer, cache and file |
| Settings.ClearIsIdempotent | src/config/index.ts:75-86 | clearing twice leaves the cache reported empty and changes neither the file nor the table |
| Settings.ClearThenLoad | src/config/index.ts:75-77 | after a clear the next load reads the file even if a value was cached, and returns the file's content when the read succeeds |
| Settings.RestoreThenLoad | src/config/index.ts:140-149 | with no file and a stored row, restore then load returns the stored value without reading the file, and a successful write leaves that value in the file |
| EnvExpand.Lookup | src/config/index.ts:105 | defines the replacement value: `process.env[key]`, or `''` when that is falsy; a non-empty result is the bound value; the result is empty exactly when the name is unbound or bound to the empty string |
| EnvExpand.BraceRef | src/config/index.ts:105 | a brace match at the front is `${NAME}`, where NAME is non-empty, contains no `}` and runs to the first `}` |
| EnvExpand.BraceRefIff | src/config/index.ts:105 | the brace pattern matches at the front with NAME exactly when the text starts with `${NAME}` and NAME is non-empty and contains no `}` (both directions) |
| EnvExpand.ExpandBraces | src/config/index.ts:105 | defines the first pass, the global replacement of `\$\{([^}]+)\}`: at each position a brace match is replaced by the name's value and the scan resumes after the match, otherwise one character is copied; its behaviour is stated by the lemmas below |
| EnvExpand.ExpandBracesRef | src/config/index.ts:105 | `${NAME}` at the front is replaced by NAME's value, and the pass resumes right after the match |
| EnvExpand.ExpandBracesPrefix | src/config/index.ts:105 | text without `$` is copied unchanged and the pass continues after it |
| EnvExpand.ExpandBracesUnchanged | src/config/index.ts:105 | the first pass changes nothing in a string that has no `$` or no `}` |
| EnvExpand.BareRefUnbraced | src/config/index.ts:105 | the first pass leaves a bare reference `$Y` as it is |
| EnvExpand.ExpandBracesKeepsBareRef | src/config/index.ts:105 | the first pass leaves `<sep>$Y` as it is when the separator holds no `$`, whatever else it holds |
| EnvExpand.BareRef | src/config/index.ts:107 | a bare match at the front is `$NAME`, where NAME matches `[A-Z_][A-Z0-9_]*` and is not followed by another name character (greedy) |
| EnvExpand.BareRefIff | src/config/index.ts:107 | the bare pattern matches at the front with NAME exactly when the text starts with `$NAME`, NAME is a valid bare name, and no name character follows (both directions) |
| EnvExpand.ExpandBare | src/config/index.ts:107 | defines the second pass, the global replacement of `\$([A-Z_][A-Z0-9_]*)`: at each position a greedy bare match is replaced by the name's value and the scan resumes after it, otherwise one character is copied; its behaviour is stated by the lemmas below |
| EnvExpand.ExpandBareRef | src/config/index.ts:107 | `$NAME` at the front, with no name character after it, is replaced by NAME's value, and the pass resumes after it |
| EnvExpand.ExpandBarePrefix | src/config/index.ts:107 | text without `$` is copied unchanged and the second pass continues after it |
| EnvExpand.ExpandBareUnchanged | src/config/index.ts:107 | the second pass changes nothing in a string without `$` |
| EnvExpand.ExpandBareTrailingRef | src/config/index.ts:107 | a trailing `$NAME` after text without `$` becomes that text followed by NAME's value |
| EnvExpand.ExpandString | src/config/index.ts:104-108 | defines the expansion of a string as the second pass run over the output of the first; a string without `$` is returned unchanged |
| EnvExpand.ExpandEnvVars | src/config/index.ts:100-109 | a string value is expanded by both passes; any other value, caught by the `typeof` guard, is only coerced with `String(value)` and never expanded |
| EnvExpand.ExpandBraceThenBare | src/config/index.ts:104-108 | `${X}<sep>$Y` expands to X's value, then the separator, then Y's value, provided neither X's value nor the separator contains `$` |
| EnvExpand.ExpandBothForms | src/config/index.ts:100-109 | `"${FOO}-$BAR"` with FOO=a and BAR=b expands to `a-b`, for any value a without `$` |
| EnvExpand.ExpandLoneRef | src/config/index.ts:105 | a lone `${NAME}` expands to NAME's value, or to the empty string when NAME is unbound, provided that value contains no `$` |
| EnvExpand.ExpandUnbound | src/config/index.ts:105 | `${MISSING}` with MISSING unbound expands to the empty string |
| EnvExpand.BraceValueRescanned | src/config/index.ts:105-107 | a value inserted by the brace pass is scanned again by the bare pass: if X is bound to `$Y`, then `${X}` yields Y's value |
| EnvExpand.ReplaceEnvVars | src/config/index.ts:88-98 | the result has the same key set as the input; string values are expanded by both passes, and every other value is coerced with `String(value)` |
| EnvExpand.ReplaceEnvVarsExample | src/config/index.ts:88-98 | `{A: "${FOO}", B: 5}` with FOO bound to a becomes `{A: a, B: "5"}`, for any a without `$` |
| EnvExpand.AssignProperty | src/config/index.ts:92-94 | defines `res[key] = value` on a plain object: for the key `__proto__` the object is unchanged; for any other key the key is added or overwritten with the value; every other entry is kept |
| EnvExpand.ReplaceEnvVarsAsWritten | src/config/index.ts:88-98 | as written, the result keeps every input key except `__proto__`, each with its expanded or coerced value |
| EnvExpand.ProtoKeyDropped | src/config/index.ts:89-96 | a record owning the key `__proto__` comes back without it, so the key sets differ |
| JsValues.ToJsString | src/config/index.ts:94 | defines `String(value)`: a string is returned as it is; integers are written in decimal with a leading `-` when negative; booleans, `null`, `undefined` and objects get their fixed names; the form of a non-string value is never empty and holds no `$` |
| JsValues.Decimal | src/config/index.ts:94 | the decimal form of a number is non-empty, all digits, and has no leading zero |
| JsValues.DecimalRoundTrip | src/config/index.ts:94 | reading the decimal form back gives the original number |
| JsValues.ToJsStringNumber | src/config/index.ts:94 | `String(n)` of an integer of magnitude at most 2^53 is a numeral whose value is n |

## Left out

- `defaultConfig`, `dotenv.config()` and `getPackageVersion` (src/config/index.ts:9-18). They read the environment once at import time and call a version utility. There is no logic in them to verify.
- `getSettingsPath` and the path utility behind it. `src/utils/path.ts` is not part of this model, and the stores carry no path.
- JSON text and byte-level I/O. The file holds either a parsed settings value or nothing, and `None` stands for "missing or not valid JSON". Pretty-printing and UTF-8 are not modelled.
- File content that parses to a non-object. If the file holds `null`, `false`, `0` or `""`, the source returns that value and caches it. The truthiness test at line 29 then treats the cache as empty. The model's file holds settings or nothing, so it does not cover this case.
- Aliasing. `loadSettings` returns the cached object itself, so a caller that mutates the result also changes the cache. The model works on values.
- Partial writes. In the model a failed file write leaves the file as it was. A real write that fails part-way may leave a truncated file.
- Scheduling of the mirror write. In the model the mirror write completes, fails or is abandoned inside the save. The model does not cover the interleaving of two pending mirror writes, or "last write to complete wins".
- The `updatedAt` timestamp column, and the TypeORM connection itself. The model keeps an initialized flag and the table's rows by id. A throwing `getAppDataSource` or a failed `findOneBy` is the `queryOk = false` case of the restore.
- Logging with `console.log`, `console.warn` and `console.error`.
- Names inherited by `process.env` from `Object.prototype`. Lookups such as `${toString}` or `${__proto__}` return a function or an object, which is stringified into the output. The model treats every name not in the environment map as unbound.
- ToJsString: JavaScript writes a number of magnitude 10^21 or more in exponent form (`String(1e21)` is `"1e+21"`), and integers above 2^53 are printed as the shortest digits that identify the double, padded with zeros (`String(2**64)` is `"18446744073709552000"`). The model writes every integer in full, so `ToJsStringNumber` is stated only for magnitudes up to 2^53.
- RestoreSettingsFromDatabase: the model runs the restore as one atomic step. In the code it yields at the awaited `findOneBy` (line 140), and a `saveSettings` that runs during that wait is then overwritten in the cache and the file by the older row. The model does not cover that interleaving. The code's own comment says the restore is called after the container restarts.
- `String(value)` for floating-point numbers, `NaN`, arrays, functions and symbols. Numbers are integers in the model, and every object becomes `[object Object]`.
- The fields of a server definition and of a user record. `src/types/index.ts` is not part of this model. `ServerConfig` and `User` are small stand-in records, and no property depends on their fields.
- `src/db/entities/Setting.ts` and `src/db/entities/index.ts` are declarations only. The model keeps one fact from them: the single settings row has id 1 (`SettingsRowId`).

## Findings

| source | as written | input that shows it | evidently intended | confidence | as-written member | corrected member |
|---|---|---|---|---|---|---|
| src/config/index.ts:89-96 | the result is the plain object `{}`, filled by `res[key] = …`; for the key `__proto__` that assignment calls the prototype setter, which ignores a string, so the entry is lost | a record parsed from JSON as `{"__proto__": "x"}` (JSON.parse makes it an own key) gives `{}` | a new record with the same key set as the input | not executed; medium | EnvExpand.ReplaceEnvVarsAsWritten | EnvExpand.ReplaceEnvVars |
