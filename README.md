# Memelet, modelled in Dafny

Memelet catalogues a directory of meme images in a SQLite table (`memes`),
asks an AI vision model to describe each image, and shows the results in a
small Flask interface. This project models the logic of four of its files:

- `process_memes.py`. The directory scan inserts a `new` row for every image
  path not stored yet. `process_meme` strips a markdown fence from the AI's
  answer, parses it and writes either a `done` row or an `error` row. The
  batch processes every pending row once and counts successes and failures.
- `version_check.py`. It covers the `settings` key/value table, the branch a
  deployment follows (an environment override, else the stored branch, else
  `main`), and picking the first GitHub release whose tag fits the branch. It
  also covers the `update_available` summary and the git/pip update sequence,
  which writes the new version only after every step succeeds.
- `app.py`. It covers the last entry of the scan log, the listing query with
  its status and search filters, saving and showing one meme, image URLs and
  the background-action dispatch.
- `config.py`. Each setting is looked up in the application config, then the
  environment, then a default, some defaults being derived.

The modules follow the program:

| module | file | models |
|---|---|---|
| `Optional` | `option.dfy` | `None`/missing values |
| `Json` | `json.dfy` | decoded JSON values, `dict.get` |
| `Text` | `text.dfy` | `strip`, `lower`, `split`, `join`, `in`, `str(int)`, `int(str)` |
| `PathLib` | `pathlib.dfy` | `Path.name`, `Path.suffix` |
| `Catalog` | `catalog.dfy` | the `memes` table: rows, the `UNIQUE` path constraint, the table as a class |
| `Config` | `config.dfy` | `config.py`: the three-level lookup and the getters |
| `Pipeline` | `pipeline.dfy` | `process_memes.py` |
| `Versioning` | `versioning.dfy` | `version_check.py` |
| `Web` | `web.dfy` | `app.py` |

State that the source changes in place is modelled as classes:

- `Catalog.MemeTable` holds the rows by id and the next `AUTOINCREMENT` id.
- `Versioning.SettingsStore` holds the settings and whether the database
  can be reached.

The scan, the batch, one meme's update, the GitHub check, the update
sequence and the detail page's save are methods on those classes. Each
method's postcondition states the new state as a specification function of
the old one, and lemmas prove what the source promises about those
functions. Code that only computes a value is modelled as functions.

Outside effects become inputs:

- the directory walk is a list of entries;
- the AI call is a function from image URL to answer;
- `json.loads` is a function from text to a decoded value or an error;
- the GitHub response is a value;
- each `subprocess.run` is a function from command line to outcome;
- `subprocess.Popen` is a function from job to the error it raises, if any;
- the log file is a value saying whether it is missing, unreadable or
  readable, with its text.

## Model

| member | source | states |
|---|---|---|
| `Json.Get` | app.py:199 | `dict.get(key)`: the stored value, or null when the key is absent |
| `Catalog.Bind` | process_memes.py:136-143 | how the driver binds a decoded value: null to NULL, text to text, booleans to 1 and 0, integers within 64 bits to integers; a list, an object or a wider integer has no binding |
| `Catalog.BindError` | process_memes.py:125-143 | a wider integer raises `Python int too large to convert to SQLite INTEGER`; a list or object raises `Error binding parameter` with its position |
| `Catalog.TextAffinity` | init_database.py:21-25 | a `TEXT` column keeps an integer as its decimal text, and NULL and text as they are; it never holds an integer |
| `Catalog.TextAffinityReadsBack` | init_database.py:21-25 | an integer kept as text reads back through `int()` as the same integer |
| `Catalog.NewRow` | process_memes.py:59-62 | an inserted row has the path, status `new`, and NULL in every other column |
| `Catalog.PathsInsert` | process_memes.py:59-62 | inserting under a fresh id adds exactly the new row's path to the stored paths |
| `Catalog.PathsReplace` | process_memes.py:125-135 | replacing a row by one with the same path keeps the stored paths |
| `Catalog.InsertKeepsUnique` | init_database.py:19 | inserting a path that is not stored yet keeps `file_path` unique |
| `Catalog.ReplaceKeepsUnique` | init_database.py:19 | an update that keeps the path keeps `file_path` unique |
| `Catalog.MemeTable.constructor` | init_database.py:16-30 | the freshly created table is empty, valid and hands out id 1 next |
| `PathLib.Name` | app.py:63 | `Path(p).name` contains no slash and is never `.` |
| `PathLib.NameOfChild` | app.py:140 | the name of `dir/n` is `n` for any single component `n` |
| `PathLib.Suffix` | process_memes.py:49 | `suffix` is empty or a proper ending of the name: one dot, then at least one non-dot character |
| `PathLib.SuffixOfStem` | process_memes.py:49 | a non-empty stem followed by an extension has that extension as its suffix |
| `Text.Strip` | app.py:24 | the input is whitespace, then the result, then whitespace, and the result has no whitespace at either end |
| `Text.StripTrimmed` | process_memes.py:120 | stripping a string without surrounding whitespace leaves it unchanged |
| `Text.StripIdempotent` | process_memes.py:111-120 | stripping twice is stripping once |
| `Text.Lower` | process_memes.py:49 | `lower()` keeps the length and lower-cases each ASCII capital |
| `Text.SplitPartsFree` | app.py:175 | no part of `content.split(sep)` contains the separator |
| `Text.JoinSplit` | app.py:175 | joining the parts of a split with the separator gives the content back |
| `Text.Split` | app.py:175 | `str.split(sep)` gives at least one part; see `Text.SplitPartsFree` and `Text.JoinSplit` for what the parts are |
| `Text.JoinLastTwo` | app.py:181 | a join of three or more parts ends with separator, second-last part, separator, last part |
| `Text.NatToString` | version_check.py:163 | `str(n)` is a non-empty run of decimal digits with no leading zero |
| `Text.IntToString` | version_check.py:163 | `str(i)` is non-empty, a `-` before the digits of a negative number; see `Text.ParseIntToString` for the round trip |
| `Text.ParseDecimal` | config.py:69 | a stripped text has a value exactly when it is digits, optionally after one sign; the value is the digits' value, negated after `-` |
| `Text.ParseInt` | config.py:69 | `int(s)` succeeds exactly when `s` holds no information separator and the stripped text is digits, optionally after one sign; the value is `ParseDecimal`'s signed value of the stripped text |
| `Text.InfoSeparatorRefused` | config.py:69 | a text starting with U+001C is refused by `int()`, although `strip()` would remove that character |
| `Text.ParseIntToString` | config.py:69 | `int(str(i)) == i` for every integer |
| `Config.GetConfigValue` | config.py:25-37 | a non-None app-config value wins; otherwise the environment value, even empty; otherwise the default |
| `Config.JoinPath` | config.py:45 | `str(Path(dir) / name)` ends with the name and is `dir + "/" + name` for a directory without a trailing slash |
| `Config.GetOrDefault` | config.py:43-81 | a getter returns the default when neither level sets the key, and the environment value when only it does |
| `Config.GetMemesDir` | config.py:43-45 | `MEMES_DIR`, defaulting to `files` in the installation directory; see `Config.DirectoryDefaults` |
| `Config.GetDbPath` | config.py:47-49 | `DB_PATH`, defaulting to `memelet.db` in the installation directory; see `Config.DirectoryDefaults` |
| `Config.GetLogDir` | config.py:51-53 | `LOG_DIR`, defaulting to `logs` in the installation directory; see `Config.DirectoryDefaults` |
| `Config.GetBaseUrl` | config.py:55-57 | `BASE_URL`, defaulting to `http://localhost:5000`; see `Config.GetOrDefault` and `Config.MemesUrlBaseDefault` |
| `Config.GetMemesUrlBase` | config.py:59-61 | `MEMES_URL_BASE`, defaulting to the base URL plus `/files/`; see `Config.MemesUrlBaseDefault` and `Config.MemesUrlBaseFollowsBaseUrl` |
| `Config.GetHost` | config.py:63-65 | `HOST`, defaulting to `127.0.0.1`; see `Config.GetOrDefault` |
| `Config.GetPort` | config.py:67-69 | `int()` of `PORT`, defaulting to 5000; see `Config.PortDefault` and `Config.PortFromEnvironment` |
| `Config.GetTimezone` | config.py:71-73 | `TZ`, defaulting to `UTC`; see `Config.GetOrDefault` |
| `Config.GetScriptDir` | config.py:75-77 | `SCRIPT_DIR`, defaulting to the installation directory; see `Config.GetOrDefault` |
| `Config.GetVenvDir` | config.py:79-81 | `VENV_DIR`, defaulting to `venv` in the installation directory; see `Config.DirectoryDefaults` |
| `Config.DefaultInside` | config.py:43-53 | an unset path setting is the given name inside the installation directory |
| `Config.DirectoryDefaults` | config.py:43-81 | the files, database, log and venv defaults are `files`, `memelet.db`, `logs` and `venv` in the installation directory |
| `Config.MemesUrlBaseDefault` | config.py:55-61 | with neither URL set, files are served from `http://localhost:5000/files/` |
| `Config.MemesUrlBaseFollowsBaseUrl` | config.py:59-61 | overriding only the base URL moves the file URL base to that URL + `/files/` |
| `Config.PortDefault` | config.py:67-69 | the port defaults to 5000 |
| `Config.PortFromEnvironment` | config.py:67-69 | a decimal `PORT` in the environment is read back as that number |
| `Pipeline.ResolvedWhereMembers` | process_memes.py:47-50 | a path is collected exactly when some accepted entry resolves to it |
| `Pipeline.Candidates` | process_memes.py:46-50 | the regular files of the walk whose lower-cased suffix is an image extension; see `Pipeline.CandidatesMembers` |
| `Pipeline.CandidatesMembers` | process_memes.py:46-50 | a path is a scan candidate exactly when a regular file with a listed lower-cased extension resolves to it |
| `Pipeline.NewPaths` | process_memes.py:53-63 | the candidates the per-file `SELECT` finds unstored, in walk order; see `Pipeline.NewPathsMembers`, `Pipeline.NewPathsDistinct` and `Pipeline.NewPathsCount` |
| `Pipeline.NewPathsMembers` | process_memes.py:53-63 | a path is inserted exactly when it is a candidate that was not stored before |
| `Pipeline.NewPathsDistinct` | process_memes.py:56-63 | no path is inserted twice in one scan |
| `Pipeline.NewPathsCount` | process_memes.py:52-63 | the count of insertions is the number of distinct candidate paths not stored before |
| `Pipeline.ScanAgainAddsNothing` | process_memes.py:53-63 | with the inserted paths stored, the same candidates insert nothing |
| `Pipeline.NewRows` | process_memes.py:59-62 | the inserted rows take consecutive ids from the next free id, one `new` row per path |
| `Pipeline.PathsAfterInsert` | process_memes.py:53-63 | after the insertions the stored paths are the old ones plus the inserted ones |
| `Pipeline.ScanAndAddNewFiles` | process_memes.py:35-70 | a missing directory returns 0 and changes nothing; otherwise exactly the new image paths are inserted as `new` rows, the count is their number, existing rows are untouched and paths stay unique |
| `Pipeline.ScanIdempotent` | process_memes.py:53-63 | a second scan over the same files inserts nothing |
| `Pipeline.ErrorMessage` | process_memes.py:149-173 | an error message starts with its prefix |
| `Pipeline.CleanResponse` | process_memes.py:111-120 | the cleaned answer has no surrounding whitespace and is never longer than the raw one |
| `Pipeline.Unfence` | process_memes.py:114-119 | removing the fences never lengthens the answer; see `Pipeline.UnfenceFenced` and `Pipeline.UnfenceUnfenced` |
| `Pipeline.UnfenceFenced` | process_memes.py:114-119 | the opening ```` ```json ```` and the closing ```` ``` ```` are removed from around any body |
| `Pipeline.UnfenceUnfenced` | process_memes.py:114-119 | text without fence marks at either end is left alone |
| `Pipeline.CleanFenced` | process_memes.py:111-120 | a fenced answer cleans to its stripped body |
| `Pipeline.CleanUnfenced` | process_memes.py:111-120 | an answer without fence marks cleans to its stripped text |
| `Pipeline.FenceTransparent` | process_memes.py:111-120 | fencing a body that has no fence marks of its own does not change what it cleans to |
| `Pipeline.FirstUnbindable` | process_memes.py:136-143 | the first response value the driver refuses, with every earlier value bindable |
| `Pipeline.ResponseValues` | process_memes.py:137-141 | the five `data.get` values, in the order of the UPDATE's parameters |
| `Pipeline.Interpret` | process_memes.py:122-173 | a decoded answer that cannot be written fails with a `Processing error: ` message |
| `Pipeline.OversizedNumberFails` | process_memes.py:125-171 | an answer whose `references` is an integer beyond 64 bits records `Processing error: Python int too large to convert to SQLite INTEGER` |
| `Pipeline.Analyze` | process_memes.py:100-173 | an exception from the AI call is a processing error; an undecodable answer is a `JSON parsing error: ` with the decoder's message; a decoded one is interpreted |
| `Pipeline.InterpretObject` | process_memes.py:125-147 | an answer is written exactly when it is an object whose five values the driver binds, and the bound parameters are those values |
| `Pipeline.StoredAnswer` | process_memes.py:125-143 | after a written answer the row is `done` and each column holds its bound value as the `TEXT` column keeps it |
| `Pipeline.ZeroCaptionStoredAsText` | process_memes.py:136-143 | a caption of the number 0 is stored as the text `0` |
| `Pipeline.MissingKeysWriteNull` | process_memes.py:137-141 | keys the answer leaves out are written as NULL |
| `Pipeline.AnalysisUrl` | process_memes.py:75-76 | the URL sent for analysis starts with the public files location |
| `Pipeline.AnalysisUrlOfChild` | process_memes.py:75-76 | a file in a directory is sent under its own name only |
| `Pipeline.RowAfter` | process_memes.py:125-173 | success writes `done`, the five columns as `TEXT` keeps them, and no error; failure writes `error` and the message and keeps every descriptive column; the path never changes |
| `Pipeline.MemeOutcome` | process_memes.py:75-173 | the outcome of one meme: its analysis URL asked, the answer decoded and interpreted; see `Pipeline.ProcessMeme` and `Pipeline.Processed` |
| `Pipeline.RowAfterIdempotent` | process_memes.py:125-173 | writing the same outcome twice is writing it once |
| `Pipeline.RetryForgetsFailure` | process_memes.py:125-135 | a successful retry overwrites every trace of an earlier failure |
| `Pipeline.ApplyOutcome` | process_memes.py:125-135 | `WHERE id = ?` changes only the row with that id, and nothing when there is none |
| `Pipeline.ApplyOutcomeKeepsPaths` | process_memes.py:125-171 | the update keeps the stored paths and their uniqueness |
| `Pipeline.ProcessMeme` | process_memes.py:93-176 | the row gets the meme's outcome; the result is true exactly when the outcome is a success |
| `Pipeline.PendingIds` | process_memes.py:184-199 | the batch selects, oldest first, exactly the rows with status `new`, or `new` and `error` when retrying errors |
| `Pipeline.Processed` | process_memes.py:211-215 | after the batch each selected row holds its own outcome, and every other row is as it was |
| `Pipeline.CountAnalysed` | process_memes.py:208-215 | the number of successes never exceeds the number of rows processed |
| `Pipeline.ProcessPendingMemes` | process_memes.py:178-220 | every selected row is processed once; the success count is the number of successful outcomes, and successes plus errors equal the number selected |
| `Pipeline.BatchLeavesNothingNew` | process_memes.py:192-196 | after a batch without retries no row is `new` any more |
| `Pipeline.BatchReselectsFailures` | process_memes.py:184-189 | after a batch with retries, exactly the rows whose processing failed are selected again |
| `Versioning.Lookup` | version_check.py:38-48 | `get_setting` is the stored value, or the default when the key is absent or the database fails |
| `Versioning.Store` | version_check.py:51-65 | `set_setting` inserts or replaces the key and keeps every other key; a failing database changes nothing |
| `Versioning.LookupAfterStore` | version_check.py:38-65 | a stored value is read back, and reading any other key is unaffected |
| `Versioning.SettingsStore.constructor` | version_check.py:28-35 | the store opens with the given settings and reachability |
| `Versioning.SettingsStore.Get` | version_check.py:38-48 | reading a setting from the store gives the stored value, or the default when the key is absent or the database fails |
| `Versioning.SettingsStore.Set` | version_check.py:51-65 | the write succeeds exactly when the database is reachable, and then the key reads back as the value |
| `Versioning.CurrentBranch` | version_check.py:68-80 | a non-empty `MEMELET_BRANCH` wins, else the stored branch, else `main` |
| `Versioning.EmptyOverridePinsStoredBranch` | version_check.py:74-88 | an empty `MEMELET_BRANCH` forbids switching yet leaves the stored branch in force |
| `Versioning.CanSwitchBranch` | version_check.py:83-88 | switching is allowed exactly when `MEMELET_BRANCH` is absent; see `Versioning.SetCurrentBranch` and `Versioning.Info` |
| `Versioning.SetCurrentBranch` | version_check.py:91-95 | with the variable present the switch is refused and nothing is written; otherwise the branch is stored |
| `Versioning.SwitchedBranchIsCurrent` | version_check.py:74-95 | after a permitted switch the branch read back is the one stored |
| `Versioning.CurrentVersion` | version_check.py:98-100 | the current version is the stored one, defaulting to `v1.0` |
| `Versioning.AvailableVersion` | version_check.py:108-110 | the available version is the cached one, defaulting to the current version |
| `Versioning.ReleaseNotes` | version_check.py:113-115 | the cached notes, defaulting to empty text; see `Versioning.FreshInstallHasNoUpdate` |
| `Versioning.BranchPrefix` | version_check.py:147 | a non-main branch's prefix is its name, character by character, followed by a dash |
| `Versioning.TagMatches` | version_check.py:144-167 | main takes `v` tags that are neither `dev-` nor `beta-`; another branch takes tags starting with its prefix; see `Versioning.ReleaseNamingConvention` and `Versioning.EmptyTagNeverMatches` |
| `Versioning.EmptyTagNeverMatches` | version_check.py:150-167 | a release without a tag is never chosen |
| `Versioning.ReleaseNamingConvention` | version_check.py:144-167 | `vX` is a main release, `beta-vX` a beta one, `dev-vX` a dev one, and none belongs to another of these branches |
| `Versioning.SelectFrom` | version_check.py:149-180 | the chosen release is the first one in list order whose tag fits the branch; no release is found exactly when every entry is skipped |
| `Versioning.SelectRelease` | version_check.py:130-184 | a failed request crashes; a status other than 200 finds nothing; a 200 answer holding a list is searched in order; only such an answer yields a release |
| `Versioning.CacheRelease` | version_check.py:157-163 | the chosen tag, its notes and the check time are cached; notes the driver refuses leave the old notes, or none; every other setting is kept and no other key is added |
| `Versioning.CheckGithubForUpdates` | version_check.py:118-184 | the result is true exactly when a release is chosen, and only then does the cache change, to that release |
| `Versioning.FirstMatchWins` | version_check.py:149-176 | the first fitting release is chosen, whatever follows it |
| `Versioning.Info` | version_check.py:195-208 | `update_available` holds exactly when the available version differs from the current one |
| `Versioning.FreshInstallHasNoUpdate` | version_check.py:98-115 | with empty settings the version is `v1.0`, there are no notes and no update |
| `Versioning.NoCacheNoUpdate` | version_check.py:108-110 | without a cached available version there is never an update |
| `Versioning.CachedReleaseDecidesUpdate` | version_check.py:187-208 | after caching a release, an update is pending exactly when its tag differs from the running version |
| `Versioning.CheckForUpdates` | version_check.py:187-208 | the cache is refreshed as the GitHub check does it, then summarised |
| `Versioning.PipCommandAsWritten` | version_check.py:284-290 | the install argv as written; see `Versioning.PipCommandAsWrittenRunsScript` and `Versioning.AsWrittenNeverInstalls` |
| `Versioning.PipCommandAsWrittenRunsScript` | version_check.py:284-290 | as written, the install step makes the interpreter run a script named `install`, not pip |
| `Versioning.PipCommandRunsPip` | version_check.py:284-290 | the corrected install step runs `pip install -r requirements.txt --upgrade` |
| `Versioning.StepException` | version_check.py:327-343 | a timeout, a missing git and any other exception are failures; a missing program other than git propagates |
| `Versioning.StepFailure` | version_check.py:233-297 | a step that did not succeed ends the update with a failure or a propagated error |
| `Versioning.UpdatePlan` | version_check.py:223-325 | fetch, checkout, pull and install in order, stopping at the first failure or an up-to-date pull; see `Versioning.InstalledIffAllStepsSucceed`, `Versioning.FailedFetchStopsUpdate` and `Versioning.UpToDateSkipsInstall` |
| `Versioning.InstalledIffAllStepsSucceed` | version_check.py:223-325 | for any install command, the update installs exactly when fetch, checkout, pull and install succeed and the pull brought something new; the new version is the available one |
| `Versioning.FailedFetchStopsUpdate` | version_check.py:225-238 | a failed fetch ends the update, whatever the later commands would do |
| `Versioning.UpToDateSkipsInstall` | version_check.py:272-280 | when the pull reports nothing new, pip is never consulted |
| `Versioning.AsWrittenNeverInstalls` | version_check.py:284-290 | as written, no update installs when the interpreter fails on the missing script `install` |
| `Versioning.RequestUpdate` | version_check.py:211-343 | the steps run in order, with the install command as written, and the current version is written, as the available one, only after a full install |
| `Versioning.InstallSettlesVersion` | version_check.py:301-302 | after a full install no update is pending |
| `Web.ArgOr` | app.py:24-25 | `request.args.get(key, default)` |
| `Web.TailEntry` | app.py:173-184 | with fewer than three parts the whole log; otherwise separator, second-last part, separator, last part |
| `Web.TailEntryIsSuffix` | app.py:179-181 | the entry shown is always the end of the log |
| `Web.TailEntryParts` | app.py:175-181 | the two parts the entry is made of contain no separator |
| `Web.LogView` | app.py:164-191 | a missing log and an unreadable one have their messages; a readable one shows its last entry, which ends the log |
| `Web.RenderMarks` | app.py:31-57 | a statement's text has one `?` per placeholder when no literal run has one |
| `Web.IndexClauses` | app.py:31-57 | the base query, then the status filter, the search filter and the order, each only when asked for; see `Web.IndexArity` and `Web.PlaceholdersMatchParams` |
| `Web.IndexParams` | app.py:37-55 | the status, then the six search patterns, each only when given; see `Web.IndexParamsContents` |
| `Web.ClauseCounts` | app.py:31-57 | the base query, status, search and order clauses carry 0, 1, 6 and 0 placeholders |
| `Web.StatementCounts` | app.py:31-57 | a statement's `?` count is the sum of its clauses' placeholders |
| `Web.IndexParamsContents` | app.py:37-55 | the status comes first when given; six copies of `%query%` follow when searching |
| `Web.IndexArity` | app.py:40-57 | the listing statement has one placeholder for the status and six for the search, each only when present |
| `Web.PlaceholdersMatchParams` | app.py:31-57 | the number of `?` in the statement equals the number of parameters |
| `Web.BuildIndexQuery` | app.py:20-59 | the status clause and parameter exactly when a status is given; the search clause and six patterns exactly when the stripped search is non-empty; newest first |
| `Web.FilterQuery` | app.py:37-57 | the clauses and parameters appended step by step for a given status and stripped search |
| `Web.ImageUrl` | app.py:63-66 | the image URL starts with the files base |
| `Web.ImageUrlOfChild` | app.py:140-143 | the image URL ends with the file's own name only |
| `Web.ImageUrlIsAnalysisUrl` | app.py:63-66 | the pages show the URL the processing script sent for analysis |
| `Web.FormText` | app.py:105-122 | a form field is stripped; an empty result is written as NULL |
| `Web.NormalizeForm` | app.py:104-109 | the status is sent as is, defaulting to `new`; the five text fields are normalised |
| `Web.BlankFieldClears` | app.py:105-122 | a field of only whitespace clears its column |
| `Web.RowEdited` | app.py:111-122 | a save changes the status and the five columns, never the path or the error message |
| `Web.Display` | app.py:146-150 | `value or ''`: NULL, empty text and zero show as empty text, anything else as it is |
| `Web.ViewOf` | app.py:140-153 | the view shows the id, the status, the file name, the image URL and each of the five columns through `value or ''` |
| `Web.SaveForm` | app.py:102-124 | the row with the id takes the saved form, paths stay unique; an unknown id changes nothing |
| `Web.ShowMeme` | app.py:126-157 | an unknown id is 404; a known one shows its view |
| `Web.MemeDetail` | app.py:96-157 | a POST writes the normalised form into the row if it exists; the page then shows the row or 404 |
| `Web.SavedFormShown` | app.py:102-153 | after a save the page shows the status sent and each field as saved, blank ones as empty text |
| `Web.TriggerAction` | app.py:193-221 | a known action starts its job and succeeds, or is a server error when the job cannot be started; any other action is `Invalid action`; a body that is not an object is a server error |
| `Web.RequestedJob` | app.py:199-221 | the job named by the body's `action`, or none; see `Web.TriggerDispatch` |
| `Web.TriggerDispatch` | app.py:199-221 | exactly `scan` and `retry_errors` succeed when their job starts, each with its own job; any other action is refused |

## Left out

- Filesystem access is not modelled: `rglob`, `resolve`, `exists`, reading
  the scan log and loading `.env`. The walk, its resolved paths and the log's
  state are inputs.
- SQLite plumbing is not modelled: connections, commits, the
  `CURRENT_TIMESTAMP` columns `created_at` and `updated_at`, and the
  statistics queries of `index` and `show_stats`. `ORDER BY created_at` in
  the batch is modelled as id order, since rows are inserted in id order.
- The listing statement is not executed. `index` is modelled up to the
  statement and its parameters, and not the rows it returns or the
  dictionaries built from them.
- SQL text is a sequence of literal runs and placeholders. Literals are
  split into short runs, and their concatenation is the source's text.
- External services are not modelled. `replicate.run`, `requests.get`,
  `subprocess.run`, `subprocess.Popen`, `json.loads` and `str(e)` of their
  exceptions are inputs or functions given as parameters.
- Printing, the `argparse` entry point `main`, Flask routing and
  `render_template` are not modelled.
- `send_session_heartbeat` does nothing in the source and is not modelled.
- Exceptions are modelled only where the source catches them. An exception
  that escapes `process_pending_memes`, `index` or `meme_detail` would
  end the request or the script and is not modelled.
- JSON numbers are integers. Floating-point values are not modelled, nor
  how the driver binds or a `TEXT` column keeps them.
- `Pipeline.Interpret`: the driver's error text for a value it cannot bind
  follows the wording of Python's `sqlite3` module. The message's exact
  wording is not checked against the driver. A Dafny string cannot hold a lone
  surrogate, which `json.loads` can produce and `sqlite3` refuses with
  `UnicodeEncodeError`; the model binds every decoded text.
- `Pipeline.MemeOutcome`: the AI call is a function of the image URL, so an
  answer is fixed per URL. The source samples at temperature 1, and each
  call may fail on its own. Two files with the same name in different
  directories are sent under the same URL and get the same answer here.
- `Versioning.CheckGithubForUpdates`: the check time is the integer
  modification time of the installed file. It is taken as the parameter
  `checkedAt`.
- `Config`: the installation directory `Path(__file__).parent.resolve()` is
  the parameter `installDir`, assumed already normalised.
- `Text.Lower`: only ASCII capitals are lower-cased. Python's `str.lower`
  also folds other scripts, which matters only for non-ASCII extensions.
- `Text.ParseInt`: `int()` also accepts `_` between digits and non-ASCII
  decimal digits. These are not modelled. Nor is CPython's limit of 4300
  digits on converting between text and integers.
- `Text.ParseIntToString`: holds for every integer of the model. CPython
  refuses `str(i)` and `int(s)` beyond 4300 digits, far longer than any port.
- `Config.GetConfigValue`: application-config values are modelled as text.
  `current_app.config.get` may return any Python value, which the getters
  pass on unchanged.
- `PathLib.Name`: POSIX paths only.
- `Web.ViewOf`: the view does not carry `created_at` and `updated_at`,
  because timestamps are not modelled.

## Findings

| source | as written | input that shows it | evidently intended | confidence | as-written member | corrected member |
|---|---|---|---|---|---|---|
| version_check.py:284-290 | the install step runs `[sys.executable, 'install', '-r', 'requirements.txt', '--upgrade']` | any update that reaches step 4: the interpreter looks for a script file named `install` and exits with an error, so every real update ends in "Pip install failed" | `[sys.executable, '-m', 'pip', 'install', '-r', 'requirements.txt', '--upgrade']` | not executed | `Versioning.PipCommandAsWrittenRunsScript` | `Versioning.PipCommandRunsPip` |

`Versioning.UpdatePlan` takes the install command as a parameter.
`Versioning.RequestUpdate` runs the command as written, and
`Versioning.AsWrittenNeverInstalls` shows what follows. The corrected
command `Versioning.PipCommand` is the one the update needs.
