# scielo_v3_manager: PID reconciliation, modelled in Dafny

scielo_v3_manager gives each SciELO article a v3 identifier. It reconciles that identifier with the article's older v2 and ahead-of-print (aop) PIDs. This project models the core of that reconciliation.

**`DocManager` on the `docs` table** (`scielo_v3_manager/pid_manager.py`):
- the input normaliser;
- the issue-level lookup, with and without v2;
- the recovery chain: aop version, then the `pids` table, then the `pid_versions` table;
- the v3 allocator;
- the record preparation and insert;
- the coordinator `manage_docs`, with its `registered` / `created` / `exception` response.

**`Manager` on the `pids` and `pid_versions` tables** (`Manager.manage`):
- the six-step record lookup and the scan of the legacy table;
- the lookup by v3;
- record formatting;
- v3 allocation and the create-or-update registration.

**The MongoDB helpers:**
- `create_obj`, `complete_data`, the save keyed on `_id` and the `db_connect` URI (`models.py`);
- the lookup cascades, `_update` and `register` (`manage.py`);
- the `register` of `manager.py`.

How it is modelled:
- Tables and collections are sequences of rows in insertion order. A query's result is the sub-sequence of rows that satisfy it.
- Python's `None`, wherever it flows through `x or ''`, is the empty string.
- The v3 generator, `generate_v3` (`v3_gen`), is not part of this model. It is represented as the finite sequence of tokens it will yield, and an exhausted generator raises.
- Code that updates state step by step is modelled as classes and methods:
  - `DocManager` and `Manager` (module PidManager);
  - `Database`, `DocsIds`, `Collection` and `TokenSupply`.
- Each such method is proved equal to a pure specification function (`Normalize`, `ManageDocsSpec`, `ManageSpec`, `UniqueV3`, `OldRecord`, `RecordByV3`, `Completed`, `RegisterSpec`, ...). The lemmas state what the source promises about those functions.
- `manager.py` repeats the lookups of `manage.py` (`manager.py:5-42` is the same text as `manage.py:5-42`). Module MongoManage models them once, and both files use them.

Modules, one per file:
- `wrappers`, `text` and `seqs`: Option/Result, Python string slicing, `upper`, `zfill`, `str(int)`, and filtering.
- `schema`: the tables, their rows, the inserts and updates with their unique constraints, and the `Database` class.
- `generator`: the token supply.
- `normalizer`: `_load_input`.
- `matcher`: the lookups of `DocManager`.
- `registration`: the allocator, prepare/save and `manage_docs`.
- `pids_registrar`: `Manager`'s lookups and `manage`.
- `pid_manager`: the two classes.
- `models`, `manage` and `mongo_manager`: the MongoDB helpers.

## Model

| member | source | states |
|---|---|---|
| Schema.AsDict | scielo_v3_manager/pid_manager.py:134-158 | the dict view of a docs row carries the row's id, v2, v3, v3_origin and aop |
| Schema.NextId | scielo_v3_manager/pid_manager.py:71-97 | the id an autoincrement key (`pids` at line 71, `docs` at line 97) gives a new row is larger than every stored id |
| Schema.InsertDoc | scielo_v3_manager/pid_manager.py:124-126 | a docs insert is rejected exactly when a row with the same (v2, v3) exists; otherwise the new row holds the data under a fresh, larger id |
| Schema.InsertPid | scielo_v3_manager/pid_manager.py:71-85 | a pids insert is rejected exactly when its v2 or v3 is already used; otherwise it gets a fresh, larger id |
| Schema.UpdatePid | scielo_v3_manager/pid_manager.py:691-692 | an update is rejected exactly when it would duplicate another row's v2 or v3; otherwise only the row with that id changes |
| Schema.Database.AddDoc | scielo_v3_manager/pid_manager.py:452-463 | adds the row `InsertDoc` yields, or leaves every table as it was |
| Schema.Database.AddPid | scielo_v3_manager/pid_manager.py:696-706 | adds the row `InsertPid` yields, or leaves every table as it was |
| Schema.Database.SetPid | scielo_v3_manager/pid_manager.py:691-692 | replaces the pids table by `UpdatePid`'s result when that succeeds; docs and pid_versions unchanged |
| Generator.TokenSupply.Next | scielo_v3_manager/pid_manager.py:422 | one call of the generator: the next token and the rest of the supply, or a raise when it is exhausted |
| Normalizer.NormalizeAt | scielo_v3_manager/pid_manager.py:212-237 | each field after the loop is the assigned value, upper-cased exactly for the UPPER_CONTENTS keys |
| Normalizer.NormalizeUpperCasesExactly | scielo_v3_manager/pid_manager.py:193-199 | for every key, the normalised value is the upper-cased assigned value if the key is in UPPER_CONTENTS and the assigned value otherwise |
| Normalizer.NormalizeTruncates | scielo_v3_manager/pid_manager.py:201-234 | v2/aop are cut to 23, filename to 50, status to 15, surnames to 30, title to 50, other_pids to 200 (each a prefix of its input); v3, doi, pub_year, volume, number, suppl, elocation, fpage, lpage are kept whole |
| Normalizer.NormalizeCase | scielo_v3_manager/pid_manager.py:236-237 | the UPPER_CONTENTS fields come out upper-case; v2, aop, filename, other_pids, v3 and pub_year keep their case |
| Normalizer.NormalizeDerived | scielo_v3_manager/pid_manager.py:229-232 | issn is characters 1..9 of the cut v2; v3_origin is 'provided' iff a v3 was given, else '' |
| Normalizer.IssueOrderShape | scielo_v3_manager/pid_manager.py:209-210 | a text of at most 8 characters yields exactly 4; a longer one keeps all but its first four; unsigned texts are left-padded with zeros |
| Normalizer.IssueOrderExamples | scielo_v3_manager/pid_manager.py:209-210 | '1' gives '0001', '1111' gives '1111', '20231' gives '0001', None gives 'None' |
| PidManager.DocManager.constructor | scielo_v3_manager/pid_manager.py:163-183 | the manager's input data is the normalised input |
| PidManager.DocManager.LoadInput | scielo_v3_manager/pid_manager.py:185-237 | the assignments and the upper-casing loop leave exactly `Normalize(raw)` |
| Matcher.IssueParamsMeaning | scielo_v3_manager/pid_manager.py:278-283 | a row matches the issue query iff it agrees with the input on the nine document-and-issue attributes, and on v2 when one is given |
| Matcher.QueryDocs | scielo_v3_manager/pid_manager.py:268-269 | a query returns exactly the stored rows that match every parameter |
| Matcher.LastHighest | scielo_v3_manager/pid_manager.py:290-293 | `sorted(...)[-1]`: None for no rows, else a row with the highest id (the last such row in stored order) |
| Matcher.IssueLookup | scielo_v3_manager/pid_manager.py:271-293 | None iff no docs row matches the issue query; otherwise the matching row with the highest id |
| Matcher.Classify | scielo_v3_manager/pid_manager.py:328-342 | zero rows give nothing, one row gives its fragment, two or more the ambiguity with every row's id |
| Matcher.AopVersionMeaning | scielo_v3_manager/pid_manager.py:295-342 | nothing iff no docs row has the article data with empty issue fields; a hit is the single such row, giving aop, v3 and origin docs_<id> |
| Matcher.FromPidsTableMeaning | scielo_v3_manager/pid_manager.py:344-387 | nothing iff no pids row has the input's filename and (upper-cased) doi; a hit is the single such row |
| Matcher.FromPidVersionsTableMeaning | scielo_v3_manager/pid_manager.py:389-418 | nothing iff no pid_versions row has the input's v2; a hit is the single such row |
| Matcher.RecoverOrder | scielo_v3_manager/pid_manager.py:490-494 | the aop lookup decides alone when it finds something; the pids table decides before pid_versions; nothing is recovered iff all three lookups find nothing |
| Registration.FirstUnregistered | scielo_v3_manager/pid_manager.py:420-439 | the first token that no table holds as v3, with every earlier token registered; None when every token is |
| Registration.PrepareChoosesV3 | scielo_v3_manager/pid_manager.py:441-450 | a recovered v3 wins; otherwise an unregistered input v3 is kept; otherwise the first unregistered token, tagged 'generated'; recovered fields override, all other fields are the input's |
| Registration.IssueKeysAreKept | scielo_v3_manager/pid_manager.py:262-266 | no issue-query attribute is among the fields prepare may replace |
| Registration.RegisterDocEffect | scielo_v3_manager/pid_manager.py:452-468 | the registered row is the prepared copy of the input under a fresh id, appended to docs; "already registered" iff its (v2, v3) exists; a failure leaves the tables unchanged |
| Registration.SameV2HitIsReturned | scielo_v3_manager/pid_manager.py:504-506 | an issue hit with the input's v2 is returned under 'registered' and nothing is written |
| Registration.DifferentV2HitReusesV3 | scielo_v3_manager/pid_manager.py:507-515 | an issue hit with another v2 adds one row with the input's v2 and the hit's v3, v3_origin and (non-empty) aop, or raises "already registered" when that pair exists |
| Registration.IssueHitIgnoresPidTables | scielo_v3_manager/pid_manager.py:485-494 | after an issue hit the pids and pid_versions tables play no part |
| Registration.AmbiguityFallsBackToCreate | scielo_v3_manager/pid_manager.py:495-503 | an ambiguous recovery is recorded under 'exception' and a record is created with nothing recovered |
| Registration.NewDocumentGetsUnusedV3 | scielo_v3_manager/pid_manager.py:516-517 | a newly created document's v3 was held by no table, is the input's when that was free, and is held by no other docs row afterwards |
| Registration.AopVersionIsPromoted | scielo_v3_manager/pid_manager.py:332-336 | a single aop version passes its v3, its id as docs_<id> and its v2 as the new row's aop |
| Registration.ManageDocsWritesAtMostOneRow | scielo_v3_manager/pid_manager.py:470-532 | `manage_docs` leaves pids and pid_versions untouched, appends at most one docs row (the one reported as 'created'), and draws tokens only from the front of the supply |
| Registration.CreatedRow | scielo_v3_manager/pid_manager.py:514-517 | the created row is appended last, has the largest id and keeps the input's issue fields |
| Registration.NewestRowIsIssueMatch | scielo_v3_manager/pid_manager.py:271-293 | a row that agrees with the input on the issue fields and has the largest id is what the issue lookup returns |
| Registration.ReRegistrationIsIdempotent | scielo_v3_manager/pid_manager.py:482-506 | submitting the same input again returns the created row under 'registered' and writes nothing |
| Registration.Join | scielo_v3_manager/pid_manager.py:340 | `" ".join` fails exactly when some item is an int |
| Registration.AmbiguityEscapesAsWritten | scielo_v3_manager/pid_manager.py:338-342 | as written, an ambiguous lookup raises TypeError, which `manage_docs` does not catch; with the ids turned into text the intended error is raised and caught |
| Registration.AmbiguityEscapesManageDocs | scielo_v3_manager/pid_manager.py:479-503 | as written, an exception escapes `manage_docs` exactly when no issue-level row matches and a recovery lookup is ambiguous; it is the TypeError, with no row written and no token drawn; every other input gives what `ManageDocsSpec` gives |
| PidManager.DocManager.GetUniqueV3 | scielo_v3_manager/pid_manager.py:420-424 | the loop returns the first token no table holds, consuming the tokens up to it; it raises when the supply runs out |
| PidManager.DocManager.PrepareRecordToSave | scielo_v3_manager/pid_manager.py:441-450 | the result and the generator state are those of `Prepare` |
| PidManager.DocManager.SaveRecord | scielo_v3_manager/pid_manager.py:452-463 | inserts the row `InsertDoc` yields, or reports "already registered" and changes nothing |
| PidManager.DocManager.RegisterDoc | scielo_v3_manager/pid_manager.py:465-468 | the result and the new state are those of `RegisterDoc` |
| PidManager.DocManager.ManageDocs | scielo_v3_manager/pid_manager.py:470-532 | the response and the new state are those of `ManageDocsSpec` |
| PidManager.Manager.constructor | scielo_v3_manager/pid_manager.py:536-541 | the manager works on the given database |
| PidManager.Manager.ManageDocs | scielo_v3_manager/pid_manager.py:582-600 | a `DocManager` over the same database, with its response |
| PidsRegistrar.FirstMatchAppend | scielo_v3_manager/pid_manager.py:729-768 | a first match over criteria `a + b` is a's first match, else b's |
| PidsRegistrar.FirstMatchMeaning | scielo_v3_manager/pid_manager.py:729-768 | no match iff no criterion holds for any row; a match is the first row of the first criterion that holds for some row |
| PidsRegistrar.GetRecordFollowsCriteria | scielo_v3_manager/pid_manager.py:729-768 | `_get_record` is the first match over its criteria in order: doi+filename, prefix of aop, prefix of v2, doi, aop, v2, with the filename criteria only when a filename is given |
| PidsRegistrar.GetRecordMeaning | scielo_v3_manager/pid_manager.py:729-768 | None iff no row satisfies any active criterion; a found row is stored and satisfies one |
| PidsRegistrar.ScanRowsAppend | scielo_v3_manager/pid_manager.py:770-783 | scanning two lists in turn equals scanning their concatenation |
| PidsRegistrar.ScanRowsMeaning | scielo_v3_manager/pid_manager.py:774-782 | the scan keeps the first row with the largest id above the running maximum, and changes nothing when no id exceeds it |
| PidsRegistrar.OldRecordMeaning | scielo_v3_manager/pid_manager.py:770-783 | the candidates are the pid_versions rows with v2 equal to the given aop or v2; the result is the first one with the largest positive id, None when no id exceeds 0 |
| PidManager.Manager.GetRecordOld | scielo_v3_manager/pid_manager.py:770-783 | the two loops leave exactly `OldRecord` |
| PidsRegistrar.RecordByV3 | scielo_v3_manager/pid_manager.py:709-727 | nothing for an empty v3; a pids row with that v3 that matches filename, doi, aop or v2 wins; else a legacy row with that v3 and the aop or v2; None when neither exists |
| PidManager.Manager.GetRecordByV3 | scielo_v3_manager/pid_manager.py:709-727 | the two loops return exactly `RecordByV3` |
| PidsRegistrar.FormatRecord | scielo_v3_manager/pid_manager.py:562-580 | a legacy record shows v3 and v2 only; a pids record also shows aop, doi, status and filename |
| PidsRegistrar.UniqueV3 | scielo_v3_manager/pid_manager.py:664-673 | a given v3 free of both tables is kept without drawing; otherwise the first free generated token, all earlier ones taken; the generator raising when all are taken |
| PidManager.Manager.GetUniqueV3 | scielo_v3_manager/pid_manager.py:664-673 | the loop yields exactly `UniqueV3` |
| PidsRegistrar.CreatePid | scielo_v3_manager/pid_manager.py:694-707 | creation reports the new record (filename cut to 80) and appends one pids row with that v3 under a fresh id, or rolls back on a v2/v3 clash |
| PidsRegistrar.UpdateFound | scielo_v3_manager/pid_manager.py:679-693 | the update writes the merged data into the found row only, or rolls back on a clash |
| PidsRegistrar.CreateNew | scielo_v3_manager/pid_manager.py:650-654 | a new record gets `UniqueV3`'s v3, or the generator error |
| PidManager.Manager.Register | scielo_v3_manager/pid_manager.py:675-707 | with no row it inserts the new data; with a row it updates that row with the merged data; docs and pid_versions untouched |
| PidsRegistrar.ManageRequiresV2 | scielo_v3_manager/pid_manager.py:621-622 | without v2, `manage` reports the error and changes nothing |
| PidsRegistrar.ManageReports | scielo_v3_manager/pid_manager.py:609-636 | the result echoes the input, warns iff the filename exceeds 80 characters, and reports the formatted record iff one was found |
| PidsRegistrar.ManageTableEffect | scielo_v3_manager/pid_manager.py:637-662 | docs and pid_versions never change; an error leaves every table unchanged; a creation appends one pids row; an update rewrites only the found row |
| PidsRegistrar.ManageAllocatesFreeV3 | scielo_v3_manager/pid_manager.py:637-654 | a new record gets a v3 neither table holds (the given one when free); a legacy-only match is re-registered with the legacy v3 |
| PidsRegistrar.UpdateMergesArguments | scielo_v3_manager/pid_manager.py:681-690 | an update keeps v2 from the call and every other field from the call when given, else from the row |
| PidManager.Manager.Manage | scielo_v3_manager/pid_manager.py:602-662 | the result and the new state are those of `ManageSpec` |
| Models.Prefixes | scielo_v3_manager/models.py:111 | one prefix per non-empty code, each the code without its last five characters |
| Models.CreateObj | scielo_v3_manager/models.py:96-112 | ValueError iff v2 or v3 is missing; otherwise every field from the arguments, status defaulting to 'active', prefixes derived |
| Models.MergedMeaning | scielo_v3_manager/models.py:118-127 | `given or current or default` picks the first non-empty |
| Models.CompletedKeepsWhatExists | scielo_v3_manager/models.py:115-129 | `complete_data` never changes `_id`, never blanks a non-empty field, always leaves a status, and recomputes prefixes from the merged v2 and aop |
| Models.CompletedIdempotent | scielo_v3_manager/models.py:115-129 | completing twice with the same arguments changes nothing further |
| Models.DocsIds.constructor | scielo_v3_manager/models.py:40-56 | a new `DocsIds()` has every field missing |
| Models.DocsIds.Load | scielo_v3_manager/models.py:40-56 | a document loaded from a stored record holds that record |
| Models.CompleteData | scielo_v3_manager/models.py:115-129 | the object's fields become `Completed` of their old values, and the same object is returned |
| Models.UpsertMeaning | scielo_v3_manager/models.py:88-93 | after a save the document is stored, documents with other ids stay, the count grows by one only for a new id (which is appended), and nothing else appears |
| Models.Collection.Save | scielo_v3_manager/models.py:88-93 | the collection becomes the upsert of the object's current value |
| Models.FormatUriRoundTrip | scielo_v3_manager/models.py:30-35 | reading the URI template back gives host, port, database and login, and the password whenever a login is given |
| Models.DbConnectUriRoundTrip | scielo_v3_manager/models.py:29-37 | the `db_connect` URI carries host, port, database and login, and with a login the password, written 'None' when it is missing |
| MongoManage.GetByDoiMeaning | scielo_v3_manager/manage.py:5-10 | None for an empty doi; otherwise only records with that doi, some whenever one exists, and only that filename whenever a record has both |
| MongoManage.GetByV3Meaning | scielo_v3_manager/manage.py:13-19 | None for an empty v3; otherwise only records naming v3 (key, v3 or others), some whenever one does, and only records keyed by v3 whenever one is |
| MongoManage.GetByV2Meaning | scielo_v3_manager/manage.py:22-29 | None for an empty code; otherwise only same-file records carrying the code as prefix, v2, aop or other pid, and some whenever one does |
| MongoManage.GetMeaning | scielo_v3_manager/manage.py:32-42 | the result is a stored record passing the v2/aop/`_id` test, taken from the first lookup that found anything; None iff no candidate of that lookup passes |
| MongoManage.GetCanMissALaterMatch | scielo_v3_manager/manage.py:33-42 | a doi hit that fails the test makes `get` return None although the v2 lookup would find a passing record |
| MongoManage.OverwrittenIsCreateObj | scielo_v3_manager/manage.py:45-58 | `_update` leaves the record `create_obj` would build keyed by v3, keeping nothing of the old one |
| MongoManage.Update | scielo_v3_manager/manage.py:45-58 | ValueError iff v2 or v3 is missing, with the record untouched; otherwise every field overwritten |
| MongoManage.RegisterMeaning | scielo_v3_manager/manage.py:61-71 | the supplied v3 or else the next generated token is written, never the found record's; without either it is a ValueError; saves only on success; the result does not depend on what was found |
| MongoManage.Register | scielo_v3_manager/manage.py:61-71 | the result, collection and generator state are those of `RegisterSpec` |
| MongoManager.BindPositional | scielo_v3_manager/manager.py:56-57 | a positional call succeeds iff the argument count equals the parameter count; missing parameters are named |
| MongoManager.CompleteDataCall | scielo_v3_manager/manager.py:56-57 | `register`'s call to `complete_data` lacks `fields` and shifts every argument one place |
| MongoManager.RegisterAsWritten | scielo_v3_manager/manager.py:45-67 | as written: a token is drawn only when nothing is found and no v3 is given; the result is None and the collection is unchanged |
| MongoManager.ArityMismatchLosesSave | scielo_v3_manager/manager.py:45-67 | a call with v2 and v3 that the corrected `register` saves is lost as written |
| MongoManager.RegisterIntendedMeaning | scielo_v3_manager/manager.py:48-65 | corrected: draws a token exactly when nothing is found and no v3 is given; never saves a record without v2 or v3; saves what it returns and keeps every record under another key; a found record keeps its key and its v3; a new record is keyed by its v3 and is appended when that key is not stored |
| MongoManager.RegisterIntended | scielo_v3_manager/manager.py:45-67 | the result, collection and generator state are those of `RegisterIntendedSpec` |

## Left out

- Query failures are not modelled, and neither is the `IsRegisteredV3Error` raised when all three queries fail.
- The `RegistrationError` and generic-exception paths of `_save_record` are not modelled. The only insert failure modelled is the unique-constraint rejection.
- Timestamps are not modelled: the created and updated columns, their `str()` in `as_dict`, and the save times of `DocsIds`.
- Concurrency is not modelled. A v3 checked as free is inserted in the same step.
- The SQLAlchemy engine, pool and session setup, `session_scope` and logging are not modelled. A session's commit is the table update. A rejected commit is the `Rollback` error.
- Column widths other than those `_load_input` cuts to are not enforced.
- The tenacity retries and the `connect` calls are not modelled. `models.py` contributes only the URI `db_connect` builds.
- `print` in `manager.register` is modelled only as the None result.
- Upper-casing covers ASCII letters only. Python's `str.upper` also maps other letters.
- `issue_order` is not always 4 characters: a text longer than four characters loses its first four characters, not its last, so inputs longer than eight characters give more than four.
- v3 alone is not unique in `docs`: the constraint is on the pair (v2, v3), at scielo_v3_manager/pid_manager.py:124-126. So one v3 may sit on several docs rows, and an insert is rejected as "already registered" only for a repeated pair.
- Normalizer.IssueOrderShape: the padding clauses are stated for unsigned texts only. `zfill` keeps a leading sign in front of the zeros.
- The input filename of `Manager.manage` is a string. A None filename would raise on `len` inside the try.
- `.first()` and `.all()` return rows in stored (insertion) order. A database may return them in another order.
- The generator is a finite token list, so the unbounded allocation loops stop when it runs out. That is modelled as the generator raising.
- MongoManage.Accepts: a missing v3 never matches a stored `_id`. An `_id` of '' stands for a missing key.
- MongoManage.Register: the save replaces the whole document stored under the record's current `_id`. Document-level partial updates are not modelled. What `get` found therefore does not affect what is stored.
- MongoManager.RegisterIntended: the correction also keys a new record by its v3, as `create_obj` and `_update` do, because `complete_data` never sets `_id`. The field-length validation on save is not modelled.
- `db_connect`: only a missing password is written as 'None'. A missing host or database is a string here.
- The `mongoengine` query language is not modelled beyond equality and list membership. Case-insensitive collation is not modelled.

## Findings

| source | as written | input that shows it | evidently intended | confidence | as-written member | corrected member |
|---|---|---|---|---|---|---|
| scielo_v3_manager/pid_manager.py:338-342, 383-387, 414-418 | the ambiguity message is built with `" ".join` over integer row ids, which raises TypeError; `manage_docs` catches only `MoreThanOneRecordFoundError`, so the TypeError escapes | two docs rows with the input's article data and empty issue fields (ids 1 and 2) | raise `MoreThanOneRecordFoundError` with the ids as text, record it under 'exception' and create a record with nothing recovered | not executed | Registration.AmbiguityEscapesManageDocs | Registration.AmbiguityFallsBackToCreate |
| scielo_v3_manager/manager.py:56-57 | `complete_data` is called with 10 positional arguments, but models.py:115-116 declares 11; the call raises TypeError and the except clause returns None, so `register` never saves | any call, e.g. v2 'S0001-00000000000001' and v3 'abc' | pass the `_id` slot (v3 here) so that every argument binds to its own parameter, key a new record by its v3, then check v2/v3 and save | not executed | MongoManager.ArityMismatchLosesSave | MongoManager.RegisterIntendedMeaning |
