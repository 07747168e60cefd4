# awesome-python3-webapp, modelled in Dafny

This project models the core of a small blog written in Python on aiohttp
and aiomysql:

- the object-relational mapper;
- the request-handling framework built on top of aiohttp;
- the pagination record and the API error values;
- the three tables and their key generator;
- the pure parts of the JSON API handlers: input checks, the page-number
  parser and the signed session cookie;
- the configuration tree.

Everything is pure functions over immutable datatypes. The database, the
clock, the random UUID, the hash functions, the secret key and the view
functions are all parameters:

- a read is a function from the statement actually sent and its arguments
  to rows;
- a write is a function from the same pair to an affected-row count;
- the zero-argument defaults (`next_id`, `time.time`) are an oracle indexed
  by a draw counter, so "called once" means the counter goes up by one.

| file | module(s) | models |
|---|---|---|
| `wrappers.dfy` | `Wrappers` | `Option` and `Result` |
| `text.dfy` | `Text` | the Python string built-ins the code relies on: `strip`, `lower`, `split`, `join`, `str(int)`, `int(str)` |
| `orm.dfy` | `Orm`, `OrmFacts` | `www/orm.py`: fields, the metaclass, `getValue`/`getValueOrDefault`, `select`/`execute`, `find`/`findNumber`/`save`/`update`/`remove` |
| `coroweb.dfy` | `Coroweb`, `CorowebFacts` | `www/coroweb.py`: `@get`/`@post`, the signature inspectors, `RequestHandler`, `add_route` |
| `apis.dfy` | `Apis` | `www/apis.py`: `Page` and the `APIError` family; `ValueError`, `NotFoundError` and `PermissionError` are the fixed-code constructors of `APIValueError`, `APIResourceNotFoundError` and `APIPermissionError` that the handlers' checks return |
| `models.dfy` | `Models` | `www/models.py`: `next_id` and the `User`, `Blog` and `Comment` tables |
| `handlers.dfy` | `Handlers` | `www/handlers.py`: `get_page_index`, the two patterns, the validation of three APIs, `user2cookie`/`cookie2user` |
| `config.dfy` | `Config` | `www/config.py`: `Dict`, `merge`, `toDict` and the loading sequence |

## Model

| member | source | states |
|---|---|---|
| Text.StripEmptyIffBlank | www/handlers.py:145 | `not name.strip()` holds exactly when the name is empty or all white space |
| Text.ParseIntToString | www/handlers.py:49 | `int(str(i)) == i` for every integer, so an expiry stamp written by the cookie issuer is read back as the same number |
| Text.JoinSplit | www/handlers.py:45 | joining the pieces of `s.split(c)` with `c` gives `s` back |
| Text.SplitJoin | www/handlers.py:35 | splitting a `c`-join of pieces free of `c` gives back exactly those pieces |
| Orm.ScanAttrs | www/orm.py:148-158 | the namespace loop fails exactly when a second key column is declared, naming that second column; otherwise it returns the columns in declaration order, the non-key names in order and the key if there is one |
| Orm.ArgsString | www/orm.py:122-127 | `create_args_string(n)` holds exactly `n` placeholders separated by `n - 1` commas |
| Orm.Compile | www/orm.py:137-175 | `Model` passes through untouched; any other class compiles exactly when it declares one key column, fails with "Primary key not found." when it declares none and with the duplicate message for the second key otherwise; on success the table is `__table__` or the class name, the key and other columns are those declared, the columns are removed from the class attributes, and the four statements are built, as written, from that table, key and column list |
| Orm.CompileCorrected | www/orm.py:171-172 | the class compiled with the separator appearing only when there are other columns: it succeeds and fails exactly as `Compile` does; a model with no column besides its key selects and inserts the key alone, with one value, and a model with other columns compiles exactly as the source does |
| Orm.CorrectedStatements | www/orm.py:171-172 | the corrected select and insert name the key alone when there is no other column, and otherwise are the statements as written |
| OrmFacts.ScannedNames | www/orm.py:148-158 | every name the scan collects is a declared column of the right kind and can be looked up in the mappings |
| OrmFacts.NonKeyNamesDistinct | www/orm.py:148-158 | in a class namespace, where no name repeats, the non-key names are distinct |
| OrmFacts.CompiledSchemaWellFormed | www/orm.py:137-175 | a compiled schema has distinct non-key names, none equal to the key, and a mapping for the key and for every field; this is what `save` needs |
| OrmFacts.FieldDefaultsOnSave | www/orm.py:89-113 | an unset attribute saves as its column's fixed default, written back unless it is `None`, or as one draw of its generator; so it saves as `None` under any string column with no default, whatever its width or key flag, and under a text column, and as `False`, `0` or `0.0` under a boolean, integer or float column without a default of its own; boolean and text columns are never keys |
| Orm.GetValue | www/orm.py:186-197 | for a name the class does not define, `getValue` is the entry stored under it and `None` when there is none |
| Orm.GetValueOrDefault | www/orm.py:199-209 | a set attribute is returned and nothing changes; an unset one takes the column default, which is written back unless it is `None`, and a callable default is called exactly once; no other attribute changes |
| Orm.ResolveAllFrame | www/orm.py:239-240 | resolving the arguments of `save` leaves every other attribute alone and sends each already-set attribute as it was |
| Orm.ResolveAllDistinct | www/orm.py:239-240 | with distinct keys, each argument sent is the value the instance ends up holding, and the number of generator calls is the number of unset keys with a callable default |
| Orm.ResolveAllMatchesExpected | www/orm.py:239-240 | resolving keys one after another sends the same values as an independent reference that computes each key's value from the original instance and the running draw count |
| Orm.Rewrite | www/orm.py:42 | `sql.replace('?', '%s')` leaves no `?`, and the statement grows by one character per placeholder |
| Orm.RestoreRewrite | www/orm.py:63 | on a statement without `%` the rewrite is lossless: turning each `%s` back into `?` restores it |
| Orm.Select | www/orm.py:31-49 | the statement is sent rewritten with its arguments; the rows are a prefix of the result; with a positive size there are as many rows as the smaller of the size and the result; with no size every row is returned |
| Orm.Save | www/orm.py:237-243 | the insert is sent with one argument per non-key column plus the key, in that order; each argument is the value the instance now holds, a set attribute is sent unchanged, other attributes are untouched, the generators are called once per unset key with a callable default, the arguments equal the reference values, and a warning is logged exactly when the affected count is not 1 |
| Orm.Update | www/orm.py:245-251 | the update sends the current values of the non-key columns and then the key, with no defaults, and warns exactly when the count is not 1 |
| Orm.Remove | www/orm.py:253-258 | the delete sends only the current key value, and warns exactly when the count is not 1 |
| Orm.Find | www/orm.py:227-234 | `find(pk)` is `None` exactly when the key query returns no row, and otherwise the first row |
| Orm.FindNumber | www/orm.py:213-225 | `findNumber` is `None` when there is no row, the `_num_` column of the first row when present, and a `KeyError` when that column is missing |
| OrmFacts.SelectMarks | www/orm.py:171 | the select statement carries no placeholder when no name contains one |
| OrmFacts.FindMarks | www/orm.py:231 | the `find` statement carries exactly one placeholder, matching its one argument |
| OrmFacts.InsertMarks | www/orm.py:172 | the insert statement carries one placeholder per non-key column plus one for the key |
| OrmFacts.UpdateMarks | www/orm.py:173 | the update statement carries one placeholder per assignment plus one for the key condition |
| OrmFacts.DeleteMarks | www/orm.py:174 | the delete statement carries exactly one placeholder |
| OrmFacts.StatementsMatchArguments | www/orm.py:171-174 | for every compiled model whose names contain no `?`, each statement holds exactly as many placeholders as `save`, `update`, `remove` and `find` send arguments |
| OrmFacts.KeyOnlyColumnListsAsWritten | www/orm.py:171-172 | as written, a model whose only column is the key gets the select list "`id`, " and the insert list ", `id`", an insert with two columns for one value |
| Orm.ColumnListsAgreeWithFields | www/orm.py:171-172 | with at least one non-key column, the corrected lists equal the written ones |
| OrmFacts.CorrectedColumnLists | www/orm.py:171-172 | the corrected select and insert lists name exactly the key and the other columns, as many as the insert has placeholders |
| OrmFacts.KeyOnlyCompileAsWritten | www/orm.py:171-172 | a compiled model with no column besides its key gets a select with a separator and no column after it, and an insert naming two columns for its one value; the corrected compile names the key alone in both |
| OrmFacts.CompileAgreesWithCorrected | www/orm.py:171-172 | with at least one non-key column the written and the corrected compile give the same class |
| OrmFacts.UpdateSetsDeclaredColumns | www/orm.py:173 | in a compiled update each `set` clause names the declared column of its attribute, or the attribute itself when the declaration gives no name |
| Coroweb.Decorate | www/coroweb.py:9-32 | `@get(path)` and `@post(path)` set the method and the route and keep the function's name, parameters, signature and printed form |
| Coroweb.RequiredKwArgs | www/coroweb.py:37-43 | the names of the keyword-only parameters without a default, in declaration order: the `i`-th name is that of the `i`-th such parameter |
| Coroweb.NamedKwArgs | www/coroweb.py:46-52 | the names of the keyword-only parameters |
| Coroweb.HasKind | www/coroweb.py:55-66 | true exactly when some parameter has the kind asked for |
| Coroweb.ScanRequest | www/coroweb.py:72-79 | the loop fails exactly when some parameter after `request` is not `*args`, keyword-only or `**kw`; otherwise it reports whether `request` was seen |
| Coroweb.HasRequestArg | www/coroweb.py:69-79 | `has_request_arg` raises exactly for a misplaced `request`, with the message naming the function and its signature; otherwise it answers whether `request` is a parameter |
| Coroweb.Analyze | www/coroweb.py:91-99 | the handler records whether the view takes `request`, `**kw` and keyword-only parameters, and which names are keyword-only and which are required; it fails exactly when `has_request_arg` raises |
| Coroweb.AddRoute | www/coroweb.py:180-190 | a view lacking the method or the route is refused with the "@get or @post not defined" message; otherwise registration fails exactly for a misplaced `request` and else appends one route with that method, path and view |
| Coroweb.FirstValues | www/coroweb.py:133-137 | a query argument takes the first of its values |
| Coroweb.Collect | www/coroweb.py:104-137 | a view that takes no keyword arguments reads nothing; a POST without a content type, with JSON that is not an object, or with an unsupported type is a bad request; a JSON object or a form becomes the arguments; a GET reads its query only when there is one |
| Coroweb.KeepDeclared | www/coroweb.py:142-147 | a view without `**kw` but with keyword-only parameters keeps only the declared names, with their values; otherwise nothing is dropped |
| Coroweb.Arguments | www/coroweb.py:138-157 | a name is an argument exactly when it is kept from the body or query, is a path parameter, or is `request` for a view that takes it; the request wins over a path parameter, which wins over a kept field |
| Coroweb.FirstMissing | www/coroweb.py:158-162 | the first required name absent from the arguments, or none when all are present |
| Coroweb.Bind | www/coroweb.py:103-162 | a content refusal becomes a bad request and a decoding failure an exception; otherwise the arguments are the kept body or query fields, each overwritten by a path parameter of the same name, plus the request when asked for; the call goes ahead exactly when no required name is missing, and otherwise the refusal names the first required name missing, in declaration order; the duplicates logged are the path parameters also kept from the body or query |
| Coroweb.Dispatch | www/coroweb.py:103-171 | the reply is a bad request exactly when binding refuses, carrying binding's text, and a binding exception propagates with its reason; otherwise the view's value is returned, an `APIError` becomes a body with its error, data and message, and any other exception propagates |
| CorowebFacts.RequiredTestRedundant | www/coroweb.py:107 | every required name is also a keyword-only name, so the third test of the condition never changes its answer |
| CorowebFacts.PlainViewGetsPathOnly | www/coroweb.py:138-139 | a view that takes no keyword arguments is never refused and gets exactly the path parameters, plus the request when it takes it |
| CorowebFacts.NothingExtractedGetsPathOnly | www/coroweb.py:107-162 | when nothing is read from the body or query (no keyword parameters, a verb other than GET or POST, or a GET without a query string), the arguments are exactly the path parameters and the request, no duplicate is logged, and the only refusal is the first required name those leave out |
| CorowebFacts.QueryValueReachesView | www/coroweb.py:130-147 | a query field the view accepts reaches it as its first value, unless a path parameter or the request takes the name |
| CorowebFacts.BoundArgumentsHaveASource | www/coroweb.py:138-156 | every argument a view receives is the request, a path parameter, or a body or query value it declared or accepts through `**kw` |
| CorowebFacts.UndeclaredFieldsDropped | www/coroweb.py:142-147 | a view without `**kw` never receives a body or query field it did not declare |
| CorowebFacts.MissingRequiredRejected | www/coroweb.py:158-162 | a required name that no source supplies makes the handler answer with a bad request naming the first required name missing from the arguments |
| CorowebFacts.PathSuppliesRequired | www/coroweb.py:149-162 | when the path supplies every required name, only the content checks can refuse |
| CorowebFacts.GetViewRegisters | www/coroweb.py:180-190 | registering a `@get` view succeeds exactly when its `request` parameter is well placed, and records it under GET on its path |
| Apis.FloorDiv | www/apis.py:19 | Python's `//`: the quotient rounded towards negative infinity |
| Apis.FloorMod | www/apis.py:19 | Python's `%`: the remainder that completes the floor quotient, with the sign of the divisor |
| Apis.MakePage | www/apis.py:15-34 | a zero page size raises; otherwise an empty list or a page past the end gives the first page with an empty window, any other page starts at `page_size * (page_index - 1)` with `page_size` items, and the neighbour flags compare the index with the page count |
| Apis.PageCountIsCeiling | www/apis.py:19 | the page count is the least number of pages of that size holding every item, and zero only when there are no items |
| Apis.PageCountIndependentOfIndex | www/apis.py:19 | the page count does not depend on the page asked for |
| Apis.InRangePage | www/apis.py:25-34 | a page within range is the record built from its index, its offset and the page size |
| Apis.EveryItemOnItsPage | www/apis.py:15-34 | item `i` lies in the window of page `i // page_size + 1`, which is within the page count |
| Apis.InRangePageStartsWithinItems | www/apis.py:25-32 | a page within range starts inside the item list, and has a next page exactly when its window ends before the last item |
| Apis.OutOfRangePageIsEmpty | www/apis.py:21-34 | a page past the end, or any page of an empty list, is the empty first page; it has no previous page, and has a next page only when more than one page of items exists |
| Models.NextIdLayout | www/models.py:6-7 | a key generated at a clock reading in range has fifty characters: fifteen digits that read back as the milliseconds, the 32 UUID hex digits, then `000` |
| Models.NextIdDashFree | www/models.py:6-7 | a key contains a dash exactly when the clock reading is before 1970 |
| Models.NextIdOrdered | www/models.py:6-7 | keys generated at earlier clock readings sort first, whatever the UUIDs |
| Models.TableSchema | www/orm.py:137-175 | a table class with an `id` key followed by non-key columns compiles under its `__table__` name, keyed by `id`, with the other columns in declaration order |
| Models.UserSchema | www/models.py:13-22 | `User` compiles to table `users`, key `id` and the six other columns in declaration order |
| Models.BlogSchema | www/models.py:24-34 | `Blog` compiles to table `blogs`, key `id` and the seven other columns in declaration order |
| Models.CommentSchema | www/models.py:37-46 | `Comment` compiles to table `comments`, key `id` and the six other columns in declaration order |
| Models.UserSchemaReady | www/models.py:13-22 | the compiled `User` schema is well formed; its `admin` and `created_at` columns default to `False` and the clock; `save` resolves its columns in the order email, passwd, admin, name, image, created_at, id |
| Models.SaveNewUser | www/orm.py:237-243 | saving a user with the five given attributes sends them in column order, with `False` for `admin` and one clock reading for `created_at`, and draws only once |
| Models.RegisteredUserSave | www/handlers.py:155-159 | the user registration builds is inserted with its given key, the given values, `False` for `admin` and one clock reading, and the key generator is not called again |
| Handlers.PageIndex | www/handlers.py:201-209 | the page asked for when it parses as an integer of at least 1, otherwise page 1 |
| Handlers.PageIndexRoundTrip | www/handlers.py:201-209 | every page number of at least 1 survives printing and parsing, and parsing a printed page index is idempotent |
| Handlers.EmailAccepts | www/handlers.py:138 | every address made of a local part, `@` and two to five dot-separated labels is accepted |
| Handlers.EmailDecomposes | www/handlers.py:138 | conversely, every accepted address is of that form, possibly followed by one line feed |
| Handlers.EmailIsLowerCase | www/handlers.py:138 | an accepted address holds no upper-case letter |
| Handlers.Sha1Accepts | www/handlers.py:139 | forty lower-case hex digits are accepted with or without a trailing line feed; anything accepted is forty characters, or forty-one ending in a line feed |
| Handlers.CheckRegistration | www/handlers.py:145-151 | registration input passes exactly when the name is not blank, the address matches and the password is a hex digest; otherwise the first failing field is reported |
| Handlers.CheckBlog | www/handlers.py:188-193 | a new blog passes exactly when its name, summary and content are not blank; otherwise the first blank one is reported with its message |
| Handlers.CheckCredentials | www/handlers.py:104-107 | sign-in input passes exactly when both fields are non-empty; otherwise the first empty one is reported, `email` with "Invalid email." and else `passwd` with "Invalid password." |
| Handlers.UserToCookie | www/handlers.py:27-35 | the cookie splits on `-` into the key, the expiry and the digest of the signed string, when none of them contains a dash |
| Handlers.CookieToUser | www/handlers.py:38-62 | a cookie is accepted only when it has three parts, its expiry has not passed, the user exists and the digest matches the signed string; the user comes back with the password masked |
| Handlers.CookieRoundTrip | www/handlers.py:27-62 | a cookie issued for a user is accepted until it expires, for as long as the stored password and the secret stay the same |
| Handlers.RegisteredCookieRoundTrip | www/handlers.py:155-162 | in particular the cookie issued at registration, whose key comes from `next_id`, is accepted back until it expires |
| Handlers.SignedDeterminesExpiry | www/handlers.py:33 | signed strings for the same user and secret are equal only when their expiry stamps are |
| Handlers.ForgedExpiryRefused | www/handlers.py:49-57 | a cookie whose expiry stamp was altered is refused when the digest tells signed strings apart |
| Config.MakeDict | www/config.py:10-16 | a `Dict` holds exactly the keyword entries and the zipped names |
| Config.MakeDictLastWins | www/config.py:15-16 | a zipped name takes the value of its last pair |
| Config.MakeDictKeyword | www/config.py:12 | a keyword entry survives when no zipped pair names its key |
| Config.GetAttr | www/config.py:19-23 | on a `Dict`, reading a name that `dict` does not define as a method gives the entry, or `AttributeError` exactly when the key is absent |
| Config.SetAttr | www/config.py:26-27 | attribute writing on a `Dict`, under any name, stores the value under that key, leaves every other entry as it was and keeps it a `Dict` |
| Config.AttributesAreEntries | www/config.py:19-27 | on a `Dict`, for names that are not `dict` methods, reading an attribute gives what was last written to it, and writing one key leaves the others alone |
| Config.Overlay | www/config.py:37-45 | the merged dictionary has exactly the keys of the defaults |
| Config.Merge | www/config.py:30-45 | `merge` fails, with `TypeError`, only where a non-empty dictionary default meets a leaf override that is not a string, or a string override in which one of its keys occurs; otherwise it builds a plain dictionary with exactly the keys of the defaults |
| Config.MergeEntries | www/config.py:37-44 | a key the override lacks keeps its default, a leaf default takes the override's value, and a dictionary default is merged recursively |
| Config.MergeEmpty | www/config.py:30-45 | merging an empty override gives the defaults back |
| Config.MergeSelf | www/config.py:30-45 | merging the defaults with themselves gives them back |
| Config.LeafOverrideFails | www/config.py:37-42 | a dictionary default meeting a non-string leaf fails exactly when it is non-empty; meeting a string it fails exactly when one of its keys occurs in the string, and otherwise comes back unchanged |
| Config.EmptyKeyMeetsEveryString | www/config.py:38-40 | a default holding the empty key always fails against a string override, since the empty string occurs in every string |
| Config.ToDict | www/config.py:48-53 | `toDict` keeps leaves and makes a `Dict` with the same keys from every dictionary |
| Config.ToDictFacts | www/config.py:48-53 | `toDict` keeps the content, makes every level a `Dict` and leaves a tree that already is one unchanged |
| Config.ToDictIdempotent | www/config.py:48-53 | converting twice is converting once |
| Config.Load | www/config.py:56-66 | the loaded configuration is `Dict`s throughout with the keys of the defaults; with no override it equals the defaults, and with one it loads exactly when `merge` succeeds and then equals what `merge` built |

## Left out

- The connection pool (`create_pool`, `www/orm.py:12-27`), cursors, transactions and logging. The database is a parameter. `execute` always runs in autocommit mode, because no caller passes `autocommit=False`. `Select` and `Execute` model the statement sent and the result returned; they do not model the driver's own `%s` substitution.
- `findAll`: `www/orm.py` defines no `findAll`, so the calls at `www/handlers.py:108` and `www/handlers.py:152` raise `AttributeError`. Sign-in and registration are modelled only up to those calls.
- Coroutines and `asyncio`. Every operation is modelled as a function that returns once.
- `add_static` and `add_routes` (module import and attribute scanning). `add_route` is modelled; the `asyncio.coroutine` wrapping at `www/coroweb.py:186-187` does not change what is registered.
- `parse_qs`, form parsing and JSON decoding. They are inputs: the request carries the decoded query, form and JSON outcome.
- The duplicate-argument warning at `www/coroweb.py:150-151` is recorded as the set of duplicated names, not as a log line.
- Floating point. Clock readings are `real`. `int(time.time() * 1000)` and `int(time.time() + max_age)` are modelled as truncation of an exact real, with no rounding.
- The hash functions (`hashlib.sha1`, `hashlib.md5`), `uuid.uuid4`, `time.time` and the session secret are parameters. The UUID is a hex string passed in, and the clock is a reading passed in or the generator oracle.
- `str.strip`, `str.lower`, `str.isspace` and `int()` cover only the ASCII part of Python's Unicode tables.
- Python dictionaries keep insertion order; the model's maps do not. Order matters only in class namespaces, which are modelled as sequences.
- Config.Merge: a list or tuple override, which answers `in` by membership, is not modelled; leaves are either strings or values that do not answer `in`. The failure is reported as `TypeError` without the interpreter's message text, which depends on the leaf's type and on which key Python meets first.
- Config.LeafOverrideFails: stated for string and non-string leaves only; a list override is not modelled.
- Config.GetAttr: names that `dict` defines itself (`items`, `get`, `keys` and the other methods, and the dunder attributes) resolve to the class attribute before `__getattr__` runs; the model excludes the public methods and does not model the dunder names. On a plain `dict`, which has no `__getattr__`, attribute access is not modelled.
- Config.AttributesAreEntries: writing `d.items = v` stores an entry, but reading `d.items` still gives the method; the lemma is stated for names that are not `dict` methods.
- Orm.GetValue: `getattr(self, key, None)` finds the methods of `dict` and `Model` (`items`, `save`, `update`, ...) and the class attributes the metaclass sets (`__table__`, `__fields__`, ...) before `__getattr__` runs; the model reads only entries. No column of the three tables has such a name.
- The contents of `config_default` and `config_override` (`www/config.py:56-66`) are parameters of `Config.Load`. An absent override module is `None`.
- The raising call at `www/handlers.py:154` passes three arguments to `APIValueError`, which takes two, so it raises `TypeError`. The duplicate-address branch it guards is not modelled.
- `check_admin` (`www/handlers.py:169-172`). It refers to `APIPermissionError`, which `www/handlers.py` never imports, so when the request has no user or a user who is not an administrator it raises `NameError` instead of a permission error. For an administrator it returns and the blank checks run; `Handlers.CheckBlog` models those checks.
- Template views (`index`, `register`, `signin`, `signout`, the manage pages) and the `json.dumps` of responses.
- The saves of `api_create_blog` and of comments are not modelled separately. `Orm.Save` covers them generically.
- Handlers.UserToCookie: the split property is stated for parts without a dash. A key or digest containing `-` produces a cookie that `cookie2user` refuses, and this is not stated.
- Coroweb.Collect: a malformed JSON body is modelled as an exception whose text is not specified.
- Coroweb.Collect: the content type is taken as given, with the empty string for a missing header. aiohttp reports `application/octet-stream` when the header is absent, so there such a request meets the "Unsupported Content-Type: " refusal rather than "Missing Content-Type" (`www/coroweb.py:111-112`).
- Coroweb.Collect: a form is a map from field name to one value. `dict(**params)` at `www/coroweb.py:125` raises `TypeError` when a form repeats a field name; that case is not modelled.
- Coroweb.Bind: the four refusals at `www/coroweb.py:112`, `119`, `128` and `162` pass their text to `web.HTTPBadRequest` positionally. aiohttp's exception constructors take keyword arguments only, so such a call raises `TypeError` rather than building a reply; aiohttp is not part of this model. The model follows the evident intent: a 400 reply carrying that text (`Reject`, and `BadRequest` in `Coroweb.Dispatch`).

## Findings

| source | as written | input that shows it | evidently intended | confidence | as-written member | corrected member |
|---|---|---|---|---|---|---|
| www/orm.py:171-172 | the select and insert column lists put a fixed `, ` between the key and the joined other columns | a model whose only column is its primary key `id`: select becomes "select \`id\`,  from ..." and insert "insert into ... (, \`id\`) values (?)" | the separator appears only when there are other columns | not executed | OrmFacts.KeyOnlyCompileAsWritten | Orm.CompileCorrected |

`Orm.SelectColumnsAsWritten` and `Orm.InsertColumnsAsWritten` build the
lists the way the source writes them, and `Orm.Compile` uses them, so the
model compiles classes as the source does (`OrmFacts.KeyOnlyColumnListsAsWritten`
and `OrmFacts.KeyOnlyCompileAsWritten` exhibit the key-only case).
`Orm.SelectColumns` and `Orm.InsertColumns` build the corrected lists,
`OrmFacts.CorrectedColumnLists` proves that they name exactly as many
columns as the insert has placeholders, and `Orm.CompileCorrected` builds
its statements from them. The two compiles agree whenever a model has at
least one non-key column (`Orm.ColumnListsAgreeWithFields`,
`OrmFacts.CompileAgreesWithCorrected`), which holds for all three tables
of the blog, so the rest of the model is the same under either.
