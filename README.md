# Bookkeeping store (lab2_app), modelled and verified in Dafny

The model covers a personal-finance backend with three tables:

- **users**, each with a unique name;
- **categories**, which are either global (no owner) or private to one user;
- **records**, each holding a dated, positive amount that a user spends in a category.

It is split into three layers, the same as the Python application.

- **Request schemas** (`schemas.dfy`, with `text.dfy` and `decimals.dfy`). The pre-load hooks strip whitespace from strings.
  - Names must be 1 to 64 characters long.
  - Ids must be strict integers of at least 1, either required or optional.
  - An ISO-8601 datetime is required.
  - `amount` must be a string that parses as a decimal greater than 0.

  Every schema is a function from a JSON object to either the loaded values or a map from field name to message. The messages are the application's own strings and the validation library's default ones.
- **Table constraints** (`models.dfy`). The constraints the database enforces at commit are collected in `Consistent`:
  - column widths;
  - unique user names;
  - the two uniqueness scopes for category names: per owner, and among global categories;
  - foreign keys;
  - `amount > 0`.

  The three deletes follow the `ON DELETE CASCADE` rules. Lemmas show that every delete keeps the tables consistent. Other lemmas state exactly when an insert can commit.
- **Handlers** (`views.dfy`). `Store` is a class that holds the three tables as maps, plus one id counter per table.
  - A changing handler is a method. It validates the request (400), then resolves ids (404), then checks ownership (403), then commits. `Commit` installs the candidate tables only if they are `Consistent`; otherwise it leaves the tables unchanged (400).
  - An insert draws its id before the commit, as a database sequence does, so a failed insert still uses up an id.
  - Read handlers are functions over the tables. They filter, then order by id, or by datetime then id, both descending when the order is by datetime.
  - `Store.Valid()` says the tables are consistent, the ownership rule holds, and every id is below its counter. Every method keeps `Valid()`. The ownership rule says a record's category is global or owned by the record's user.

`scenarios.dfy` states short client sessions against a fresh store, whose responses are proved from the handlers' contracts. For example: the duplicate-name 400, the record lifecycle with cascade, the 403 for someone else's category, and one name existing in both scopes.

## Model

| member | source | states |
|---|---|---|
| Text.Strip | lab2_app/Schemas.py:5-21 | `str.strip()`: the result is no longer than the input and neither of its ends is whitespace; with StripIsSlice it is exactly the input less its leading and trailing whitespace |
| Text.StripEmptyIff | lab2_app/Schemas.py:7-9 | a string strips to "" exactly when every character is whitespace |
| Text.StripIsSlice | lab2_app/Schemas.py:7 | `strip()` returns a contiguous slice of its input, and only whitespace is cut from either end |
| Text.StripIdempotent | lab2_app/Schemas.py:20 | stripping a second time changes nothing |
| Schemas.StripString | lab2_app/Schemas.py:5-11 | a non-string gives "string expected"; a string that is all whitespace gives "string cannot be empty"; otherwise the result is the non-empty stripped string |
| Schemas.StripName | lab2_app/Schemas.py:40-44 | the `strip_name` hook (also lab2_app/Schemas.py:59-63): a present `name` is replaced by the result of `_strip_string`, and its error becomes the whole-body `_schema` error; a body without `name` passes unchanged |
| Schemas.StripAllStrings | lab2_app/Schemas.py:16-21 | the loop replaces every top-level string by its stripped form; non-strings and the key set are unchanged |
| Schemas.StripAllIdempotent | lab2_app/Schemas.py:14-21 | running `strip_all_strings` twice is the same as running it once |
| Schemas.StripNameOrderIrrelevant | lab2_app/Schemas.py:40-44 | `strip_name` succeeds or fails the same way, with the same result, whether or not `strip_all_strings` runs first |
| Schemas.Normalize | lab2_app/Schemas.py:121-125 | the `normalize` hook: a string `amount` is replaced by its strip; every other key and value is kept |
| Schemas.NormalizeOrderIrrelevant | lab2_app/Schemas.py:121-125 | `normalize` and `strip_all_strings` give the same body in either order |
| Schemas.LoadId | lab2_app/Schemas.py:25-29 | `fields.Integer(strict=True, validate=Range(min=1))` on a present value (also at lab2_app/Schemas.py:53-57, 99-110 and 140-149): accepted exactly when it is an integer >= 1, loaded as that integer; null gives "Field may not be null.", an integer below 1 "Must be greater than or equal to 1.", and every other kind "Not a valid integer." |
| Schemas.LoadName | lab2_app/Schemas.py:34-38 | `fields.String(required=True, validate=Length(min=1, max=64))` (also lab2_app/Schemas.py:48-52): accepted exactly when it is a string of length 1..64, loaded unchanged; missing gives "name is required", a bad length "Length must be between 1 and 64.", null "Field may not be null." and any other kind "Not a valid string." |
| Schemas.LoadDateTime | lab2_app/Schemas.py:111-115 | `fields.DateTime(required=True, format="iso")`: accepted exactly when it is a non-empty string the ISO parser reads, loaded as the parsed moment; missing gives "datetime (ISO 8601) is required", null "Field may not be null.", anything else "Not a valid datetime." |
| Schemas.LoadAmount | lab2_app/Schemas.py:116-136 | `fields.String(required=True)` then `validate_amount`: a string gets exactly the validator's answer, so a loaded amount is positive and is the parsed decimal; missing gives "amount is required", null "Field may not be null.", any other kind "Not a valid string." |
| Schemas.EqualsNaN | lab2_app/Schemas.py:133 | Python's `dec == Decimal("NaN")`: raises exactly for a signalling NaN, and is false otherwise |
| Schemas.AtMostZero | lab2_app/Schemas.py:135 | Python's `dec <= Decimal("0")`: raises exactly for a NaN, and otherwise holds exactly when the value is not positive |
| Schemas.LoadSingleId | lab2_app/Schemas.py:24-30 | a one-id schema accepts exactly `{key: n}` with an integer n >= 1; if the key is missing it reports the field's required message; every other key is "Unknown field." |
| Schemas.UserIdPath | lab2_app/Schemas.py:24-30 | `UserIdPathSchema` accepts exactly `{"user_id": n}` with n >= 1; a missing id gives "user_id is required" |
| Schemas.CategoryDelete | lab2_app/Schemas.py:66-72 | `CategoryDeleteSchema` accepts exactly `{"id": n}` with n >= 1; a missing id gives "category id is required" |
| Schemas.RecordIdPath | lab2_app/Schemas.py:83-89 | `RecordIdPathSchema` accepts exactly `{"record_id": n}` with n >= 1; a missing id gives "record_id is required" |
| Schemas.RecordUserQuery | lab2_app/Schemas.py:90-96 | `RecordUserQuerySchema` accepts exactly `{"user_id": n}` with n >= 1; a missing id gives "user_id is required" |
| Schemas.PathIdLoads | lab2_app/Schemas.py:25-29 | a path id n loads as n when n >= 1, and otherwise gives exactly the range message for that field |
| Schemas.UserCreate | lab2_app/Schemas.py:33-44 | accepts iff the body is `{"name": s}` where s is a string whose stripped length is 1..64, and loads the stripped name; a non-string or blank name gives the `_schema` error; a stripped name longer than 64 gives the length message; a missing name gives "name is required"; other keys are unknown |
| Schemas.CategoryCreate | lab2_app/Schemas.py:47-63 | accepts iff there is a string name whose stripped length is 1..64, the optional `user_id` is an integer >= 1, and there are no other keys; loads the stripped name and the owner, or None; gives the name, `_schema` and `user_id` errors as the schema does |
| Schemas.LoadOptionalIds | lab2_app/Schemas.py:75-80 | a schema of optional strict ids accepts iff every key is one of its fields and every value is an integer >= 1; each bad value gets its own message, and each unknown key gets "Unknown field." |
| Schemas.OptionalIdsErrors | lab2_app/Schemas.py:139-149 | given integer parameters, the only errors are range messages, exactly for the parameters below 1 |
| Schemas.CategoryQuery | lab2_app/Schemas.py:75-80 | `user_id` is optional; when present it must be an integer >= 1, and it is loaded as given |
| Schemas.RecordQuery | lab2_app/Schemas.py:139-149 | `user_id` and `category_id` are optional; each one present must be an integer >= 1, and each is loaded as given |
| Schemas.ValidateAmount | lab2_app/Schemas.py:127-136 | the corrected validator accepts iff the value parses as a positive decimal; unparseable gives "amount must be a number"; NaN gives "amount is invalid (NaN)"; zero or negative gives "amount must be > 0" |
| Schemas.ValidateAmountAsWritten | lab2_app/Schemas.py:127-136 | `validate_amount` as written: an unparseable value gives "amount must be a number"; an sNaN raises at the `==` test; the `== NaN` test is otherwise false; every NaN then raises at `<=`; a value `<= 0` gives "amount must be > 0" |
| Schemas.AsWrittenRaisesOnNaN | lab2_app/Schemas.py:133-135 | as written, a NaN amount reaches `dec <= 0`, which raises, where the corrected validator rejects it |
| Schemas.AsWrittenNeverReportsNaN | lab2_app/Schemas.py:133-134 | as written, the "(NaN)" message is never produced |
| Schemas.CorrectedAgreesOffNaN | lab2_app/Schemas.py:127-136 | on every amount that is not a NaN, the corrected and as-written validators agree |
| Schemas.AmountExamples | lab2_app/Schemas.py:127-136 | "420.75" is accepted as 42075e-2, "0" gives "amount must be > 0", and "abc" gives "amount must be a number" |
| Schemas.RecordInput | lab2_app/Schemas.py:121-125 | after `normalize` and `strip_all_strings`, the body has the same keys and every string is stripped once |
| Schemas.RecordCreate | lab2_app/Schemas.py:98-136 | `RecordCreateSchema.load`: the two hooks, then the four required fields with their messages, the amount checked by the corrected validator, and unknown keys refused; its properties are the RecordCreate lemmas below |
| Schemas.RecordCreateBounds | lab2_app/Schemas.py:98-136 | a loaded record has ids >= 1 and a positive amount |
| Schemas.RecordCreateAccepts | lab2_app/Schemas.py:98-119 | accepts iff the body has exactly the four fields, both ids are integers >= 1, the stripped datetime is non-empty and parses, and the amount is an accepted string; it loads exactly those values |
| Schemas.RecordCreateRequired | lab2_app/Schemas.py:99-119 | each missing field gives its own required message, and the body is refused |
| Schemas.RecordCreateBadAmount | lab2_app/Schemas.py:116-136 | a string amount the validator refuses makes the body fail with the validator's message for that amount |
| Schemas.RecordCreateUnknownKeys | lab2_app/Schemas.py:98-119 | every key other than the four fields is refused with "Unknown field." |
| Decimals.Parse | lab2_app/Schemas.py:130 | `Decimal(str)`: an optional sign, then digits with at most one point and an optional exponent, or "Infinity"/"Inf", or "NaN"/"sNaN" followed by optional payload digits, letters in either case; anything else gives None (InvalidOperation) |
| Decimals.ParseToScientific | lab2_app/Schemas.py:130 | the decimal grammar reads back every finite decimal from its scientific spelling |
| Decimals.ParseAmountExample | lab2_app/Schemas.py:130 | `Decimal("420.75")` is 42075 x 10^-2 |
| Models.Consistent | lab2_app/Models.py:9-74 | the constraints checked at commit: names fit `String(64)`; user names are unique; an owner exists; `(owner_id, name)` is unique; global names are unique; both foreign keys of a record resolve; `amount > 0` |
| Models.OwnershipRule | lab2_app/views.py:209-210 | the rule the record handler enforces (403): a record's category is global or owned by the record's user |
| Models.DeleteUser | lab2_app/Models.py:11-29 | `ON DELETE CASCADE` from users: the user goes, with the categories they own, their records and the records of those categories |
| Models.DeleteCategory | lab2_app/Models.py:32-37 | `ON DELETE CASCADE` from categories: the category goes, with the records that reference it |
| Models.DeleteRecord | lab2_app/views.py:188-189 | `db.session.delete(record)`: exactly that row goes |
| Models.DeleteUserConsistent | lab2_app/Models.py:11-29 | a user delete with its cascades keeps every constraint and the ownership rule, and leaves no category or record of that user |
| Models.DeleteUserRemoves | lab2_app/Models.py:54-59 | a user delete removes exactly the user, the categories they own, and the records of that user or of those categories; every surviving row keeps its values |
| Models.DeleteCategoryConsistent | lab2_app/Models.py:32-37 | a category delete keeps every constraint, leaves users unchanged, and removes exactly that category and the records that reference it; every surviving row keeps its values |
| Models.DeleteRecordConsistent | lab2_app/views.py:188-189 | a record delete keeps every constraint and removes exactly that row; every other row keeps its values |
| Models.AddUserCommits | lab2_app/Models.py:9 | a new user commits iff the name fits in 64 characters and no user holds it |
| Models.AddCategoryCommits | lab2_app/Models.py:39-47 | a new category commits iff the name fits, the owner (if any) exists, and no category in the same scope (same owner, or global) holds the name |
| Models.AddRecordCommits | lab2_app/Models.py:54-74 | a new record commits iff its user and category exist and its amount is positive; a category available to the user keeps the ownership rule |
| Models.TwoScopesExample | lab2_app/Models.py:39-47 | one name can exist once as a global category and once privately for each of two owners |
| Models.DuplicateGlobalExample | lab2_app/Models.py:41-46 | two global categories with the same name break the partial unique index |
| Views.UserScan | lab2_app/views.py:30 | the scan lists the users with ids in the range, each once, in strictly ascending id order |
| Views.CategoryScan | lab2_app/views.py:83-89 | the scan lists exactly the categories of the given owner (or the global ones) with ids in the range, in strictly ascending id order |
| Views.CategoriesOwnedBy | lab2_app/views.py:83-97 | over a table whose ids are below the counter: exactly the categories of that owner, or the global ones, in ascending id order |
| Views.RecordScan | lab2_app/views.py:254-258 | the scan lists exactly the records matching both filters with ids in the range, in strictly ascending id order |
| Views.RecordsMatching | lab2_app/views.py:254-271 | exactly the records matching both filters, each id once, newest first |
| Views.QueryBody | lab2_app/views.py:240-244 | the `raw` dict a query handler builds (also lab2_app/views.py:72-74): it holds `user_id` and `category_id` exactly when they were given, with their integer values, and nothing else |
| Views.CategoryQueryOfParam | lab2_app/views.py:71-79 | the converted `user_id` parameter loads as given when absent or >= 1; otherwise the error is the range message on `user_id` alone |
| Views.RecordQueryOfParams | lab2_app/views.py:240-249 | the converted parameters load as given when each is absent or >= 1; otherwise the error map holds the range message for exactly the parameters below 1 |
| Views.InsertByRank | lab2_app/views.py:260 | inserting into a list ordered newest first keeps it ordered, and adds exactly that element |
| Views.SortNewestFirst | lab2_app/views.py:260 | the result is ordered by datetime descending, then id descending, and is a permutation of the input |
| Views.DistinctAfterSort | lab2_app/views.py:260 | sorting does not repeat an id |
| Views.Store.Valid | lab2_app/Models.py:5-75 | the store invariant every handler keeps: the tables are Consistent, the ownership rule holds, and every id lies in `[1, counter)` of its table's sequence |
| Views.Store.Commit | lab2_app/views.py:43-47 | a commit installs the candidate tables iff every constraint holds; otherwise it rolls back to the old tables |
| Views.Store.ReadPerson | lab2_app/views.py:20-25 | 200 with the id and the name iff the user exists; otherwise 404 "user not found" |
| Views.Store.ReadPeople | lab2_app/views.py:28-31 | 200 with every user exactly once, in ascending id order |
| Views.Store.CreatePerson | lab2_app/views.py:34-49 | a schema error gives 400 and changes nothing; a taken name gives 400, leaves the tables unchanged, and only advances the counter; otherwise there is exactly one new user with a fresh id, and 201 |
| Views.Store.DropPerson | lab2_app/views.py:52-66 | id 0 gives 400; an absent user gives 404; otherwise the cascade delete happens, and 200 returns the name as it was before the delete |
| Views.Store.ReadKinds | lab2_app/views.py:69-97 | an id below 1 gives 400; otherwise 200 with exactly the global categories, or exactly that user's categories, in ascending id order |
| Views.Store.CreateKind | lab2_app/views.py:100-129 | schema error 400, then an absent owner 404, then a name taken in its scope 400 (the tables are unchanged each time); otherwise a new category and 201 with the owner, or null |
| Views.Store.DropKind | lab2_app/views.py:132-147 | schema error 400; an absent category 404 with nothing changed; otherwise that category and its records are removed, and 200 returns its name |
| Views.Store.ReadEntry | lab2_app/views.py:149-166 | id 0 gives 400, an absent record gives 404, and an existing one gives 200 with its five fields |
| Views.Store.DropEntry | lab2_app/views.py:168-191 | id 0 gives 400; an absent record gives 404 with nothing changed; otherwise exactly that record is removed, and 200 returns its snapshot |
| Views.Store.CreateEntry | lab2_app/views.py:194-231 | 400, then 404 for the user, then 404 for the category, then 403, in that order, each leaving the store unchanged; otherwise exactly one new record and 201 |
| Views.Store.QueryEntries | lab2_app/views.py:233-273 | no filter gives 400; a filter below 1 gives 400 with the range message for exactly those filters; otherwise 200 with exactly the records matching both filters, each once, newest first, and `counter` equal to the number of items |
| Scenarios.DuplicateName | lab2_app/views.py:34-49 | "Nazar" and then "  Nazar " answer 201 and then 400 |
| Scenarios.BlankNameRefused | lab2_app/Schemas.py:40-44 | a name of only spaces is refused with the `_schema` error "string cannot be empty" |
| Scenarios.RecordBodyLoads | lab2_app/Schemas.py:98-136 | a well-formed record body with amount "420.75" loads the two ids, the parsed time, and 42075e-2 |
| Scenarios.RecordLifecycle | lab2_app/views.py:52-66 | a record created under a global category reads back, and the listing for its user is exactly that one record with `counter` 1; deleting the user removes it (404 afterwards) |
| Scenarios.ForeignCategory | lab2_app/views.py:209-210 | a record in another user's private category gives 403 and nothing is stored |
| Scenarios.TwoScopes | lab2_app/views.py:100-129 | a global "Food" and a private "Food" are both created |
| Scenarios.ZeroPathId | lab2_app/views.py:52-57 | `DELETE /user/0` gives 400 with the range message |
| Scenarios.UnfilteredQuery | lab2_app/views.py:237-238 | `GET /record` with no filter gives 400 |

## Left out

- Flask routing, `request.get_json() or {}` and the response tuple format are left out. A request body is modelled as a JSON object; non-object bodies are not modelled. The `/` and `/healthcheck` routes (the latter reads the clock) are left out.
- Query strings: `request.args.get(..., type=int)` turns a non-integer into `None`. The read handlers take already converted `Option<int>` parameters.
- Path ids use Flask's `int` converter, so they are natural numbers. The 32-bit width of `db.Integer` is not modelled.
- ISO-8601 parsing is a parameter `parseTime` of the record schema. Timestamps are totally ordered integers, and time zones are not modelled.
- Float storage of `amount`: the store keeps the parsed decimal, and `str(float)` in responses is not modelled.
- Views.Store.CreateEntry: the commit-time 400 at lab2_app/views.py:219-223 is unreachable in the model, because a validated amount is always positive. In the source, an amount that underflows to 0.0 as a float, such as "1e-400", would fail the `amount > 0` check at commit. The model does not cover that case.
- Views.Store.CreateEntry: an amount of "NaN" or "sNaN" gets the corrected validator's answer, 400 with `{"amount": "amount is invalid (NaN)"}`. As written, the source raises InvalidOperation at lab2_app/Schemas.py:133 or :135, outside the handler, so the request fails with a server error (see Findings).
- Decimals.Parse: underscores in digits, non-ASCII digits and the constructor's context limits are not modelled. "Infinity" and "-Infinity" are modelled as the code handles them: "Infinity" is accepted as a positive amount: the decimal grammar admits it, and it is not `<= 0`, so `validate_amount` lets it through.
- Validation library details:
  - errors are one message per field, not marshmallow's list of messages;
  - booleans are refused by strict integer fields (marshmallow 3's number fields refuse `true` and `false`; older versions may not);
  - an unknown key is refused, as marshmallow's default `RAISE` does.
- Concurrency and racing inserts: every request runs alone against the store.
- lab2_app/Data.py (seeding fixture), lab2_app/Config.py and lab2_app/__init__.py are not part of this model. There is no authentication code in the modelled files.
- `RecordUserQuerySchema` is modelled, but no handler in lab2_app/views.py uses it.

## Findings

| source | as written | input that shows it | evidently intended | confidence | as-written member | corrected member |
|---|---|---|---|---|---|---|
| lab2_app/Schemas.py:133 | `dec == Decimal("NaN")` is never true: a quiet NaN compares unequal and a signaling NaN raises. NaN then reaches `dec <= Decimal("0")` at line 135, which raises InvalidOperation outside any handler, so the request fails with a server error | amount "NaN" (also "sNaN") | reject with 400 and "amount is invalid (NaN)", for example by testing `dec.is_nan()` | high; not executed | Schemas.AsWrittenRaisesOnNaN | Schemas.ValidateAmount |
