# basic-ecommerce-api: the record mapper, the user model and the error helpers

This Dafny project models the data layer and error helpers of a small Express/PostgreSQL shop API:

- **`BaseModel`** is a record mapper bound to one table. It holds one record (`modelData`). It builds parameterised SQL from the keys of a record:
  - `findById` sends `WHERE t.id = $1`;
  - `findOne` sends `WHERE c1 = $1 AND … AND cn = $n … LIMIT 1`;
  - `insertOne` sends `INSERT INTO t (c1, …, cn) VALUES ($1, …, $n) RETURNING *`.

  Each of them returns the first row, or `null` when the database reports no rows. `setModelData` merges data into the held record with object spread. `validateData` throws what a schema reports.
- **`UserModel`**:
  - the field rules of `userSchema`;
  - a `BaseModel` bound to `users`;
  - `findByEmail`.
- **`validationError`** tags an error as `VALIDATION`/400 and replaces its double quotes. Outside dev mode it returns a cleaned copy with summarised `details`.
- **`customError`** does the same kind of cleaning for any other error, with a default status of 500.
- **`removeCreatedAtAndId`** copies an object without its `created_at` and `id` properties, at every depth.

JavaScript values are a datatype (`JsValues.Value`); objects are ordered entry lists, so key order is part of the model.

Calls into code outside the core are parameters:
- The database connection is a function `Database` from query text and parameters to `{rowCount, rows}`, so the query an operation sends is part of its contract.
- The dev-mode switch (`process.env.NODE_ENV === 'dev'`) is a `bool`.
- The schema library's `validate` is a function.
- The library's own email and date checks are functions.

Two behaviours of the code differ from how it reads, and the model follows the code:
- A string rule refuses the empty string. So `google_id` accepts 1 to 255 characters, not "at most 255".
- `insertOne` with a truthy non-object replaces `modelData` before it throws.

Files:
- `js_values.dfy`: values, property read and write, spread, `join`/`split`, `String(n)`.
- `mapper.dfy`: `BaseModel` and the SQL it sends.
- `users.dfy`: `UserModel` and `userSchema`.
- `errors.dfy`: `validationError` and `customError`.
- `remove_created_at_and_id.dfy`: `removeCreatedAtAndId`.

## Model

| member | source | states |
|---|---|---|
| Mapper.BaseModel.constructor | src/models/BaseModel.js:4-7 | the table name is the one given and the held record is `{}` |
| Mapper.BaseModel.FindById | src/models/BaseModel.js:9-19 | sends the `WHERE t.id = $1` text with `[id]`; returns `null` when `rowCount < 1`, else the first row |
| Mapper.FirstRowOfRows | src/models/BaseModel.js:17-18 | for a database answer whose rowCount is its number of object rows, the result is `null` exactly when nothing matched, else the first row |
| Mapper.FindOneQuery | src/models/BaseModel.js:21-36 | `findOne` fails exactly when the query object has no own keys (TypeError for `null`/`undefined`); otherwise it sends one parameter per key |
| Mapper.BaseModel.FindOne | src/models/BaseModel.js:21-41 | throws the refusal or sends the query of `FindOneQuery` and returns its first row |
| Mapper.EmptyQueryThrows | src/models/BaseModel.js:22-24 | a query object without keys throws `Query object is empty.` (a TypeError for nullish values), and the outcome does not depend on the database, so no query is issued |
| Mapper.FindOneBindsInOrder | src/models/BaseModel.js:26-34 | for keys without spaces, the WHERE clause read back binds column i to `$i+1`, and parameter i is the query object's value for that column; the text is the `SELECT … LIMIT 1` template |
| Mapper.ConditionsDecode | src/models/BaseModel.js:29 | the ` AND `-joined conditions read back as the columns in order, each bound to its own consecutive parameter number |
| Mapper.PlaceholderInjective | src/models/BaseModel.js:29 | distinct parameter numbers give distinct `$n` placeholders |
| Mapper.Placeholder | src/models/BaseModel.js:29 | `$n` is a placeholder word (`$` then digits) with no space or comma, and it reads back as n (also line 55) |
| Mapper.Condition | src/models/BaseModel.js:29 | the condition `column = $k` of a column without spaces splits into exactly the column, `=` and `$k` |
| Mapper.Conditions | src/models/BaseModel.js:29 | one condition per column; condition i splits into column i, `=` and the placeholder of parameter `first + i` |
| Mapper.WhereClause | src/models/BaseModel.js:29 | for one or more columns without spaces, the clause reads back as column i bound to parameter i+1, for every column and no other |
| Mapper.WhereClauseDecodes | src/models/BaseModel.js:29 | the ` AND `-joined conditions of columns without spaces read back as their bindings numbered from 1 |
| Mapper.Placeholders | src/models/BaseModel.js:55 | n placeholders; item i is a comma-free placeholder that reads back as parameter `first + i` |
| Mapper.FirstRow | src/models/BaseModel.js:17-18 | null when `rowCount < 1`, the first row when there is one, and never anything but null, undefined or a row of the answer (also lines 39-40 and 64-65) |
| Mapper.InsertQuery | src/models/BaseModel.js:47-61 | the insert fails exactly when the held value is not an object; otherwise it sends one parameter per held key |
| Mapper.BaseModel.InsertOne | src/models/BaseModel.js:43-66 | a truthy argument replaces the held record (even when the check then throws); the outcome is the refusal or the first row of the insert query for the held record |
| Mapper.InsertBindsInOrder | src/models/BaseModel.js:51-61 | for keys without commas, the column list and the placeholder list read back to n items each: column i, `$i+1`, and parameter i is the held value of column i |
| Mapper.ListDecodes | src/models/BaseModel.js:54-55 | a `", "`-joined list of comma-free items reads back as exactly those items |
| Mapper.BaseModel.SetModelData | src/models/BaseModel.js:68-73 | a non-object throws `Data must be an object.` and leaves the held record; an object is merged as `{...modelData, ...data}` |
| Mapper.SpreadGet | src/models/BaseModel.js:72 | after the merge, a key of `data` reads its new value and every other key its old one |
| Mapper.SpreadKeys | src/models/BaseModel.js:72 | the merged record keeps the held keys first and in place, and every key after them is one the held record lacked |
| JsValues.Spread | src/models/BaseModel.js:72 | `{...a, ...b}` never has a key twice and has exactly the keys of a and of b |
| JsValues.Put | src/utils/removeCreatedAtAndId.js:7-9 | a property write grows the object by at most one entry and adds no key but the written one |
| Mapper.SpreadOntoEmpty | src/models/BaseModel.js:6 | setting data on a fresh model holds exactly that data (test/1_models/2_BaseModel.test.js:147-153) |
| Mapper.BaseModel.GetModelData | src/models/BaseModel.js:76-78 | returns the held record |
| Mapper.BaseModel.ValidateData | src/models/BaseModel.js:80-85 | throws exactly when the schema reports a truthy error, and throws that error; otherwise returns nothing |
| JsValues.CopyIntoGet | src/models/BaseModel.js:72 | copying properties in: a copied key reads as in the source, any other as before |
| JsValues.StringOwnEntries | src/models/BaseModel.js:26-27 | a string's own properties are its characters keyed `"0"`, `"1"`, …, with distinct keys |
| JsValues.ParseNatToString | src/models/BaseModel.js:29 | every parameter number's numeral reads back as that number |
| Users.UserRule | src/models/UserModel.js:4-15 | the schema has a rule for exactly its eight fields, and the string rules are those of the names, the password and `google_id` |
| Users.Accepts | src/models/UserModel.js:4-15 | a value a string or email rule accepts is a non-empty string; a value an integer rule accepts is a number |
| Users.SingleWhereClause | src/models/UserModel.js:23 | the WHERE clause of the single column `email` is `email = $1` |
| Users.UserModel.constructor | src/models/UserModel.js:17-20 | the model is a fresh mapper bound to `users` with an empty held record |
| Users.UserModel.FindByEmail | src/models/UserModel.js:22-25 | is `findOne({ email })`: sends `WHERE email = $1` with `[email]` and returns the first row |
| Users.FindByEmailQuery | src/models/UserModel.js:23 | the query of `findOne({ email })` is the `SELECT … WHERE email = $1 LIMIT 1` text with the single parameter `email` |
| Users.PasswordPatternMeaning | src/models/UserModel.js:10 | the whole string matches `^[a-zA-Z0-9]{3,30}$` iff it has 3 to 30 characters, each an ASCII letter or digit |
| Users.PasswordRule | src/models/UserModel.js:10 | a password passes iff it is a string of 3 to 30 ASCII letters and digits |
| Users.NameRules | src/models/UserModel.js:6-7 | a first or last name passes iff it is a string of 2 to 255 characters |
| Users.GoogleIdRule | src/models/UserModel.js:12 | a `google_id` passes iff it is a string of 1 to 255 characters |
| Users.IntegerRules | src/models/UserModel.js:5 | `id` and `default_address` pass iff they are integral numbers (also line 13) |
| ValidationErrors.ValidationError | src/utils/validationError.js:1-21 | the error is tagged `VALIDATION`/400 and its message normalised in place; in dev mode it is rethrown as it is, otherwise a fresh error with message, code, status and the details summarised is returned and nothing else |
| ValidationErrors.NormalizeMessage | src/utils/validationError.js:5 | the new message has no double quote; an empty one becomes `Validation Error`, any other has its quotes replaced |
| ValidationErrors.ReplaceQuotes | src/utils/validationError.js:5 | same length, every `"` replaced by `'` and every other character kept |
| ValidationErrors.ReplaceQuotesIdempotent | src/utils/validationError.js:5 | replacing quotes twice is replacing them once |
| ValidationErrors.NormalizeMessageIdempotent | src/utils/validationError.js:5 | normalising a normalised message changes nothing |
| ValidationErrors.Summaries | src/utils/validationError.js:13-17 | the summaries list the details one for one and in order, with key, type and message taken from each |
| CustomErrors.CustomError | src/utils/customError.js:1-10 | in dev mode the error itself; otherwise a fresh error with the same message and code, status kept when truthy and 500 otherwise, and nothing else |
| CustomErrors.CustomErrorStatus | src/utils/customError.js:8 | outside dev mode the status is never falsy |
| CustomErrors.CustomErrorIdempotent | src/utils/customError.js:3-9 | cleaning a cleaned error gives it back unchanged |
| CustomErrors.CustomErrorDropsDetails | src/utils/customError.js:6-9 | a validation error passed through outside dev mode loses its details and keeps its message |
| CustomErrors.CallSiteStatusIgnored | src/services/UserService.js:60 | `customError(new Error(m), 409)` outside dev mode carries status 500, not 409 (nor 401, as at src/middlewares/isAuthenticated.js:7 and src/controllers/UserController.js:11) |
| CustomErrors.CustomErrorWithStatus | src/utils/customError.js:1-10 | as `CustomError`, with the status falling back to the caller's status before 500 |
| CustomErrors.CustomErrorWithStatusKeepsCallerStatus | src/services/UserService.js:60 | with the status passed through, `customError(new Error(m), s)` carries s; without one it is `CustomError` |
| RemoveCreatedAtAndId.RemoveCreatedAtAndId | src/utils/removeCreatedAtAndId.js:3-14 | the copy never has more properties than the input |
| RemoveCreatedAtAndId.Reduce | src/utils/removeCreatedAtAndId.js:4-13 | the fold adds at most one property per key it visits |
| RemoveCreatedAtAndId.CopyValue | src/utils/removeCreatedAtAndId.js:6-9 | a nested object becomes an object with no more properties; any other value is copied as it is |
| RemoveCreatedAtAndId.TopLevelKeys | src/utils/removeCreatedAtAndId.js:4-5 | a key is in the result iff it is in the input and is neither `created_at` nor `id` |
| RemoveCreatedAtAndId.ReduceKeys | src/utils/removeCreatedAtAndId.js:4-13 | after the fold, a key is present iff it was in the accumulator or is a kept key of the input |
| RemoveCreatedAtAndId.ReduceIsKept | src/utils/removeCreatedAtAndId.js:4-13 | for distinct keys, the fold equals the accumulator followed by the kept entries, in input order, values copied |
| RemoveCreatedAtAndId.TopLevelValues | src/utils/removeCreatedAtAndId.js:6-9 | a kept key reads the stripped copy of a nested object and any other value unchanged; a missing key stays missing |
| RemoveCreatedAtAndId.KeptGet | src/utils/removeCreatedAtAndId.js:6-9 | reading a kept key from the filtered entries gives the copy of the input's value |
| RemoveCreatedAtAndId.ResultFree | src/utils/removeCreatedAtAndId.js:1-14 | no `created_at` or `id` key remains at any depth |
| RemoveCreatedAtAndId.ResultWellFormed | src/utils/removeCreatedAtAndId.js:4-13 | the result has distinct keys at every depth |
| RemoveCreatedAtAndId.FixedPoint | src/utils/removeCreatedAtAndId.js:3-14 | an object with neither key at any depth comes back equal |
| RemoveCreatedAtAndId.Idempotent | src/utils/removeCreatedAtAndId.js:3-14 | stripping twice is stripping once (the result is what test/3_routes/1_userRouter.test.js:195 compares) |

## Left out

- Database I/O: `query`, the connection pool, SQL execution, `LIMIT`, `RETURNING` and type errors that PostgreSQL raises are not modelled; the database is a function parameter and its answer is taken as it comes.
- `async`/`await`: every operation is modelled as a call that ends; ordering between concurrent calls is not modelled.
- Table and column names go into the SQL text without quoting in the source; the model states the text exactly, and the read-back lemmas require column names without spaces (WHERE) or commas (INSERT), since other names make the text ambiguous.
- Joi: email syntax, date parsing, `convert` mode (which accepts `"1"` for an integer), `.message(...)`, `tailor(...)` and the shape of its error objects are not modelled; email and date checks are parameters and `validateData` takes the schema's result as a function.
- Arrays, functions, class instances and symbols are not values of the model; `typeof` is modelled for `null`, objects and primitives only, and `removeCreatedAtAndId` on an array-valued property (which JavaScript turns into an index-keyed object) is not covered.
- Object key order: JavaScript lists integer-like keys first in ascending order; the model keeps insertion order for every key.
- Numbers are exact reals: NaN, infinities, `-0` and floating-point rounding are not modelled; string lengths count characters, not UTF-16 code units.
- `__proto__` keys and prototype properties are not modelled; objects hold only their own enumerable properties.
- `Error.captureStackTrace`, `stack` and the `Error` prototype chain are not modelled.
- ValidationErrors.ValidationError: requires `details` to be a list of detail records; the TypeError the source raises outside dev mode when `details` is missing is not modelled.
- RemoveCreatedAtAndId.RemoveCreatedAtAndId: takes a record; a string or other non-object argument (index keys of a string, the TypeError of `Object.keys(null)`) is not modelled.
- Mapper.BaseModel.InsertOne: sharing between references is not modelled; `insertOne` holds the caller's own object, so a later write through the caller's reference would change `modelData` without the check of `setModelData`, which a value cannot show.
- Mapper.BaseModel.GetModelData: sharing between references is not modelled; it returns the held object itself, and a write through that reference would change `modelData`.
- CustomErrors.CustomError: sharing between references is not modelled; in dev mode it returns the very object it was given, so later writes to either are writes to both.
- `class UserModel extends BaseModel` is modelled by composition: `UserModel` holds its `BaseModel` in `base`, since the model has no subclassing.
- Passport, bcrypt, sessions, Express routes and the services and controllers are not part of this model; three of their call sites appear only in the finding below.

## Findings

| source | as written | input that shows it | evidently intended | confidence | as-written member | corrected member |
|---|---|---|---|---|---|---|
| src/utils/customError.js:1 with src/services/UserService.js:60, src/middlewares/isAuthenticated.js:7 and src/controllers/UserController.js:11 | `customError` takes one parameter and the status it sets is `error.status \|\| 500`; the callers pass a status as a second argument, which is ignored | `customError(new Error('User already exists'), 409)` outside dev mode has status 500 | the status passed by the caller (409, 401) is used when the error has none, as test/2_services/1_UserService.test.js:47 and test/3_routes/1_userRouter.test.js:47, 110 and 182 expect | not executed | CustomErrors.CallSiteStatusIgnored | CustomErrors.CustomErrorWithStatus |
