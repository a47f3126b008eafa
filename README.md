# Book catalog request handlers — a Dafny model

This project models the request-handling logic of a serverless book catalog.
The catalog runs as AWS Lambda handlers behind an API gateway, over two
DynamoDB tables:

- **Books**, keyed by a numeric `id`;
- **Translations**, keyed by `(text, language)`.

Five pieces of logic are modelled:

- `authenticate` — cookie token, then the verifier; missing token or a
  throwing verifier gives `null`.
- `GET /books/{bookId}` — `parseInt` id validation and a read.
- `POST /books` — stamps `userId` from the verified subject, lets the body
  override it, and puts the item unconditionally.
- `PUT /books/{bookId}` — a guard chain (cookie, verification, id, existence,
  body, owner) and a whole-item overwrite.
- `GET /books/{bookId}/translation` — a cache-aside translation: look up the
  `(summary, language)` entry, call the translator only on a miss, and write
  the entry.

The tables are Dafny maps. The handlers that write them are methods of the
class `Service.Tables`, which has the fields `books` and `cache` and a ghost
log of translator calls. Each method follows its handler's early returns.
Each is proved to produce the reply and the new tables that a pure
specification function describes (`AddBookSpec.Outcome`,
`UpdateBookSpec.Outcome`, `TranslateSpec.Handler`). The properties are proved
about those functions: guard order, "nothing else changes", what a success
writes, and idempotence of a repeated translation. The read-only handler
`GetBookById.Handler` and `Auth.Authenticate` are pure functions.

Three collaborators are not part of this model. Each enters as a parameter:

- the cookie parser (from `lambda/utils/utils.ts`) — its result, an optional
  cookie map;
- the token verifier — a function from the call's arguments to "verified
  claims", "nullish" or "threw";
- the machine translator — a function from a request to a translation or a
  failure.

Each store call's outcome is a parameter too: it completes, or it fails with
an error.

The model keeps these behaviours of the code:

- With no cookies, update answers 200 "Unauthorised request!!" and add
  answers 400.
- A missing body is a 500. So is an ownership mismatch.
- The owner is not stamped server-side against the body. A body `userId`
  replaces the verified subject on creation (`AddBookSpec.Stamped`). An update
  replaces the whole item, so the owner survives only if the body repeats it
  (`Scenarios.OwnerUpdateReplacesOwner`). A body without `userId` leaves the
  book with no owner that any subject can match
  (`Scenarios.UpdateWithoutOwnerOrphans`).
- An update checks the owner of the book the path names, but writes the item
  under the body's `id` when the body has one. So the owner of one book can
  overwrite any other book, and, by naming themselves as `userId` in the
  body, becomes its owner
  (`Scenarios.UpdateOverwritesBookNamedInBody`).
- A failed cache write after a successful translation makes the whole
  request a 500, although the translation succeeded (`TranslateSpec.Handler`).
- A verifier that throws inside update or add is not caught. The rejection
  escapes the handler (`Http.Reply.Unhandled`), and it happens before the id
  is validated.

## Model

| member | source | states |
|---|---|---|
| `Auth.Authenticate` | lambda/utils/auth.ts:3-21 | no cookie map or no non-empty token gives null; a result is returned only if the verifier verified that token with those claims; with a token, a result exists exactly when the verifier did not throw or answer nullish |
| `Auth.AuthenticateWithoutTokenIgnoresVerifier` | lambda/utils/auth.ts:4-8 | without a usable token the answer is null whatever the verifier would say, so the verifier is not consulted |
| `Auth.AuthenticateDependsOnOneCall` | lambda/utils/auth.ts:10-20 | with a token, the result depends only on the verifier's answer to that one request |
| `Auth.SubjectOf` | lambda/addBook.ts:45 | `verifiedJwt?.sub`: the subject of verified claims, none for a nullish verification, and a subject only when verification produced claims carrying it |
| `Items.Spread` | lambda/addBook.ts:44-47 | `{...base, ...body}` has the keys of both; body values win; base values survive only where the body is silent |
| `Items.RemoveUndefined` | lambda/addBook.ts:78 | `removeUndefinedValues` drops exactly the undefined attributes and keeps every other attribute unchanged |
| `Items.PutKeepsWellKeyed` | lambda/addBook.ts:49-54 | putting a keyed, marshalled item keeps every book stored under its own `id` |
| `JsNumbers.TrimStart` | lambda/getBookById.ts:8 | no longer than the input, everything removed from the front is white space, and the result does not start with white space |
| `JsNumbers.TrimStartIsSuffix` | lambda/getBookById.ts:8 | what remains after trimming the front is a suffix of the input |
| `JsNumbers.TrimEnd` | lambda/translateBookSummary.ts:26 | no longer than the input, everything removed from the end is white space, and the result does not end with white space |
| `JsNumbers.TrimEndIsPrefix` | lambda/translateBookSummary.ts:26 | what remains after trimming the end is a prefix of the input |
| `JsNumbers.LeadingDigits` | lambda/getBookById.ts:8 | the length of the maximal run of decimal digits at the front of the input |
| `JsNumbers.ParseInt` | lambda/getBookById.ts:8 | `parseInt(s, 10)` is NaN exactly when no digit follows the leading white space and optional sign |
| `JsNumbers.ParseIntShowInt` | lambda/getBookById.ts:8 | `parseInt` reads back `${n}` for every integer n, whatever non-digit text follows (trailing characters are ignored) |
| `JsNumbers.ParseIntSkipsWhitespace` | lambda/getBookById.ts:8 | leading white space does not change what `parseInt` returns |
| `JsNumbers.ShowNatDigits` | lambda/updateBook.ts:97 | the decimal rendering of a natural number is a non-empty digit string whose value is that number, with no leading zero unless the number is 0 |
| `JsNumbers.LeadingDigitsOfRun` | lambda/getBookById.ts:8 | a digit run followed by a non-digit is exactly the leading run |
| `JsNumbers.TrimStartSkipsWhitespace` | lambda/getBookById.ts:8 | prefixing white space does not change the trimmed string |
| `JsNumbers.ParseUnsignedRun` | lambda/getBookById.ts:8 | an optionally negated digit run followed by a non-digit parses to its signed value |
| `JsNumbers.ParsePlusRun` | lambda/getBookById.ts:8 | a digit run after an explicit `+`, followed by a non-digit, parses to its positive value |
| `JsNumbers.NumberOf` | lambda/translateBookSummary.ts:26 | `Number(s)` of a string that is empty or white space only is 0; the conversion fails (NaN, or a form the model does not keep) exactly when, after trimming white space on both sides, the string is non-empty and is not one optional sign followed by a non-empty run of decimal digits |
| `JsNumbers.NumberOfSkipsWhitespace` | lambda/translateBookSummary.ts:26 | white space on either side of the id never changes what `Number` reads |
| `JsNumbers.NumberOfShowInt` | lambda/translateBookSummary.ts:26 | `Number` reads back `${n}` for every integer n |
| `JsNumbers.NumberOfRun` | lambda/translateBookSummary.ts:26 | an optionally negated digit run converts to its signed value |
| `JsNumbers.NumberOfTrimmed` | lambda/translateBookSummary.ts:26 | a signed digit run with no white space around it converts to its signed value |
| `BookIds.PathId` | lambda/getBookById.ts:8-18 | the id guard accepts exactly a present, non-empty parameter whose `parseInt` is finite and non-zero, and yields that integer |
| `BookIds.PathIdShowInt` | lambda/updateBook.ts:16 | every non-zero key is selected by the path `${id}`, even with non-digit text after it |
| `GetBookById.Handler` | lambda/getBookById.ts:7-46 | 400 "Invalid or missing bookId" exactly for an invalid id; 404 "Book not found" exactly for a valid id not in the table; 200 exactly for a present id, with the stored item verbatim; a failed read gives 500 with the id and the error; the table is only read |
| `GetBookById.ServedBookCarriesItsKey` | lambda/getBookById.ts:21-38 | in a well-keyed table, a served book carries the requested id |
| `UpdateBookSpec.Replacement` | lambda/updateBook.ts:81-84 | the new item is the body's properties over `{id: bookId}`; nothing of the stored item survives; its key is the body's `id` if given, else the path id |
| `UpdateBookSpec.OneSubjectOwns` | lambda/updateBook.ts:71 | two signed-in subjects that both pass the owner check are the same subject |
| `UpdateBookSpec.OwnerlessBookHasNoSubjectOwner` | lambda/updateBook.ts:71 | a book with no `userId` (absent or null) fails the owner check for every signed-in subject and passes only without a subject; a string owner passes for the subject of that name |
| `UpdateBookSpec.Outcome` | lambda/updateBook.ts:15-110 | only a 201 writes; the guard order is cookie, verifier rejection, id, read, existence, body, claims, owner; each guard's reply is given exactly (a failed read, an unparsable body and a nullish verification give their 500s); a verified non-owner gets exactly "You are not the owner" with the table unchanged; the owner's update puts the replacement and answers 201 unless the key is non-numeric or the put fails, which give their 500s; a 201 implies all of this; the table invariant is kept |
| `AddBookSpec.Stamped` | lambda/addBook.ts:44-47 | a body `userId` wins over the verified subject; without one the owner is the subject; with no subject the item has no owner; every other property is the body's |
| `AddBookSpec.Outcome` | lambda/addBook.ts:15-73 | only a 201 writes; no cookies gives 400, a missing body 500 and an unparsable body 500 with the parser's error; with a body the stamped item is put: a non-numeric key gives the store's ValidationException, a failed put 500 with its error, otherwise 201 replacing whatever was under that id; a 201 happens exactly in that last case; the table invariant is kept |
| `TranslateSpec.Handler` | lambda/translateBookSummary.ts:11-94 | missing parameters or an absent book: no call, no write. An unreadable id, a failed book or cache read, or a summary that cannot be a key (not a non-empty string): 500, no call, no write. A hit answers 200 with the stored translation, no call, no write. A miss calls the translator exactly once, with (book language, target, summary), and there is never more than one call. A failed translation or cache write gives 500 with the cache unchanged. A successful miss adds exactly that entry and returns it. A hit returns the stored entry without a call. Every 200 returns what the cache holds under its key |
| `TranslateSpec.RepeatedRequestHits` | lambda/translateBookSummary.ts:39-85 | after a 200, the same request again is a hit: no translator call whatever the translator, no write, the same reply |
| `TranslateSpec.DistinctSummariesDistinctEntries` | lambda/translateBookSummary.ts:70-74 | summaries "Hello" and "Hello " are different keys: after the first is cached, the second still calls the translator |
| `Service.Tables.constructor` | lib/app-api.ts:23-36 | the two tables start as given, with an empty translator log |
| `Service.Tables.AddBook` | lambda/addBook.ts:15-73 | the reply and the new Books table are those of `AddBookSpec.Outcome`; the table stays well keyed |
| `Service.Tables.UpdateBook` | lambda/updateBook.ts:15-110 | the reply and the new Books table are those of `UpdateBookSpec.Outcome`; the table stays well keyed |
| `Service.Tables.TranslateBookSummary` | lambda/translateBookSummary.ts:11-94 | the reply and the new Translations table are those of `TranslateSpec.Handler`; the translator log grows by exactly its calls; Books is not written |
| `Scenarios.CreatedBookIsServed` | lambda/addBook.ts:44-61 | a book created by a subject, with no body `userId`, is served by `GET /books/${id}` with that subject as `userId` |
| `Scenarios.ForeignUpdateRefused` | lambda/updateBook.ts:71-79 | after creation by one subject, an update by another is refused as "not the owner" and changes nothing |
| `Scenarios.OwnerUpdateReplacesOwner` | lambda/updateBook.ts:81-91 | the owner's update succeeds, and the stored owner afterwards is whatever the update body says (absent if it says nothing) |
| `Scenarios.UpdateOverwritesBookNamedInBody` | lambda/updateBook.ts:71-97 | the owner of the path's book `a`, sending a body with `"id": b`, gets 201 for `a` while the replacement is written over book `b` of another owner, which the caller, named as `userId` in the body, then owns; `a` is unchanged |
| `Scenarios.UpdateWithoutOwnerOrphans` | lambda/updateBook.ts:71-91 | after an update whose body has no `userId`, every later update by a subject that reaches the owner check is refused |

## Left out

- `lambda/getAllBooks.ts`: one scan passed through, with a 404 on an empty result. It has no decision logic.
- `lib/app-api.ts`: infrastructure. It is used only for the key schemas and for the fact that GET routes have no authorizer. That is why `GetBookById.Handler` takes no cookie. The unused `LanguageIndex` index is left out.
- `lambda/utils/utils.ts` is not part of this model. `parseCookies`, `verifyToken` and `createPolicy` enter only through their results. No cookie-splitting rule, signature check or policy document is modelled. The gateway authorizer (`lambda/auth/authorizer.ts`) is not part of this model either.
- The translator is an arbitrary function. A `TranslatedText` that comes back undefined is not modelled; the translator either returns a string or fails.
- `Items.Value`: numbers are unbounded integers. Fractions, IEEE-double rounding of ids beyond 2^53, and `-0` are not modelled.
- `JsNumbers.NumberOf`: `Number(bookId)` is modelled for signed decimal digit strings and for white space alone. Its other forms are treated as a failing lookup (500): hexadecimal, binary, octal, exponent, fraction and Infinity. `NaN` really is one.
- `UpdateBookSpec.IsOwner`: the loose `!=` between the subject and the stored `userId` is exact for string, undefined and null owners. Any other owner type counts as unequal. JavaScript admits the caller whenever the owner is a number or boolean equal to `Number(sub)` (so `true` matches "1", and `1` matches "01", " 1" and "1e0"), or a list or map whose string conversion equals `sub` (`"u1" != ["u1"]` is false); the model refuses all of these.
- `Items.RemoveUndefined`: only `removeUndefinedValues` is modelled. `convertEmptyValues` (empty strings stored as NULL) and the other marshalling options are not.
- `Http.Payload`: response bodies are not serialised to JSON. A caught error is represented by its name, not by `JSON.stringify({ error })`. `console.log` output is not modelled.
- `Items.RequestBody`: `JSON.parse` is represented by its outcome. A truthy non-object body is represented by the properties an object spread copies from it.
- Concurrency: invocations are modelled one at a time. Duplicate misses and last-write-wins races between invocations are not modelled.
