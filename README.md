# ember-cli-deploy-redis: the index revision resolver

This project models `fetchIndex` from ember-cli-deploy-redis (`index.js`) in Dafny
and proves properties of the model. `fetchIndex` chooses which stored HTML index
document to serve for an application and a request. The store holds each deployed
revision under `<app>:<revision>`. The pointer key `<app>:current` holds the
content key of the active revision.

- A request can name a revision in a query parameter, `index_key` by default.
  That token is sanitized to its ASCII letters and digits. The resolver then reads
  `<app>:<token>` and nothing else.
- Without a token, the resolver reads `<app>:current`. It then reads the key stored
  there, exactly as stored.
- A truthy value (a non-empty string) is served. A missing or empty value fails
  with an `EmberCliDeployError` that carries a `critical` flag. So does a
  rejected read whose reason is an ordinary `Error`, which is the only kind of
  rejection the model has.
- A missing or unreadable pointer is critical. A missing document is critical
  exactly when no token was given. An error that the pointer stage already
  classified reaches the caller unchanged.

The model is pure, like the source. `FetchIndex` is a function of the application
name, the query map, the store and the options. It returns the outcome together
with the trace of keys it read, in order. The store is a value that is only read,
so nothing is ever written. Because the resolver is a function, calling it twice
on the same store gives the same result and the same classification.

Files:

- `wrappers.dfy`: the `Option` datatype, which stands for JavaScript's
  `undefined`/`null` next to a present value.
- `index_resolver.dfy`: the module `IndexResolver`, which covers options, sanitization,
  keys, the store and the request, errors, the resolver, its properties, and the
  scenarios of the test suite.

Modelling choices:

- Options and the query are `map<string, string>`. Passing no options object
  (`null` or `undefined`) is `None`.
- The store has two parts: a map of stored strings, and a set of keys whose read
  is rejected. The rejected keys are what reach the `.catch` handlers.
  A `get` settles with `Value(s)`, `Nil` or `Rejected`. A rejection is taken to
  carry an ordinary `Error` (see "Left out").
- Errors thrown inside the chain are either `Classified(DeployError)` or
  `Unclassified`. This stands for the `err.name === 'EmberCliDeployError'` test.
- An error message is kept as its parameters, not as its text.
  `NoCurrentRevision(app)` is the pointer-stage message. `NoRevision(key)` is the
  content-stage message. On the no-token path, the content-stage message names
  the outer `indexkey`, which is undefined there. The model keeps this as
  `NoRevision(None)`.

Two consequences of the code that are easy to miss:

- A token that sanitizes to `current` makes the content key equal to the pointer
  key. The resolver then serves the pointer's value (a key name) as the document.
  `TokenReadsPointerOnlyIfNamedCurrent` states exactly when the pointer key is
  read on the token path.
- A non-empty token without letters or digits still counts as a requested revision.
  Its key is `<app>:` and its failure is not critical (`TokenSanitizedAway`).

## Model

| member | source | states |
|---|---|---|
| IndexResolver.GetOpts | index.js:7-14 | The result always has `revisionQueryParam`. With no options it is the defaults. Otherwise its keys are the defaults' keys plus the caller's, every caller property keeps its value, and every default the caller omits is filled in. |
| IndexResolver.RevisionParam | index.js:7-14 | The revision parameter name is `"index_key"` when options are absent or lack the property. Otherwise it is the caller's value, unchanged. |
| IndexResolver.Sanitize | index.js:21 | The sanitized token is no longer than the token and holds only ASCII letters and digits. |
| IndexResolver.SanitizeKeepsLettersAndDigits | index.js:21 | Every letter and digit occurs in the result as often as in the token. No other character occurs in the result. |
| IndexResolver.SanitizeConcat | index.js:21 | Sanitizing a concatenation gives the concatenation of the sanitized parts, so characters keep their order. |
| IndexResolver.SanitizeChar | index.js:21 | A single character is kept exactly when it is a letter or a digit. |
| IndexResolver.SanitizeFixedPoint | index.js:21 | A token is unchanged by sanitization exactly when it contains only letters and digits. |
| IndexResolver.SanitizeIdempotent | index.js:21 | Sanitizing twice gives the same result as sanitizing once. |
| IndexResolver.SanitizeNoAlnum | index.js:21 | A token without letters or digits sanitizes to the empty string. |
| IndexResolver.SanitizeRuns | index.js:21 | A run of letters and digits survives, and a following run with none disappears. |
| IndexResolver.SanitizeSpaceExample | test/index-test.js:62-79 | `"abc 123"` sanitizes to `"abc123"`. |
| IndexResolver.SanitizePunctuationExample | test/index-test.js:81-97 | `"ab@*#!c(@)123"` sanitizes to `"abc123"`. |
| IndexResolver.Key | index.js:22 | A key is the application name, a colon and the suffix. Both parts can be read back from the key. |
| IndexResolver.KeyInjective | index.js:22 | For one application, two keys are equal exactly when their suffixes are equal. |
| IndexResolver.CurrentKey | index.js:30 | The key built from a sanitized token is the pointer key `<app>:current` exactly when the token sanitizes to `current`. |
| IndexResolver.Get | index.js:30-40 | A read is rejected exactly for a failing key. It is nil exactly when the key is neither failing nor stored. A value is the string stored under the key. |
| IndexResolver.Truthy | index.js:31-42 | A reply fails exactly when it is nil, the empty string or a rejection. Nil and the empty string are the falsy values that the `!result`/`!indexHtml` tests reject (index.js:31, 42). A rejected read skips those tests but reaches the same `.catch` (index.js:33, 44), so the model puts it with them. |
| IndexResolver.Token | index.js:20 | A token exists exactly when the configured parameter is in the query with a non-empty value, and it is that value. |
| IndexResolver.CustomIndexKey | index.js:19-24 | A custom key exists exactly when a token exists. It is `<app>:` plus the sanitized token, and it is never empty, so `!!indexkey` agrees with "a token was given". |
| IndexResolver.RetrieveIndexKey | index.js:26-37 | A given custom key is returned without any read. Otherwise only `<app>:current` is read. A truthy pointer value is returned. A missing, empty or rejected pointer gives the classified critical `NoCurrentRevision(app)` error. |
| IndexResolver.FetchContent | index.js:39-43 | Exactly the given key is read. The step succeeds exactly when the reply is truthy, and then yields the stored value. Otherwise it yields an unclassified failure. |
| IndexResolver.Classify | index.js:44-50 | A classified error passes through unchanged. An unclassified failure becomes `NoRevision(indexkey)`, which is critical exactly when no custom key was given. |
| IndexResolver.FetchIndex | index.js:16-51 | The resolver makes one or two reads. The first read is the sanitized custom key when a token is present, else `<app>:current`. A served document is non-empty and equals the value stored at the last key read. A failure is critical exactly when no token was given. |
| IndexResolver.TokenReadsOnlyCustomKey | index.js:20-43 | With a token, the only read is at `<app>:` plus the sanitized token. A truthy value there is served. Anything else gives the non-critical `NoRevision(Some(key))` error. |
| IndexResolver.TokenReadsPointerOnlyIfNamedCurrent | index.js:22-30 | With a token, `<app>:current` is read exactly when the token sanitizes to `current`. |
| IndexResolver.TokenSanitizedAway | index.js:21-24 | A non-empty token without letters or digits still counts as custom. It reads `<app>:`, and its failure is not critical. |
| IndexResolver.EmptyQueryValueIsAbsent | index.js:20 | An empty query value resolves exactly like an absent parameter. |
| IndexResolver.NoTokenPointerMissing | index.js:30-35 | Without a token, a missing, empty or rejected pointer gives the critical `NoCurrentRevision` error after the single read of `<app>:current`. |
| IndexResolver.NoTokenFollowsPointer | index.js:39-48 | Without a token and with a truthy pointer value `p`, the reads are `<app>:current` and then `p`, exactly as stored. Truthy content at `p` is served. Anything else is critical. |
| IndexResolver.ServedIffLastReadTruthy | index.js:31-43 | A document is served exactly when the last key read holds a truthy value. |
| IndexResolver.PointerErrorPassesThrough | index.js:33-46 | A pointer-stage error reaches the caller as the pointer stage built it, so the outer catch does not wrap it again. |
| IndexResolver.ReadsDetermineResult | index.js:16-51 | Two stores that answer the traced keys alike give the same resolution, so nothing outside the trace is consulted. |
| IndexResolver.ScenarioTokenNormalized | test/index-test.js:62-97 | Tokens `"abc 123"` and `"ab@*#!c(@)123"` are served from `myapp:abc123`, and the key spelled with the raw token is never read. |
| IndexResolver.ScenarioNoCurrent | test/index-test.js:99-109 | With no pointer and no token, the resolver reads `myapp:current` and fails critically. |
| IndexResolver.ScenarioPointerDangling | test/index-test.js:111-124 | When `myapp:current` refers to a missing revision, both keys are read and the failure is critical. |
| IndexResolver.ScenarioRequestedMissing | test/index-test.js:126-141 | A missing requested revision reads `myapp:abc123` and fails non-critically. |
| IndexResolver.ScenarioServeCurrent | test/index-test.js:143-158 | Without a token, the pointer and then its target are read, and the target's HTML is served. |
| IndexResolver.ScenarioServeRequested | test/index-test.js:160-183 | With token `def456`, only `myapp:def456` is read and its HTML is served. The pointer and its target are not read. |

## Left out

- The Redis client and the Bluebird promises. `get` is a total lookup that settles at once. Only the order of reads is kept, as the trace.
- Writes to the store during a resolution. Both reads see one fixed store, so a write between the pointer read and the content read (a deploy activating a new revision, say) is not modelled.
- The `async` library import at index.js:1, which the code never uses.
- The internals of lodash `defaults`. The merge is modelled as "the caller's property if present, else the default". A property explicitly set to `undefined` is modelled as absent, which is how `defaults` treats it. Option values that are not strings are not modelled, because the only option is a parameter name.
- The `EmberCliDeployError` class (`errors/ember-cli-deploy-error`) is not part of this model. It is modelled as a message and a `critical` flag.
- The exact text of the error messages. Only their parameters are kept.
- Store: a rejected read is assumed to carry an ordinary `Error` object. The pointer-stage catch (index.js:33) ignores the reason, so there this changes nothing. The content-stage catch (index.js:44-45) reads `err.name`. A rejection with no reason (`undefined` or `null`) makes that handler throw a `TypeError`, which reaches the caller unclassified and without a `critical` flag. A rejection whose reason has `name === 'EmberCliDeployError'` passes through with its own flag, so "critical exactly when no token" need not hold for it. Neither case is modelled.
- Query values that are not strings, such as the arrays that repeated parameters produce. For these, `.replace` would throw outside the promise chain.
- JavaScript strings are UTF-16 code units, while the model works on Dafny characters. Both drop every non-ASCII character, so the sanitized result is the same.
- The static `<app>:default` fallback key. This code has no such variant; it implements only the pointer policy.
- The mocha/chai/sinon test harness. The read trace stands in for the spy assertions.
