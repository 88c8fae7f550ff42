# SAHP front-end utility layer, modelled in Dafny

This project models the client-side utility layer of the SAHP intranet front-end
(`utils.js`). That layer has three parts:

- **`CacheManager`**: an in-memory map from API paths to cached JSON values. Each
  entry carries an expiry time, five minutes after it was stored by default. Entries
  are dropped when read after their expiry, or explicitly by `delete`, `clear` and
  `deleteByPrefix`. The read-through rule of `APIManager.get` is modelled with it:
  a truthy cached value is served without a request, and a successful response
  is stored under the exact endpoint string.
- **`DateFormatter`**: its purely textual branches. These recognise `DD/MM/YYYY`
  display dates and `YYYY-MM-DD` input dates, return the sentinel strings for a
  missing date, and rearrange a display date into an input date.
- **`Validator`**: the `required` and `minLength` checks, and `validate`. `validate`
  runs the rules in order, keeps at most one message per field, and throws one
  error whose message is the collected messages joined by line breaks.

Files:

| file | module | contents |
|---|---|---|
| `wrappers.dfy` | `Wrappers` | `Option`, `Result`, `Outcome` |
| `js_values.dfy` | `JsValues` | JavaScript values, truthiness, `length` |
| `text.dfy` | `Text` | `\d`, `trim`, `split`, `join`, integer-to-decimal |
| `date_formatter.dfy` | `DateFormatter` | date shapes, `toDisplay`, `toDateTime`, `toInput` |
| `cache.dfy` | `Cache` | the `CacheManager` class and the functions that specify it |
| `api.dfy` | `Api` | the cache decision of `APIManager.get` |
| `validator.dfy` | `Validator` | `required`, `minLength`, `validate` |

Modelling choices:

- `Date.now()` is an explicit `now` parameter, in milliseconds. `APIManager.get`
  reads the clock twice: `CacheManager.get` reads it before the request and
  `CacheManager.set` reads it after. The model has one parameter for each reading,
  `readAt` and `storeAt`.
- `fetch` is not modelled. `Api.GetStep` and `Api.Get` take the `Response` the
  network would give. Their `fetched` result says whether the network was asked.
  A non-2xx status, a transport failure and a body that is not JSON are the
  three ways the call throws.
- The static `Map` becomes the `cache` field of a `CacheManager` object. The
  functions `Lookup`, `AfterGet`, `Stored` and `WithoutPrefix` give the meaning of
  each operation, and each method is proved to change the field exactly as they say.
- `deleteByPrefix` only logs the number of deleted entries. The model returns that
  number as `count`, and proves it equals the number of keys that start with the prefix.
- A thrown `Error(message)` is `Fail(message)` or `Err(...)`. An omitted `ttl` is `None`.
- A second `get` of a path within the TTL makes no request only when the cached
  value is truthy. The code re-fetches a falsy cached value (`null`, `false`, `0`,
  `''`) on every call (`Api.FalsyValueRefetched`); for truthy values
  `Api.OneFetchWithinTtl` proves that one request serves both calls.
- No textual branch turns a `YYYY-MM-DD` string back into a display date: `toDisplay`
  hands that shape to the host's `Date` and `Intl.DateTimeFormat`. So no round trip
  from `toInput` back to display form is claimed; `DateFormatter.ToInputInjective`
  proves that `toInput` loses no information on display dates.

## Model

| member | source | states |
|---|---|---|
| `Text.TrimStart` | utils.js:469 | the result is a suffix of the input, everything dropped is whitespace, and it has no leading whitespace (the part of `trim` that decides `trim() === ''`) |
| `Text.BlankIff` | utils.js:469 | `value.trim() === ''` holds exactly when every character is ECMAScript whitespace or a line terminator |
| `Text.Split` | utils.js:93 | `split` on one character gives at least one piece, and no piece contains the separator |
| `Text.Join` | utils.js:510 | `errors.join('\n')` begins with the first message and ends with the last |
| `Text.SplitJoin` | utils.js:510 | splitting `parts.join(sep)` at `sep` gives `parts` back when no part contains `sep` |
| `Text.NatToDecimal` | utils.js:483 | the rendering of a number in the message is a non-empty string of digits with no leading zero |
| `Text.DecimalRoundTrip` | utils.js:483 | reading back the decimal rendering of `n` gives `n` |
| `Text.IntToDecimal` | utils.js:483 | a negative length is rendered with a leading `-`; the rendering never holds a line break |
| `DateFormatter.Missing` | utils.js:36 | `!dateString` holds exactly when the argument is `null`/`undefined` or the empty string (the same test at utils.js:60 and 84) |
| `DateFormatter.IsDisplayShape` | utils.js:39 | the anchored match `^\d{2}\/\d{2}\/\d{4}$` (also at utils.js:92): exactly ten characters, `/` at positions 2 and 5, an ASCII digit everywhere else |
| `DateFormatter.IsInputShape` | utils.js:87 | the anchored match `^\d{4}-\d{2}-\d{2}$`: exactly ten characters, `-` at positions 4 and 7, an ASCII digit everywhere else |
| `DateFormatter.SplitDisplayShape` | utils.js:92-93 | `split('/')` on a `DD/MM/YYYY` string gives exactly its day, month and year groups |
| `DateFormatter.ToDisplay` | utils.js:35-43 | a missing date gives `'Non renseignée'`; a `DD/MM/YYYY` string is returned unchanged; exactly the non-empty inputs of another shape go to the host date engine |
| `DateFormatter.ToDisplayIdempotent` | utils.js:38-41 | every `DD/MM/YYYY` string is returned unchanged, so applying `toDisplay` twice changes nothing |
| `DateFormatter.ToDateTime` | utils.js:59-62 | the result is textual exactly for a missing date, and is then `'Date inconnue'`; any other input goes to the host date engine |
| `DateFormatter.ToInput` | utils.js:83-98 | a missing date gives `''`; a `YYYY-MM-DD` string is returned unchanged; any other textual result is a `YYYY-MM-DD` string; exactly the non-empty inputs of neither shape go to the host date engine |
| `DateFormatter.ShapesDisjoint` | utils.js:87-92 | no string is both `DD/MM/YYYY` and `YYYY-MM-DD`, so the order of the two tests does not matter |
| `DateFormatter.ToInputRearranges` | utils.js:92-94 | a `DD/MM/YYYY` date becomes `YYYY-MM-DD` built from the same year, month and day digits |
| `DateFormatter.ToInputInjective` | utils.js:92-94 | two display dates with the same `toInput` result are equal |
| `DateFormatter.ToInputIdempotent` | utils.js:84-94 | applying `toInput` to its own textual output returns it unchanged |
| `Cache.EffectiveTtl` | utils.js:405 | an omitted `ttl` falls back to `CacheManager.TTL`, 300000 ms (utils.js:377); a given one is used as is |
| `Cache.Lookup` | utils.js:385-396 | `get` answers the data exactly when the key is present and `now <= expiry` (the entry expires only when `Date.now() > expiry`), else `null` |
| `Cache.AfterGet` | utils.js:390-392 | `get` keeps every other key and entry, and keeps its own key exactly when it answers with data |
| `Cache.Stored` | utils.js:405-409 | `set` adds or replaces only `key`, with `{data, expiry: now + ttl}`, and keeps every other entry |
| `Cache.WithoutPrefix` | utils.js:434-442 | the map after `deleteByPrefix` holds no key with the prefix, and every other key with its entry unchanged |
| `Cache.PrefixCount` | utils.js:436-443 | the number of entries `deleteByPrefix` removes equals the number of keys starting with the prefix |
| `Cache.PrefixedAdd` | utils.js:438-441 | visiting one more key of the snapshot adds one to `count` exactly when that key starts with the prefix |
| `Cache.CacheManager.constructor` | utils.js:376 | the cache starts empty |
| `Cache.CacheManager.Get` | utils.js:384-397 | returns the stored data when the key is present and `now <= expiry`, else `null`; an expired entry is deleted, nothing else changes |
| `Cache.CacheManager.Set` | utils.js:405-409 | stores `{data, expiry: now + ttl}` under the key, with `ttl` defaulting to five minutes |
| `Cache.CacheManager.Delete` | utils.js:417-419 | the key is gone and every other key keeps its entry |
| `Cache.CacheManager.Clear` | utils.js:425-427 | the cache is empty |
| `Cache.CacheManager.DeleteByPrefix` | utils.js:434-444 | no remaining key starts with the prefix, every other entry is unchanged, and the count equals the number of entries removed |
| `Cache.MissWithoutEntry` | utils.js:384-387 | a key never set, or deleted, reads as `null` and the read changes nothing |
| `Cache.GetAfterSet` | utils.js:377-409 | after `set` at time `t`, `get` returns the data at any `now <= t + ttl` and `null` afterwards, dropping the key; the default expiry is `t + 300000` |
| `Cache.ExpiryIsFinal` | utils.js:390 | an entry served at some time was served at every earlier time |
| `Cache.GetOnlyTouchesItsKey` | utils.js:384-397 | `get` changes no other key, and repeating it at the same time gives the same answer and state |
| `Api.GetStep` | utils.js:235-260 | no request exactly when the cache is used and holds a truthy unexpired value, which is returned; without the cache the map is untouched; a failure throws and writes nothing; a success is returned and, with the cache, stored under the endpoint |
| `Api.Get` | utils.js:235-260 | acting on the shared cache object, returns and changes exactly what `GetStep` says |
| `Api.OneFetchWithinTtl` | utils.js:237-254 | for an uncached path, the first call fetches and a second call before the entry expires is served from the cache with the same truthy value |
| `Api.RefetchAfterExpiry` | utils.js:237-254 | once the stored entry has expired, the next call fetches again |
| `Api.RefetchAfterInvalidation` | utils.js:237-242 | after `delete(endpoint)` or `deleteByPrefix` with a prefix of it, the next call fetches |
| `Api.FalsyValueRefetched` | utils.js:238-254 | a falsy response is stored but never served, so every later call fetches again |
| `JsValues.Truthy` | utils.js:239 | the values `if (cached)` rejects are exactly `undefined`, `null`, `false`, `0` and `''` (the same test at utils.js:469 and 501) |
| `Validator.Required` | utils.js:468-472 | fails, with `'<name> est requis'`, exactly for a falsy value or a whitespace-only string |
| `Validator.MinLength` | utils.js:481-485 | fails, with `'<name> doit contenir au moins <n> caractères'`, exactly for a string or array shorter than `n` |
| `Validator.FieldError` | utils.js:497-506 | one rule's `try` block: a missing required value reports `'<name> est requis'` (name is the label, or the field when the label is falsy); any other message is the `minLength` one for a truthy value, and a value that passes `required` but is shorter than `minLength` reports `'<name> doit contenir au moins <n> caractères'`; the rule passes exactly when neither check fails |
| `Validator.Verdict` | utils.js:509-511 | throws exactly when some message was collected; a single message is thrown as is |
| `Validator.Failures` | utils.js:494-507 | at most one message is collected per rule |
| `Validator.Validate` | utils.js:493-512 | throws exactly when some rule fails, with the collected messages joined by `'\n'` in rule order |
| `Validator.FailuresAppend` | utils.js:496-507 | messages are collected in rule order: those of consecutive rule lists concatenate |
| `Validator.FailuresEmptyIff` | utils.js:509-511 | nothing is collected exactly when every rule passes |
| `Validator.RequiredBlankAlwaysFails` | utils.js:498-500 | a required field that is falsy or whitespace-only always makes `validate` throw, and its message is among those collected |
| `Validator.MinLengthOnlyWhenTruthy` | utils.js:501-503 | `minLength` is only checked for a truthy value, so a falsy optional field never fails |
| `Validator.FailuresSingleLine` | utils.js:470-483 | no collected message holds a line break when no label or field name does |
| `Validator.MessageSplitsIntoFailures` | utils.js:510 | splitting the thrown message at line breaks gives back the messages in rule order, when no label holds a line break |

## Left out

- `DateFormatter.parse`, the `Intl.DateTimeFormat` branch of `toDisplay`, the formatting in `toDateTime`, and the `Date`-based fallback of `toInput` (utils.js:17-28, 43-51, 62-75, 97-104): they depend on the host `Date` and locale/time-zone engine. The model returns such inputs as `ViaHostDate`.
- `DateFormatter.ToDisplay`, `DateFormatter.ToDateTime`, `DateFormatter.ToInput`: a non-string truthy argument (a number, an object) is not modelled; the argument is a string or `null`/`undefined`.
- No round trip from `toInput` back to the display form: there is no textual code for it.
- The network, `confirm` and `alert` parts of `APIManager.get`, `APIManager.post` and `APIManager.deleteItem` (utils.js:201-226, 244-249, 269-284): I/O. The fetch is a `Response` parameter.
- `ModalManager` and `LoadingManager` (utils.js:112-185, 291-369): DOM construction and HTML templating.
- `CacheManager.debug` and all `console.log` / `console.error` calls: logging only.
- `components.js` and `script.js`: HTML templates, DOM events, `sessionStorage` and `fetch` calls.
- The grade-based permission resolver: it is not in the files modelled here.
- Concurrency: the source runs single-threaded. Two `APIManager.get` calls may interleave at `await`, but the model treats each call as atomic.
- JavaScript numbers are modelled as integers: `NaN`, `-0`, fractional TTLs and times are left out, and so are the exponent form JavaScript writes from 10^21 up (`1e+21`) and the rounding of doubles above 2^53; the decimal rendering in the `minLength` message follows `String(n)` only below 10^21.
- `Validator.MinLength`: string length is counted in Unicode characters rather than UTF-16 code units, and an object that carries its own `length` property is treated like any other object (no length).
- `Validator.Validate`: `Object.entries` order is taken to be the order of the `rules` sequence; JavaScript lists integer-like keys first.
- `Cache.CacheManager.Get`, `Api.GetStep`: cached JSON values are shared by reference with callers (`APIManager.get` stores the very object it returns, and `CacheManager.get` returns the stored object itself), so a caller that mutates a returned array or object changes what later reads serve. The model's values are immutable: it assumes no caller mutates a value it received.
- `Cache.CacheManager.DeleteByPrefix`: the order in which the key snapshot is visited is not modelled; the outcome does not depend on it.
- `Cache.CacheManager.Set`: a `ttl` of `null` (which JavaScript treats as `0` in the addition) is not modelled; only a number or an omitted argument is.
