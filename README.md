# GitHub trendy repositories: the search gateway, verified

This project models the repository-search gateway of an Android client that
lists trending GitHub repositories. The gateway does three things:

1. It builds the search URL for "repositories created after a date, most
   stars first, page N" from a fixed API root, the search path, an
   already-formatted `YYYY-MM-DD` date and the page number.
2. It runs the request and classifies what happened into a one-entry map
   keyed by the enum `Result` (`Ok` or `Error`). A value goes under `Ok`.
   HTTP 403 becomes `Error` holding `RateLimitExceeded`. HTTP 422 becomes
   `Error` holding `DataLimitReached`. An unresolvable host becomes `Error`
   holding `NoConnectivity`. Any other client-error status is thrown again
   as a fatal `RuntimeException`. Anything else thrown passes through.
3. It turns each JSON item of the response into a `Repo` record with a
   custom deserializer. The deserializer reads `name`, `description`,
   `owner.login`, `owner.avatar_url` and `stargazers_count`.

Modules:

- `Options`: the `Option` type, usable with `:-`.
- `Decimal`: how Kotlin writes an `Int` into a string template, plus the
  parser that reads exactly those strings back.
- `SearchUrl`: the URL builder, and a parser that recovers the date and
  the page from a URL.
- `Json`: the parsed JSON tree and the accessors the deserializer calls
  (`get`, `asString`, `asInt`).
- `RepoDeserializer`: the `Repo` record, the item deserializer and the
  list deserializer.
- `Gateway`: the `Result` map, the `handle` classifier, the union reading
  of the map, and the whole gateway call.

Choices made in the model:

- A failed request is a value of `Outcome`: a returned value, or one of
  the failures the gateway tells apart. These are a client-error (4xx)
  status, a server-error (5xx) status, an unknown host, an unreadable body,
  and any other exception. The HTTP client reports 4xx and 5xx responses
  as two different exception classes, and `handle` catches only the 4xx
  one, so a 5xx response escapes `handle` unchanged.
- What `handle` produces is a `Handled` value: either the map it returns
  or the failure that escapes from it.
- The map is also read as a tagged union, `GatewayResult`
  (`Success(value)` or `Failed(error)`). `AsEntries` and `ReadEntries`
  convert between the two. The lemmas prove that every map `handle` returns
  is one-entry, that it never holds both keys, and that it is exactly the
  map of one union value.
- An item is refused when its `description` key is absent. The code calls
  `isJsonNull` on whatever `get("description")` returns, so an absent key
  fails there. Only an explicit JSON `null` becomes `""`.
- `stargazers_count` goes through `Number.intValue()`, which keeps the
  low 32 bits of an integral JSON number. `Json.ToInt32` writes that
  wrap-around out.
- The response wrapper class that holds `items` is not part of this model.
  Only the body's `items` array is read; its other keys (`total_count`,
  `incomplete_results`) are ignored. A body without an `items` array is
  treated as an unreadable response: the failure escapes `handle`, like any
  decoding exception.
- One item that fails to deserialize fails the whole page.
- Deserializing is deterministic by construction: `Deserialize` is a
  function, so equal items give equal `Repo` records.

## Model

| member | source | states |
|---|---|---|
| `Decimal.NatDigits` | android/src/main/java/com/why/githubtrendyrepos/app/ReposGatewayImpl.kt:31 | the decimal text of a page number is non-empty, all digits, with no leading zero unless it is "0" |
| `Decimal.IntToString` | android/src/main/java/com/why/githubtrendyrepos/app/ReposGatewayImpl.kt:31 | the text of an `Int` starts with '-' exactly when it is negative, and the rest is canonical digits |
| `Decimal.IntToStringRoundTrip` | android/src/main/java/com/why/githubtrendyrepos/app/ReposGatewayImpl.kt:31 | reading back the text of any integer gives that integer |
| `Decimal.ParseIntRoundTrip` | android/src/main/java/com/why/githubtrendyrepos/app/ReposGatewayImpl.kt:31 | every string the parser accepts is the text of the number it returns |
| `Decimal.IntToStringInjective` | android/src/main/java/com/why/githubtrendyrepos/app/ReposGatewayImpl.kt:31 | distinct page numbers have distinct texts |
| `SearchUrl.MostStaredReposSinceDateUrl` | android/src/main/java/com/why/githubtrendyrepos/app/ReposGatewayImpl.kt:22-31 | the URL is the API root, the search path and `?q=created:>`, then the date verbatim, then `&sort=stars&order=desc&page=`, and it ends with the page's decimal text |
| `SearchUrl.ExampleUrl` | android/src/main/java/com/why/githubtrendyrepos/app/ReposGatewayImpl.kt:26-31 | date 2021-01-02 with page 3 gives `https://api.github.com/search/repositories?q=created:>2021-01-02&sort=stars&order=desc&page=3` |
| `SearchUrl.UrlRoundTrip` | android/src/main/java/com/why/githubtrendyrepos/app/ReposGatewayImpl.kt:29-31 | for an ISO date, parsing the built URL gives back the date and the page |
| `SearchUrl.ParsedUrlIsBuilt` | android/src/main/java/com/why/githubtrendyrepos/app/ReposGatewayImpl.kt:29-31 | a URL the parser accepts is the one built from the ISO date and page it returns |
| `SearchUrl.UrlInjective` | android/src/main/java/com/why/githubtrendyrepos/app/ReposGatewayImpl.kt:29-31 | for ISO dates, equal URLs come from equal dates and equal pages |
| `SearchUrl.UrlInjectiveInPage` | android/src/main/java/com/why/githubtrendyrepos/app/ReposGatewayImpl.kt:29-31 | for any fixed date, distinct pages give distinct URLs |
| `Json.Get` | android/src/main/java/com/why/githubtrendyrepos/app/ReposGatewayImpl.kt:98-99 | a member is found exactly when its key is present, and it is the value stored under that key |
| `Json.AsString` | android/src/main/java/com/why/githubtrendyrepos/app/ReposGatewayImpl.kt:98 | a JSON string reads as its text, and any other kind of value is refused |
| `Json.ToInt32` | android/src/main/java/com/why/githubtrendyrepos/app/ReposGatewayImpl.kt:107 | the result is an `Int` congruent to the number modulo 2^32, and equals it when the number fits |
| `Json.AsInt` | android/src/main/java/com/why/githubtrendyrepos/app/ReposGatewayImpl.kt:107 | a JSON number reads as its 32-bit value, and any other kind of value is refused |
| `RepoDeserializer.Deserialize` | android/src/main/java/com/why/githubtrendyrepos/app/ReposGatewayImpl.kt:90-116 | succeeds exactly on well-formed items; `name`, `owner.login`, `owner.avatar_url` and `stargazers_count` are copied into `name`, `author`, `avatarUrl` and `starsCount`; a null description becomes "" and a string one is kept |
| `RepoDeserializer.DeserializeAll` | android/src/main/java/com/why/githubtrendyrepos/app/ReposGatewayImpl.kt:60 | the list succeeds exactly when every item is well-formed; then it has one `Repo` per item, in order, each the item's own `Repo` |
| `RepoDeserializer.DeserializeRoundTrip` | android/src/main/java/com/why/githubtrendyrepos/app/ReposGatewayImpl.kt:109-115 | every `Repo` is read back unchanged from the item holding its fields |
| `RepoDeserializer.NullDescriptionIsEmpty` | android/src/main/java/com/why/githubtrendyrepos/app/ReposGatewayImpl.kt:99-103 | an explicit null description reads as "", and the other fields are kept |
| `RepoDeserializer.MissingItemKeyFails` | android/src/main/java/com/why/githubtrendyrepos/app/ReposGatewayImpl.kt:98-107 | an item without `name`, `description`, `owner` or `stargazers_count` yields no `Repo` |
| `RepoDeserializer.MissingOwnerKeyFails` | android/src/main/java/com/why/githubtrendyrepos/app/ReposGatewayImpl.kt:104-106 | an owner without `login` or `avatar_url` yields no `Repo` |
| `RepoDeserializer.UnknownKeysIgnored` | android/src/main/java/com/why/githubtrendyrepos/app/ReposGatewayImpl.kt:96-107 | adding or changing a key of the item that is not read leaves the result unchanged |
| `RepoDeserializer.UnknownOwnerKeysIgnored` | android/src/main/java/com/why/githubtrendyrepos/app/ReposGatewayImpl.kt:104-106 | adding or changing a key of the owner other than `login` and `avatar_url` leaves the result unchanged |
| `RepoDeserializer.ExampleNullDescription` | android/src/main/java/com/why/githubtrendyrepos/app/ReposGatewayImpl.kt:98-115 | the item foo/null/bar/u/5 reads as `Repo("foo", "", "bar", "u", 5)` |
| `RepoDeserializer.ExampleMissingStars` | android/src/main/java/com/why/githubtrendyrepos/app/ReposGatewayImpl.kt:107 | the same item without `stargazers_count` is refused rather than given 0 stars |
| `Gateway.AsEntries` | android/src/main/java/com/why/githubtrendyrepos/app/ReposGatewayImpl.kt:79-82 | a result is written as a one-entry map, keyed `Ok` for a value and `Error` for a failure |
| `Gateway.ReadAsEntries` | android/src/main/java/com/why/githubtrendyrepos/app/ReposGatewayImpl.kt:79-82 | reading back the map of a result gives the result |
| `Gateway.ReadEntriesExact` | android/src/main/java/com/why/githubtrendyrepos/app/ReposGatewayImpl.kt:79-82 | a map that reads as a result is exactly that result's map |
| `Gateway.Handle` | android/src/main/java/com/why/githubtrendyrepos/app/ReposGatewayImpl.kt:33-51 | a map is returned exactly for a value, an unknown host, 403 or 422; it has one entry, never both keys, reads as a union value, and holds `Ok` exactly for a value; another client-error status escapes as a runtime failure with that status; anything else escapes unchanged |
| `Gateway.HandleSuccess` | android/src/main/java/com/why/githubtrendyrepos/app/ReposGatewayImpl.kt:35 | a value v gives exactly the map `{Ok: v}` |
| `Gateway.HandleRecoverableErrors` | android/src/main/java/com/why/githubtrendyrepos/app/ReposGatewayImpl.kt:36-49 | 403 gives `{Error: RateLimitExceeded}`, 422 gives `{Error: DataLimitReached}`, an unknown host gives `{Error: NoConnectivity}` |
| `Gateway.HandleOtherStatusIsFatal` | android/src/main/java/com/why/githubtrendyrepos/app/ReposGatewayImpl.kt:44-46 | every client-error status other than 403 and 422, 404 for instance, escapes as a fatal runtime failure carrying the status |
| `Gateway.HandleServerErrorEscapes` | android/src/main/java/com/why/githubtrendyrepos/app/ReposGatewayImpl.kt:34-50 | a server-error status, 500 for instance, is caught by neither handler and escapes unchanged, never as a result map |
| `Gateway.ReadItems` | android/src/main/java/com/why/githubtrendyrepos/app/ReposGatewayImpl.kt:60 | the items are returned exactly when the body carries an `items` array whose every item is well-formed, whatever other keys the body has; then one `Repo` per item, in order, each read from its item; any other body throws a malformed response; a failed request's failure passes through unchanged |
| `Gateway.GetMostStaredReposSince` | android/src/main/java/com/why/githubtrendyrepos/app/ReposGatewayImpl.kt:53-61 | the call returns the `Ok` entry exactly when the answer for the search URL is a body whose items all deserialize, and then only that entry, with one `Repo` per item in order; any other body escapes as a malformed response; a failed request is classified as `handle` classifies it |
| `Gateway.GatewayAsksOnlyForSearchUrl` | android/src/main/java/com/why/githubtrendyrepos/app/ReposGatewayImpl.kt:57-60 | the call depends on the HTTP client only through its answer for the search URL built from the date and page |
| `Gateway.GatewaySuccess` | android/src/main/java/com/why/githubtrendyrepos/app/ReposGatewayImpl.kt:53-61 | for any body whose `items` are all well-formed, the call returns only an `Ok` entry holding one `Repo` per item, in order, each read from its item |
| `Gateway.GatewayMalformedItem` | android/src/main/java/com/why/githubtrendyrepos/app/ReposGatewayImpl.kt:60 | for any body, one malformed item makes the whole call escape as a fatal failure, never a partial list |
| `Gateway.GatewayMissingItems` | android/src/main/java/com/why/githubtrendyrepos/app/ReposGatewayImpl.kt:60 | a body without an `items` array escapes as a fatal failure, not as an empty page |
| `Gateway.GatewayExample` | android/src/main/java/com/why/githubtrendyrepos/app/ReposGatewayImpl.kt:53-61 | a body whose `items` hold the one foo/null/bar/u/5 item gives `{Ok: [Repo("foo", "", "bar", "u", 5)]}` |

## Left out

- Building the Ktor `HttpClient`, wiring Gson into its JSON feature, and
  `close()` (ReposGatewayImpl.kt:63-75). This is library setup and resource
  release; the HTTP client is the `get` parameter of
  `Gateway.GetMostStaredReposSince`.
- The network request itself and the coroutine suspension. The answer to
  the request is an input (`Outcome`), so there is no I/O, concurrency or
  cancellation in the model.
- `LocalDate.toString()` (ReposGatewayImpl.kt:57). The model takes the
  date already formatted; the URL lemmas assume the 10-character
  `YYYY-MM-DD` shape that years 0000-9999 produce.
- The text of the fatal `RuntimeException`. It is `status.toString()`,
  which is the code followed by its reason phrase. The model keeps the
  status code only, and compares statuses by code as Ktor's
  `HttpStatusCode` equality does.
- Which exception class a decoding failure raises (a null dereference, an
  illegal state, an unsupported operation). The model has one
  `MalformedResponse` failure for all of them.
- RepoDeserializer.Deserialize: Gson's lenient conversions are not
  modelled. Gson's `asString` also renders numbers and booleans and reads
  through a one-element array, and its `asInt` also parses numeric strings.
  The model refuses those values, so it accepts fewer items than Gson.
- RepoDeserializer.DeserializeAll: a JSON `null` element of `items` is
  refused. Gson would put a null entry in the list without calling the
  deserializer.
- JSON numbers with a fractional part or an exponent. `Json.JNumber`
  holds integers only.
- The response wrapper class (`Repos`) is not part of this model. A body
  without an `items` array is treated as malformed.
- The theme selection and the navigation view model and its tests. They
  are presentation code with no part in the gateway.
