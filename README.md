# Abstract resource client: URL assembly, argument resolution, transfer progress

This project models the core of `AbstractRequest`, the generic REST resource
client of ngx-request-encapsulation. A concrete client sets three strings
(`base_url`, `path_version_api`, default `api/`, and `path`) and inherits:

- **URL assembly** (`getUrl`): `base_url + path_version_api + path`, then an
  action segment (`/action` unless the action is the empty string), then
  either `/<id>` for a numeric identifier or `?k=v&...` for any other non-null
  value, with no escaping and no slash normalisation.
- **Argument resolution** of `get`, `getPage`, `getQueryPage`, `post`, `put`,
  `delete`, `upload` and `download`: each inspects the runtime types of its
  loosely typed arguments and rewrites them into the `(action, idOrQuery)`
  pair it hands to `getUrl`.
- **Transfer progress** (`getStatusMessage`): `upload` and `download` map
  every transport event to a status message. A progress event also stores
  its rounded percentage in `uploadProgress` or `downloadProgress`. The
  result of the transfer is the message of the last event.

`src/request-abstract.ts` and `src/abstract-request.ts` hold the same class.
They differ only in comment language and in the interface they name, and
their lines match one for one. One model covers both, and a citation of
either file's lines applies to the other.

Files:

- `url.dfy`, module `Url`. JavaScript argument values are the datatype `Arg`
  (`Undefined | Null | Num | Str | Obj`). It also holds `Config`, the decimal
  text of integers with its reader `ParseInt`, query rendering `JoinPairs`
  with its reader `ParseQuery`, and `GetUrl`.
- `requests.dfy`, module `Requests`. One `Call` variant per public operation
  carries that operation's arguments. `Resolve` applies the operation's type
  tests and defaults, and `RequestUrl` is the URL the operation requests.
- `progress.dfy`, module `Progress`. It defines the transport events, the
  rounding `Percent`, `StatusMessage` and `Step` for one event, and `Fold` for
  a whole stream. It also defines `LastIndex`, an independent description of
  what the fold leaves in each field.
- `client.dfy`, module `Client`. The class `AbstractRequest` has the two
  progress fields, and `GetStatusMessage` updates them in place. `Transfer`
  is the loop over the event stream. `Upload` and `Download` compose the URL
  with that loop. Their contracts tie the new field values to `Fold` and the
  result to the last event's message.

Notable behaviours of the code, all of which the model keeps:

- The progress field that changes depends on the event kind
  (`UploadProgress` or `DownloadProgress`), not on which operation started
  the transfer.
- The transfer result is the message of the last event. It equals a
  response body only when the last event is the response.
- `put` does not read a string identifier as the action. Only `delete`,
  `upload` and `download` do. `put` and `get` hand a string to `getUrl` as a
  query, which expands it character by character (`?0=a&1=b`).
- An empty query object still yields a bare trailing `?`.
- `PercentBounds` guarantees a percentage in 0..100 when
  `0 <= loaded <= total`. Outside that range the value can leave 0..100
  (`Percent(300, 100)` is 300).
- With the field initialisers the prefix is `api/`, so an action lands
  behind a doubled slash: `api//users/7`.
- `getQueryPage` sends a query string (at least a bare `?`) when neither its
  action nor its query is `null`. `typeof null` is `'object'`, so a `null`
  action becomes the query and renders as nothing; a `null` query renders as
  nothing unless an object action replaces it.
- `getQueryPage` has no numeric branch for its first argument, although its
  doc comment calls it the action or the page number: `getQueryPage(5)`
  requests `prefix/5/0/10?`, while `getPage(5)` requests `prefix/page/5/10`.
- The progress fields are never reset, so a second transfer on the same
  client starts from the value the first one left.

## Model

| member | source | states |
|---|---|---|
| `Url.NatToString` | src/request-abstract.ts:42 | the text of a natural number is non-empty, all decimal digits, and starts with `0` exactly when the number is 0 |
| `Url.IntRoundTrip` | src/request-abstract.ts:42 | reading back the decimal text of any integer, sign included, gives the integer |
| `Url.IntToStringInjective` | src/request-abstract.ts:42 | distinct integers have distinct decimal texts |
| `Url.IntToString` | src/request-abstract.ts:42 | the text of an integer is an optional `-` (present exactly for negatives) followed by decimal digits only |
| `Url.JoinPairs` | src/request-abstract.ts:44 | the rendered query is empty exactly when there are no entries |
| `Url.StringEntriesReadBack` | src/request-abstract.ts:44 | `Object.keys` of a string yields one entry per character; each key reads back as its position, so keys are pairwise distinct, and the values in order spell the string again |
| `Url.QueryRoundTrip` | src/request-abstract.ts:44 | when no key holds `&` or `=` and no value holds `&`, reading the rendered `k=v&...` text back gives the entries in order |
| `Url.UnescapedQueryCollides` | src/request-abstract.ts:44 | nothing is escaped: the query {a: "1&b=2"} renders the same as {a: "1", b: "2"} |
| `Url.TextRules` | src/request-abstract.ts:37-39 | a value in an action slot prints as itself when a string and as text reading back as the number when a number; only the empty string prints as nothing |
| `Url.SegmentRules` | src/request-abstract.ts:37-45 | the action segment is empty exactly for an absent or empty action, else `/` and the action's text; the parameter segment is empty exactly for `null` and absent values, starts with `/` exactly for a number (whose text reads back as it) and with `?` for anything else |
| `Url.GetUrlShape` | src/request-abstract.ts:36-48 | every URL starts with `base_url + path_version_api + path`, and equals it exactly when no action and no id or query are given |
| `Url.DefaultConfigUrl` | src/request-abstract.ts:18-47 | the field initialisers give the prefix `api/`, so `getUrl('users', 7)` is `api//users/7` |
| `Url.ActionSegmentRule` | src/request-abstract.ts:36-47 | an absent action equals the empty action and adds nothing; any other action is inserted verbatim behind exactly one `/`, between the prefix and the parameter segment |
| `Url.NumericIdUrl` | src/request-abstract.ts:41-47 | a numeric id gives `prefix + action segment + "/" + decimal id`, and when prefix and action hold no `?`, neither does the URL |
| `Url.NumericIdInjective` | src/request-abstract.ts:41-47 | for one action, distinct numeric ids give distinct URLs |
| `Url.AbsentIdUrl` | src/request-abstract.ts:40-47 | `null` or an absent `idOrQuery` adds nothing after the action segment |
| `Url.QueryUrl` | src/request-abstract.ts:43-47 | a query object gives `prefix + action segment + "?" + entries joined by &`, and an empty object leaves a bare `?` |
| `Url.QueryUrlRoundTrip` | src/request-abstract.ts:36-47 | splitting a query URL at its first `?` gives back the prefix with the action segment and, for unambiguous entries, the query itself |
| `Url.StringQueryUrl` | src/request-abstract.ts:43-44 | a string where a query is expected expands per character: `"ab"` gives `?0=a&1=b` |
| `Requests.StringIdAsAction` | src/request-abstract.ts:127-131 | for `delete`, `upload` and `download` a string id becomes the action and the id `null`, and any other id passes with the explicit action; a string never reaches `getUrl` as a query |
| `Requests.ResolvePage` | src/request-abstract.ts:69-74 | `getPage` always passes a string path and `per_page` (default 10) as a numeric id; a numeric action gives the path `page/<n>` |
| `Requests.ResolveQueryPage` | src/request-abstract.ts:85-97 | `getQueryPage` always passes a string path and never a numeric or absent id, and an object or `null` action becomes the query |
| `Requests.Resolve` | src/request-abstract.ts:58-168 | per operation: `getPage` passes a numeric id, `getQueryPage` never does, `post` passes no id, `delete`/`upload`/`download` never pass a string query, and `get`/`put` pass their arguments through |
| `Requests.QueryPageSendsQuery` | src/request-abstract.ts:85-97 | when neither its action nor its query is `null`, `getQueryPage`'s URL holds a `?` after the prefix |
| `Requests.QueryPageNullAction` | src/request-abstract.ts:92-97 | `getQueryPage(null, ...)` sends no query at all: its URL holds no `?` when the prefix holds none |
| `Requests.GetNumericAction` | src/abstract-request.ts:58-59 | `get(n)` requests the same URL as `get('', n)`, namely `prefix/<n>` |
| `Requests.GetStringIdIsQuery` | src/request-abstract.ts:58-59 | `get` does not read a string id as the action: `get(undefined, "ab")` requests `prefix?0=a&1=b` |
| `Requests.GetPageUrl` | src/request-abstract.ts:69-74 | with a named action the URL is `prefix/<action>/<page>/<per_page>`, where page defaults to 0 and per_page to 10 and per_page is always the numeric id; an absent action is `page` |
| `Requests.GetPageNumberOverride` | src/request-abstract.ts:70-73 | a numeric first argument is the page, whatever the second argument says, and the action becomes `page` |
| `Requests.GetPageNoArguments` | src/request-abstract.ts:69-74 | `getPage()` requests `prefix/page/0/10` |
| `Requests.GetPageNumberOnly` | src/request-abstract.ts:69-74 | `getPage(3)` requests `prefix/page/3/10` |
| `Requests.GetQueryPageUrl` | src/request-abstract.ts:85-97 | with a named action and a query object the URL is `prefix/<action>/<page>/<perPage>?<entries>`; an absent query is `{}` |
| `Requests.GetQueryPageNumericQuery` | src/request-abstract.ts:86-90 | a numeric query becomes the page and the query becomes `{}`; the perPage argument is discarded and replaced by the page argument when positive, else by 10 |
| `Requests.GetQueryPageObjectAction` | src/request-abstract.ts:92-95 | an object action replaces a non-numeric query argument, and the action becomes `page-query` |
| `Requests.GetQueryPageNumberAction` | src/request-abstract.ts:80-97 | a numeric first argument is not read as the page: `getQueryPage(5)` requests `prefix/5/0/10?` |
| `Requests.GetQueryPageExample` | src/request-abstract.ts:85-97 | `getQueryPage({status: 'open'}, 2, 5)` requests `prefix/page-query/2/5?status=open` |
| `Requests.PostUrl` | src/abstract-request.ts:106-108 | `post` never appends an id or a query: its URL is the prefix plus the action segment |
| `Requests.PutPassesThrough` | src/abstract-request.ts:117-119 | `put` hands its id or query and its action to `getUrl` unchanged |
| `Requests.StringIdIsAction` | src/request-abstract.ts:127-169 | for `delete`, `upload` and `download`, a string in the id slot is the action, the id is cleared and any explicit action is ignored |
| `Requests.NonStringIdPassesThrough` | src/request-abstract.ts:127-169 | numeric, object, null and absent ids reach `getUrl` unchanged in `delete`, `upload` and `download`, as in `put` |
| `Requests.DeleteExamples` | src/request-abstract.ts:127-133 | `delete('archive')` requests `prefix/archive` and `delete(42)` requests `prefix/42`, while `put` with the string `"ab"` requests `prefix?0=a&1=b` |
| `Progress.Percent` | src/request-abstract.ts:187 | the stored percentage p is `Math.round(100 * loaded / total)`: the integer with `p - 1/2 <= 100 * loaded / total < p + 1/2` |
| `Progress.PercentBounds` | src/abstract-request.ts:186-192 | when `0 <= loaded <= total` and `total > 0`, the percentage lies in 0..100 |
| `Progress.PercentMonotone` | src/request-abstract.ts:187 | for one total, more bytes loaded never gives a smaller percentage |
| `Progress.PercentNonNegative` | src/request-abstract.ts:191 | a non-negative byte count gives a non-negative percentage |
| `Progress.StatusMessageReadBack` | src/request-abstract.ts:181-199 | a progress message is `Files are `, then text that reads back as the percentage, then `% uploaded` or `% downloaded` by the event's kind; `Sent` gives `Uploading Files`, the response its body, any other event `Something went wrong` |
| `Progress.Step` | src/request-abstract.ts:186-193 | one event sets the field of its own progress kind to its percentage and leaves every other field alone |
| `Progress.Fold` | src/request-abstract.ts:151-155 | a stream without progress events leaves both fields unchanged |
| `Progress.FoldTracksLatest` | src/request-abstract.ts:183-197 | after any stream, each progress field holds the percentage of the last progress event of its own kind, or its earlier value when there is none; `Sent`, `Response`, other events and events of the other kind never change it |
| `Progress.ProgressNeverDecreases` | src/request-abstract.ts:151-155 | from a start value of at most 0, or from the first progress event of its kind on, over a stream whose progress events of one kind share a total and never lose bytes, that field never decreases from one event to the next, whatever events come in between |
| `Progress.UploadExample` | src/request-abstract.ts:151-155 | upload events of 0, 50 and 100 bytes out of 100, then the response, leave the upload field at 0, 50 and 100 in turn, and the last message is the response body |
| `Client.AbstractRequest.constructor` | src/abstract-request.ts:12-13 | both progress fields start at 0 |
| `Client.AbstractRequest.GetStatusMessage` | src/abstract-request.ts:181-199 | returns `Uploading Files` for `Sent`, `Files are <p>% uploaded` or `downloaded` for progress events, the body for `Response` and `Something went wrong` otherwise; a progress event sets the field of its own kind, and nothing else changes |
| `Client.AbstractRequest.Transfer` | src/request-abstract.ts:151-155 | after a non-empty stream the result is the message of the final event (the body, when that event is the response) and the fields equal `Fold` of their old values over the stream |
| `Client.AbstractRequest.Upload` | src/request-abstract.ts:142-156 | the POST goes to the URL `upload`'s argument resolution gives; result and fields as in `Transfer` |
| `Client.AbstractRequest.Download` | src/abstract-request.ts:164-179 | the GET goes to the URL `download`'s argument resolution gives; result and fields as in `Transfer` |

## Left out

- The HTTP transport is not modelled. That covers the `get`/`post`/`put`/`delete`/`request` calls, the request options (`reportProgress`, `responseType`), the request bodies (`model`, `form`) and the `HttpClient` constructor argument. The model keeps only the URL each operation passes. In `Upload` and `Download` the transport's event stream is a parameter.
- The rxjs `Observable` and `BehaviorSubject` machinery is not modelled. The two subjects are plain integer fields that hold the latest value, and subscription and late-subscriber semantics are left out.
- `console.log` of each status message is a logging side effect and is left out.
- Floating point: `Math.round(100 * loaded / total)` is computed exactly on integers as `(200 * loaded + total) / (2 * total)`. This needs `total > 0` (the predicate `Measurable`), so a zero, negative or unknown total (NaN or Infinity in the code) is not modelled.
- Numbers in arguments are integers. Fractional, NaN, infinite and `-0` ids, pages and page sizes are not modelled.
- A query object is its `Object.keys` entries in the order JavaScript lists them, with values already converted to strings. Nested objects and arrays in argument slots are not modelled. A plain object stringifies as `[object Object]`.
- `src/interface-request.ts` holds only overload signatures and no executable logic. It is not part of this model.
- The `Page` type is an opaque response payload that the client never builds. It is left out.
- Client.AbstractRequest.Transfer: requires a non-empty event stream, since `last()` fails on an empty stream. It also requires every progress event to have `total > 0`. The same holds for `Upload`, `Download` and `GetStatusMessage`.
- Progress.ProgressNeverDecreases: holds only under the transport's ordering promise (one total per direction, byte counts that never decrease), and before the first progress event of its kind only from a field value of at most 0. The code never resets the fields, so a later transfer can start below the value an earlier one left.
- Url.IntToString: JavaScript prints integers of magnitude 10^21 or more in exponential form (`1e+21`), and ids beyond 2^53 are not exact doubles. The model prints every `int` in plain decimal, and `IntRoundTrip` covers all of them.
- Url.StringEntriesReadBack: `Object.keys` of a string gives one key per UTF-16 code unit, while a Dafny `char` is a Unicode scalar value. A character outside the Basic Multilingual Plane is one entry here and two keys in JavaScript.
- The response body is `any` in the code, and for `download` an `ArrayBuffer` (`responseType: 'arraybuffer'`). `Response` carries a string, so the transfer result is modelled as text.
