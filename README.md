# Game instance relay — Dafny model

A model of the single-value HTTP relay in `Relay_server6.py`. The relay keeps one
optional string, `latest_id`, that starts out absent. Two routes post a new identifier:
`GET /post/<game_id>` and `POST /post` with a JSON body `{"id": ...}`. An identifier is
accepted exactly when its length is 36 (a UUID) or at least 64 (a long hex string). The
characters themselves are not checked. `GET /clear` resets the value. `GET /latest`
returns the value as plain text. `GET /` shows it on a status page: a value longer than
40 characters is cut to its first and last 20 characters plus a line with the full length.

Files:

- `wrappers.dfy`: `Option`, standing for Python's `None` or a `str`.
- `format.dfy` (module `Format`): the pure string formatting.
  - `Decimal` is Python's `str(n)`. It is proved against a reader, `DecimalValue`.
  - `LengthNote` is the full-length line of the status page.
  - `Preview` is the log preview of a posted id.
  - `Display` is the identifier fragment of the status page.
- `relay.dfy` (module `Relay`): the state machine.
  - `Handle` is the reference semantics of one request over the stored value.
  - `Run` serves a sequence of requests one at a time.
  - Lemmas state the per-route rules and the properties of request sequences.
  - The class `RelayServer` holds the module-level `latest_id` as the field `latest`. Its
    methods update that field in place, and each is proved to agree with `Handle`. Its
    object invariant `Valid()` says the value is absent or passes the length rule.

The JSON body of `POST /post` is given to the model already read, as
`BodyParse = ParseFail | NoIdField | IdStr(s)`.

- `ParseFail` covers the inputs for which the handler's `try` block raises, so that
  the reply is 400 "Bad Request":
  - a body that is not JSON;
  - a JSON value that is not an object (`.get` fails at Relay_server6.py:48);
  - an `id` that is a number, a boolean or null (`len` raises at Relay_server6.py:51).
- `NoIdField` is an object without `id`.
- `IdStr(s)` is a string `id`.

A body without `id` is answered 400 "Invalid ID", not "Bad Request":
`data.get('id', '')` (Relay_server6.py:48) turns it into `""`, which fails the length
rule (`Relay.PostBodyErrors`).

Characters are Dafny's Unicode scalar values. So for strings without lone surrogates,
`|s|` counts what Python's `len` counts on a `str`.

## Model

| member | source | states |
|---|---|---|
| Format.Decimal | Relay_server6.py:76 | the rendering of the length is non-empty, all decimal digits, and has no leading zero unless the number is 0 |
| Format.DecimalRoundTrip | Relay_server6.py:76 | reading the rendered digits back gives the original number |
| Format.LengthNote | Relay_server6.py:76 | the full-length line is the fixed "(Full length: " prefix and " chars)" suffix around digits that read back as the given count and have no leading zero unless the count is 0 |
| Format.Preview | Relay_server6.py:36 | the preview is at most 23 characters; an id of at most 20 characters is shown whole; a longer id is its first 20 characters followed by "..." |
| Format.Elided | Relay_server6.py:76 | a value longer than 40 characters is rendered as its first 20 characters, "...", its last 20 characters and then the length line for its own length |
| Format.Display | Relay_server6.py:75-78 | an absent or empty value shows the placeholder; a value of 1 to 40 characters is shown verbatim; a longer value shows its first 20 characters, "...", its last 20 characters and then the length line for its own length |
| Format.DisplayReportsLength | Relay_server6.py:76 | the number on the status page's length line reads back as the stored value's length |
| Format.DisplaySeventy | Relay_server6.py:75-76 | a 70-character value displays as its first 20 characters, "...", its last 20 characters and "(Full length: 70 chars)" |
| Relay.ValidId | Relay_server6.py:34 | the length rule shared by both post routes (length 36 or at least 64; the characters are not checked); every accepted id is longer than 20 characters, and the only accepted ids of at most 40 characters are the 36-character ones |
| Relay.LatestBody | Relay_server6.py:26 | the reply of `/latest` is the stored value when there is one and "" when it is absent |
| Relay.Handle | Relay_server6.py:22-67 | one request sets the value to the target of a clear or accepted post and otherwise leaves it; it keeps the invariant; every 400 reply leaves the value unchanged; every reply is 200 or 400 |
| Relay.PostAcceptedIff | Relay_server6.py:34-39 | the path route and the body route give identical outcomes for the same id; a post is answered "OK" iff the id's length is 36 or at least 64, and then stores exactly that id; otherwise the reply is 400 "Invalid ID" and the value is unchanged |
| Relay.PostBodyErrors | Relay_server6.py:46-59 | an unreadable body gives 400 "Bad Request" and a body without `id` gives 400 "Invalid ID"; neither changes the value |
| Relay.ReadsChangeNothing | Relay_server6.py:23-26 | `/latest` returns 200 with the stored value or "" and changes nothing; the status page changes nothing |
| Relay.ClearIdempotent | Relay_server6.py:62-67 | clear answers 200 "OK" and empties the value; clearing twice equals clearing once; `/latest` is "" afterwards |
| Relay.AcceptedPreview | Relay_server6.py:53 | an accepted id is never empty and its log preview is always its first 20 characters followed by "..." |
| Relay.DisplayOfStored | Relay_server6.py:75-78 | under the invariant, an absent value shows the placeholder, a stored 36-character id is shown whole, and a stored id of 64 or more characters is shown as first 20 + "..." + last 20 followed by exactly the length line for its length |
| Relay.RunKeepsInvariant | Relay_server6.py:16-65 | every sequence of requests from a value that is absent or valid ends in a value that is absent or valid |
| Relay.QuietRun | Relay_server6.py:46-59 | requests that are neither a clear nor an accepted post (reads, rejected posts, bad bodies) leave the value as it was |
| Relay.LastWriteWins | Relay_server6.py:29-67 | after a sequence of requests the value is the one left by the last clear or accepted post |
| Relay.LatestAfterPost | Relay_server6.py:26-52 | after an accepted post of an id on either route, `/latest` returns exactly that id until the next accepted post or clear |
| Relay.RelayServer.constructor | Relay_server6.py:16 | the server starts with no value, which satisfies the invariant |
| Relay.RelayServer.GetLatest | Relay_server6.py:23-26 | returns 200 with the stored value or "" and agrees with `Handle` |
| Relay.RelayServer.PostIdGet | Relay_server6.py:29-39 | an accepted path id overwrites the field and answers "OK"; a rejected one answers 400 "Invalid ID" and leaves the field; the invariant is kept; agrees with `Handle` |
| Relay.RelayServer.PostIdJson | Relay_server6.py:42-59 | an unreadable body answers "Bad Request", a missing or rejected id answers "Invalid ID", both leaving the field; an accepted id overwrites it and answers "OK"; the invariant is kept; agrees with `Handle` |
| Relay.RelayServer.Clear | Relay_server6.py:62-67 | empties the field and answers "OK"; agrees with `Handle` |
| Relay.RelayServer.Home | Relay_server6.py:70-78 | the displayed fragment is the placeholder, the whole 36-character id, or the elided form of a longer id followed by the length line; agrees with `Handle` |

## Left out

- Flask application setup, CORS, the werkzeug log level and the port read from the environment (Relay_server6.py:1-11, 125-129): framework and process plumbing.
- `request.get_json()` (Relay_server6.py:47), a library call: its result is an input of type `BodyParse`.
- A JSON `id` that is an array or an object: Python's `len` measures it. One of length 36 or at least 64 is stored in place of a string; any other is answered 400 "Invalid ID". `BodyParse` has no such ids, because the stored value is a string in this model.
- The HTML template and its 2-second meta-refresh (Relay_server6.py:80-119): static text. The status-page reply is modelled as the identifier fragment `display_id` only.
- The `print` calls: console output. The preview text they print is modelled as `Format.Preview`.
- Concurrency: the source takes no lock, and the model serves requests one at a time. `Relay.LastWriteWins` covers every serialisation of concurrent writers, but not a torn value.
- The Content-Type header of `/latest`: a constant of the reply, not modelled.
- Relay.Handle: a `print` that raises is not modelled. Examples are a lone surrogate in the id, or a console that cannot encode the log line's emoji. On `POST /post` the store at Relay_server6.py:52 runs before the `print` at :53, inside the `try`, so the reply would be 400 "Bad Request" after the value was replaced. On `GET /post/<game_id>` the `print` at :36 is outside any `try`, so the reply would be a 500 after the store at :35. Handle's "every 400 reply leaves the value unchanged" and "every reply is 200 or 400" hold only when logging succeeds.
- Relay.RelayServer.PostIdJson: assumes the log line at Relay_server6.py:53 is printed without error (see Relay.Handle above).
- Relay.RelayServer.PostIdGet: assumes the log line at Relay_server6.py:36 is printed without error (see Relay.Handle above).
- Lone surrogates: a Python `str` can hold them, a Dafny `string` cannot, so ids containing them are not modelled.
