# logme-link flow model in Dafny

This project models the core of logme-link: a short-code redirection service for
OAuth-style authorisation flows. A client creates a flow for a service plugin
(`pocket`). It receives a short human-typable code and a long secret. The code
holder is sent to the service (`redirect`) and comes back (`register`). The
secret holder watches the two flags `redirected` and `registered` (`fetch_info`).

The model is functional. Redis is an immutable map from key to a value and an
expiry tick on a logical clock (`Store`). Each Redis transaction is one map
update. Each request handler is a pure function: it takes the store and the
clock, and returns its answer and the store after its write. Randomness,
`urllib.parse.quote`, pub/sub delivery and the environment are inputs.

Modules:

- `Wrappers`: `Option` and `Result`.
- `Codes` (codes.dfy): the alphabet `CHARS`, `_code`, `_normalise`, and ASCII `upper()`/`lower()`.
- `Pocket` (pocket.dfy): the Pocket plugin's `parse_creation`, `redirect_url` and URL template.
- `Records` (records.dfy): the flow record, its JSON-object view, and the overlay and update merges.
- `Store` (store.dfy): keys with expiry, `GET` and `SET`+`EXPIRE`.
- `Server` (server.py handlers): `_info`, `create`, `redirect`, `register`, `fetch_info`, including the bounded wait loop.
- `Flow`: properties that span several requests.

Behaviour of the code worth knowing:

- `_normalise` only upper-cases. The two `replace` calls discard their results, so `0` and `1` are not rewritten to `O` and `I`. `Codes.NormaliseKeepsAmbiguousDigits` proves that a code typed with `0` or `1` cannot match a generated code.
- An update refreshes the expiry of the record only. The code pointer keeps the expiry it got at creation (`Flow.TransitionKeepsPointer`). The two entries do not expire in lockstep after a transition.
- `register` uses the record's `final_redirect_url` whenever that key is present, even when it is empty. In that case it falls back to the success page, not to the process default.

## Model

| member | source | states |
|---|---|---|
| Codes.AlphabetShape | server.py:58 | the alphabet has 34 symbols, A-Z then 2-9, so it has no lower-case letter and neither `0` nor `1` |
| Codes.AlphabetDistinct | server.py:58 | each symbol appears once in the alphabet |
| Codes.Code | server.py:59-60 | `_code(size)` has length exactly `size`; its i-th character is the alphabet symbol at the i-th random draw, so it lies in the alphabet |
| Codes.CodeRoundTrip | server.py:58-60 | every string over the alphabet can be generated, by exactly one sequence of draws |
| Codes.Normalise | server.py:62-66 | the result has the input's length and no lower-case letter; it equals the input up to letter case; every other character, `0` and `1` included, is unchanged |
| Codes.NormaliseIdempotent | server.py:62-66 | normalising twice equals normalising once |
| Codes.NormaliseKeepsAmbiguousDigits | server.py:64-65 | a `0` or `1` survives normalisation, so the normal form is not over the alphabet |
| Codes.NormaliseFixesAlphabet | server.py:58-66 | every generated code and secret is its own normal form |
| Codes.LowerThenNormalise | server.py:126-134 | the lower-cased key placed in the URL normalises back to the key |
| Codes.NormaliseCaseInsensitive | server.py:62-66 | two texts normalise alike iff they are equal up to letter case |
| Pocket.ParseCreation | services/pocket.py:3-6 | the params hold only `token`: the body's token, or `""` when the body has none |
| Pocket.ParseCreationIgnoresQuery | services/pocket.py:3-6 | the query string has no effect on the params |
| Pocket.RedirectUrl | services/pocket.py:1-12 | the URL is the fixed prefix, then the token verbatim, then `&redirect_uri=`, then the URI verbatim |
| Pocket.RedirectUrlDetermines | services/pocket.py:8-12 | for tokens of equal length, equal URLs mean equal tokens and equal URIs |
| Records.Build | server.py:105-113 | the new record has the service name and both flags false; its final URL comes from the body when the body has one; its params are the plugin's fields minus the base field names |
| Records.BuildIsOverlay | server.py:105-113 | the stored JSON object is the plugin dict updated with `base_info`, so base fields override plugin fields of the same name |
| Records.Merge | server.py:75-76 | flags named in the update take the update's value; other flags, the service, the final URL and the params are kept |
| Records.MergeIsDictUpdate | server.py:75-76 | merging is `dict.update` on the record's JSON object |
| Records.MergeIdempotent | server.py:75-76 | applying an update twice equals applying it once |
| Store.GetAfterSetEx | server.py:78-81 | after `SET` plus `EXPIRE` the key reads its new value until now+ttl and is absent afterwards; all other keys read as before |
| Store.ExpiredStaysAbsent | server.py:119-120 | once the expiry is reached the key stays absent |
| Server.Info | server.py:68-83 | a missing secret is NotFound; the result is the stored record merged with the update; with an empty update the store is unchanged; otherwise the secret gets the merged record with expiry now+KEY_TTL and no other key changes |
| Server.ReadRecord | server.py:166 | a plain read returns the stored record when a live record is under the secret and writes nothing |
| Server.Create | server.py:85-128 | an unknown service is an error with no write; otherwise the code points to the secret and the secret holds the fresh record; both expire at now+KEY_TTL; an explicit key is upper-cased; existing entries are overwritten without a check; nothing else changes |
| Server.ResolveCaseInsensitive | server.py:134 | two spellings of a code that differ only in letter case resolve to the same result |
| Server.Transition | server.py:133-139 | a transition succeeds exactly when the normalised code points to a secret holding a live record; an unresolvable code is NotFound with no write; on success flag `f` is true and the other flag and fields are as stored; only the secret's entry changes, and its expiry is reset |
| Server.Redirect | server.py:130-152 | a failed lookup answers with the error and does not write or publish; otherwise it writes, publishes `redirected` on the secret's channel, and redirects to the Pocket URL whose callback is the quoted `/register/<code as typed>`, or reports the service unavailable after the write |
| Server.FinalTarget | server.py:199-205 | a present final URL wins, even an empty one; otherwise the default is used; a non-empty choice is a redirect and anything else is the success page |
| Server.DefaultFinalTarget | server.py:199-205 | with `FINAL_REDIRECT_URL` unset, a record without its own final URL gets the success page |
| Server.Register | server.py:189-205 | a failed lookup answers with the error and does not write; otherwise it writes, publishes `registered`, and answers with the final target |
| Server.FilterStatuses | server.py:161-163 | only `registered` and `redirected` are kept, each as often as it was requested |
| Server.FilterKeepsStatuses | server.py:163 | a list made only of `registered`/`redirected` passes the filter unchanged |
| Server.FilterStatusesIdempotent | server.py:163 | filtering the filtered list changes nothing |
| Server.Listen | server.py:172-181 | the loop waits at most `budget` times and ends at the first timeout or first message naming a requested status; it reports `Exhausted`, with the whole budget used, exactly when none of the `budget` waits stops it |
| Server.FetchInfo | server.py:155-186 | a missing record is reported at once; with no requested status, or one already true, the first read is returned without subscribing; otherwise it subscribes, waits until the first timeout or first message naming a requested status (at most 10 waits), and returns a fresh read |
| Flow.CreatedKeyHasNoLower | server.py:101-103 | the key of a created flow has no lower-case letter |
| Flow.CreateThenResolve | server.py:115-134 | right after creation the secret reads a record with both flags false, and the code resolves to the secret both as returned and lower-cased |
| Flow.CreateThenExpire | server.py:115-137 | after the lifetime with no request in between, redirect and register are NotFound and write nothing, and a wait is NotFound at once |
| Flow.InfoThenRead | server.py:75-83 | the record `_info` returns after an update is what a read of the secret finds until the new expiry |
| Flow.TransitionFlagsMonotone | server.py:134-139 | no transition turns a true flag of any record back to false |
| Flow.TransitionKeepsPointer | server.py:78-80 | a transition leaves the code pointer and its expiry untouched |
| Flow.TransitionIdempotent | server.py:192-196 | repeating a transition at the same tick gives the same record and store |
| Flow.TransitionRepeatLater | server.py:75-81 | a repeated transition at a later tick, with the code and the secret still live, finds the same secret and record and rewrites only the secret's expiry |
| Flow.RedirectIdempotent | server.py:130-152 | redirecting again at a later tick while the code and the secret are live answers the same and only moves the secret's expiry to that tick plus KEY_TTL; at the same tick the store is unchanged |
| Flow.RegisterIdempotent | server.py:189-205 | registering again at a later tick while the code and the secret are live answers the same and only moves the secret's expiry to that tick plus KEY_TTL; at the same tick the store is unchanged |
| Flow.ListenStopsAtFirstStop | server.py:175-179 | a stopping event at wait j ends the loop by wait j+1 |
| Flow.WaitSeesRedirect | server.py:169-186 | a waiter for `redirected` on a record without that flag subscribes; a final read of the store after the redirect shows the flag raised |
| Flow.PocketScenario | server.py:101-200 | the full Pocket flow: the redirect URL carries the token, a later wait for `redirected` returns at once with the flag set, and register sets the other flag and goes to the final target |

## Left out

- HTTP plumbing (`error`, `add_routes`, `init`, `isup`, logging, `_parse_qs`, response envelopes). It is I/O. `init` also refers to undefined names.
- Redis pools, connections and `multi_exec`. Each transaction is one atomic map update, and partial writes are not modelled.
- Pub/sub delivery, `asyncio.wait` and the 30-second timeout. The subscription is an input sequence of `Timeout`/`Msg` events. The store that the final read of `fetch_info` sees is an input too.
- Races between concurrent requests. The last writer wins on the whole record, and that behaviour only exists under concurrency.
- JSON encoding and decoding. The record is a datatype. The request body is a map from strings to strings: non-string JSON values and an undecodable body are not modelled.
- `urllib.parse.quote` is an uninterpreted function parameter of `Server.Redirect`.
- `random.choice` is not modelled. `Codes.Code` takes the sequence of draws as input, and `Server.Create` takes the generated code and secret.
- Environment variables are a `Config` value (`KEY_TTL`, `SERVER_URL`, `FINAL_REDIRECT_URL`). `DEFAULT_CONFIG` holds their defaults.
- Codes.Normalise: only ASCII case mapping is modelled (Python's `upper()` also maps non-ASCII letters and can change length).
- Server.ResolveCode: a record found under a code is treated as not found. The source would use that record's JSON text as a secret, which is almost never a key.
- Server.Info: any non-record value under a secret is one `BadRecord` error. The source can do better or worse: a pointer value made only of digits is valid JSON, so `json.loads` gives a number, and `fetch_info` with no `wait` returns that number with status 200 where the model reports an error; other values make `json.loads` or a later dict operation fail.
- Server.Listen: when the event sequence runs out before the loop ends, each remaining wait counts as a timeout.
