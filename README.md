# gitlab-hks-function: a verified model of the HKP-to-GitLab gateway

The gateway answers HKP keyserver requests (draft-shaw-openpgp-hkp-00:
section 3 for `/pks/lookup` with its `op`, `search` and `options` variables,
section 4 for `/pks/add`). It looks up a GitLab user by the search term,
lists that user's GPG key records, decodes each ASCII-armored record into
OpenPGP primary keys, and renders them as an index (machine-readable or JSON)
or as armored key text.

The model covers the decision logic of `functions/proxy.go`. Every outside
call is a collaborator passed in as a function value:

- the HKP lookup parser;
- the index format writers;
- the directory's user search and key listing, each being the HTTP GET plus
  its JSON decoding;
- `armor.Decode`, `openpgp.ReadKeys` and `openpgp.DropDuplicates`.

Modules:

- `Results`: `Result<T>` stands for Go's `(T, error)`. `Err` holds the
  error's text.
- `Text`: `strconv.Itoa` and a decimal parser as its partner. It also holds a
  separator join and `strings.Split` on `/`, with the lemma that splitting
  undoes joining.
- `Paths`: `base()` and `keyURL(id)`. `path.Join` is modelled as dropping
  empty elements and joining the rest with `/`.
- `FailClosed`: `Collect` is the fold that `keys` and `unarmor` share. It
  appends the values of successful steps in order and stops at the first
  failing step, with that step's error and no partial result.
- `Resolver`: `unarmor` and `keys` are methods with loops, proved equal to
  `UnarmorSpec` and `KeysSpec`. Lemmas about those spec functions state the
  promises: exactly one matching user, in-order concatenation, one key per
  key read, and the first error wins.
- `Dispatcher`: `Keyserver`, `get` and `index` are pure functions. Each
  returns the trace of effects the handler performs, in order:
  - `http.Error` calls;
  - the call into `keys`;
  - the Content-Type header;
  - the renderer that runs.

  A trace can hold more than one status write, because the not-found branch
  for an unknown path has no `return`. The status the client receives is the
  first one in the trace.

Every error branch of `Keyserver` returns except the unknown-path one: it
writes 404 and the request is then handled as a lookup. The model follows
the code (`Keyserver`). It gives the version with the return as
`KeyserverIntended` (see Findings).

## Model

| member | source | states |
|---|---|---|
| `Text.Decimal` | functions/proxy.go:58 | decimal digits of a natural number, all digits, at least one; the first digit is '0' exactly for zero |
| `Text.Itoa` | functions/proxy.go:58 | `strconv.Itoa`: a non-empty string with no '/', space or ':'; all digits for non-negative numbers |
| `Text.ItoaRoundTrip` | functions/proxy.go:58 | parsing the text `Itoa` prints gives the number back |
| `Text.ItoaInjective` | functions/proxy.go:58 | different user ids give different path segments |
| `Text.SplitJoin` | functions/proxy.go:58 | splitting on '/' recovers slash-free segments joined with '/' |
| `Paths.NonEmpty` | functions/proxy.go:52 | `path.Join` drops empty elements: what it keeps is non-empty, a single element is kept exactly when it is non-empty, and a list with no empty elements is kept whole |
| `Paths.NonEmptyAppend` | functions/proxy.go:58 | the filter works element by element: filtering a concatenation concatenates the filtered parts, so each empty element is dropped wherever it stands and the rest keep their order |
| `Paths.Join` | functions/proxy.go:52-58 | `path.Join` as used here: the non-empty elements joined with '/'; no contract of its own: see `Paths.NonEmpty`, `Paths.NonEmptyAppend`, `Text.SplitJoin`, `Paths.Base`, `Paths.KeyURL` |
| `Paths.Base` | functions/proxy.go:48-54 | the API root is https on the configured host, path `api/v4` with segments `api`, `v4` |
| `Paths.KeyURL` | functions/proxy.go:56-60 | the key listing URL is https on the host, path `api/v4/users/<id>/gpg_keys`, five segments with the id's decimal text fourth |
| `Paths.KeyURLNamesUser` | functions/proxy.go:56-60 | the user id read back from the key listing path is the id it was built for |
| `Paths.KeyURLInjective` | functions/proxy.go:56-60 | two users never share a key listing URL |
| `FailClosed.CollectOkIff` | functions/proxy.go:170-180 | the fail-closed fold succeeds exactly when every step succeeds |
| `FailClosed.CollectConcatenates` | functions/proxy.go:170-180 | when every step succeeds, the fold is the in-order concatenation of their values |
| `FailClosed.CollectFirstError` | functions/proxy.go:171-175 | the first failing step decides the outcome: its error, with no partial result |
| `FailClosed.FlattenSingletons` | functions/proxy.go:200 | appending one element per step keeps one element per step, in order |
| `Resolver.ReadStep` | functions/proxy.go:191-200 | one key read succeeds exactly when the read and its deduplication succeed, giving the deduplicated key; otherwise the read error comes first, then the dedup error |
| `Resolver.UnarmorSpec` | functions/proxy.go:183-204 | what `unarmor` returns: the envelope error, or the fail-closed fold of `ReadStep` over the keys read; no contract of its own: see `Resolver.Unarmor`, `Resolver.UnarmorOneKeyPerRead`, `Resolver.UnarmorFirstError`, `FailClosed.CollectOkIff`, `FailClosed.CollectFirstError` |
| `Resolver.Unarmor` | functions/proxy.go:183-204 | the loop over read keys returns exactly `UnarmorSpec`: the envelope error, or the fail-closed fold of the per-key steps |
| `Resolver.UnarmorOneKeyPerRead` | functions/proxy.go:189-203 | a well-formed blob gives one deduplicated key per key read, in read order |
| `Resolver.UnarmorFirstError` | functions/proxy.go:191-198 | the first key that fails to read or to deduplicate fails the whole blob with its error |
| `Resolver.FormatUser` | functions/proxy.go:154 | the `%v` text of one user record, `{ID Name Username WebURL}`; no contract of its own: see `Resolver.MatchCountError` |
| `Resolver.FormatUsers` | functions/proxy.go:154 | the `%v` text of the user list, bracketed and space-separated; no contract of its own: see `Resolver.MatchCountError` |
| `Resolver.MatchCountError` | functions/proxy.go:153-155 | the match-count message starts with "expected exactly 1 user to match, but got ", then digits that read back as the number of users matched, then ": " and the `%v` listing of every candidate user; the count's first digit is '0' exactly when no user matched |
| `Resolver.ListedRecords` | functions/proxy.go:140-168 | a search error is returned unchanged; any match count but one gives the match-count error; with exactly one match the outcome, records or error, is that of listing `keyURL(users[0].ID)` |
| `Resolver.KeysSpec` | functions/proxy.go:139-181 | what `keys` returns: the outcome of `ListedRecords`, then the fail-closed fold of `unarmor` over the records; no contract of its own: see `Resolver.Keys`, `Resolver.KeysRequireSingleMatch`, `Resolver.KeysConcatenateRecords`, `Resolver.KeysOnePerRecord`, `Resolver.KeysFirstDecodeError` |
| `Resolver.Keys` | functions/proxy.go:139-181 | the loop over records returns exactly `KeysSpec`: the search or listing error, the match-count error, or the fail-closed fold of `unarmor` over the records |
| `Resolver.KeysRequireSingleMatch` | functions/proxy.go:153-155 | zero matches and several matches both fail; success implies exactly one match |
| `Resolver.MatchCountErrorsDiffer` | functions/proxy.go:153-155 | the error for zero matches differs from the error for an ambiguous match |
| `Resolver.KeysConcatenateRecords` | functions/proxy.go:170-180 | when every record decodes, the key set is the in-order concatenation of the records' keys |
| `Resolver.KeysOnePerRecord` | functions/proxy.go:170-180 | N records that each decode to one key give exactly N keys |
| `Resolver.KeysFirstDecodeError` | functions/proxy.go:171-175 | the first record that fails to decode fails the whole lookup with its error, whatever follows |
| `Dispatcher.ChosenFormat` | functions/proxy.go:114-117 | the JSON format is chosen exactly when the JSON option is set, and the MR format otherwise |
| `Dispatcher.Keyserver` | functions/proxy.go:71-101 | `Keyserver` as written, as an effect trace; no contract of its own: see `Dispatcher.AddIsNotImplemented`, `Dispatcher.UnknownPathNotFoundFirst`, `Dispatcher.ParseFailureIsBadRequest`, `Dispatcher.ResolvesExactlyForKeyOperations`, `Dispatcher.NotFoundPathStillServesKeys` |
| `Dispatcher.HandleLookup` | functions/proxy.go:81-86 | the lookup parse: a parse error gives 400, otherwise the operation switch; no contract of its own: see `Dispatcher.ParseFailureIsBadRequest`, `Dispatcher.HandleLookupErrorsAreFinal` |
| `Dispatcher.Route` | functions/proxy.go:88-100 | the operation switch; no contract of its own: see `Dispatcher.OperationRouting`, `Dispatcher.RouteResolves` |
| `Dispatcher.Index` | functions/proxy.go:103-124 | `index`: resolve the search, then `IndexAfter`; no contract of its own: see `Dispatcher.OperationRouting`, `Dispatcher.RenderersGetNonEmptyKeys`, `Dispatcher.MatchCountIsInternalError` |
| `Dispatcher.IndexAfter` | functions/proxy.go:105-123 | `index` once `keys` has returned; no contract of its own: see `Dispatcher.ResolutionOutcomes`, `Dispatcher.AfterRendersResolvedKeys`, `Dispatcher.IndexFormatExclusive`, `Dispatcher.AfterNeverResolves`, `Dispatcher.AfterErrorsAreFinal` |
| `Dispatcher.Get` | functions/proxy.go:206-222 | `get`: resolve the search, then `GetAfter`; no contract of its own: see `Dispatcher.OperationRouting`, `Dispatcher.RenderersGetNonEmptyKeys`, `Dispatcher.MatchCountIsInternalError` |
| `Dispatcher.GetAfter` | functions/proxy.go:208-221 | `get` once `keys` has returned; no contract of its own: see `Dispatcher.ResolutionOutcomes`, `Dispatcher.AfterRendersResolvedKeys`, `Dispatcher.GetServesArmoredKeys`, `Dispatcher.AfterNeverResolves`, `Dispatcher.AfterErrorsAreFinal` |
| `Dispatcher.AddIsNotImplemented` | functions/proxy.go:72-75 | `/pks/add` gets 501 "Not Implemented" and nothing else, whatever the verb, query or body; nothing is resolved |
| `Dispatcher.UnknownPathNotFoundFirst` | functions/proxy.go:77-79 | an unknown path gets 404 "Not Found" first, then is handled exactly like the same lookup sent to `/pks/lookup` |
| `Dispatcher.ParseFailureIsBadRequest` | functions/proxy.go:81-86 | a lookup that fails to parse gets 400 with the parser's message and nothing else |
| `Dispatcher.ResolvesExactlyForKeyOperations` | functions/proxy.go:71-101 | the directory is consulted exactly for a parsed get, hget, index or vindex request outside `/pks/add`, with that request's search term |
| `Dispatcher.RouteResolves` | functions/proxy.go:88-100 | the operation switch resolves exactly for get, hget, index and vindex |
| `Dispatcher.AfterNeverResolves` | functions/proxy.go:103-124 | once `keys` has returned, neither flow consults the directory again |
| `Dispatcher.OperationRouting` | functions/proxy.go:88-100 | get and hget take the get flow; index and vindex take the index flow with the same lookup; stats gets 501; any other operation gets 400 "operation not found: <op>" |
| `Dispatcher.ResolutionOutcomes` | functions/proxy.go:104-112 | in both flows a resolution error gives 500 with its text, and an empty key set gives 404 "Not found" |
| `Dispatcher.RenderersGetNonEmptyKeys` | functions/proxy.go:109-119 | a renderer only ever receives the non-empty key set that resolving the parsed lookup returned |
| `Dispatcher.AfterRendersResolvedKeys` | functions/proxy.go:104-119 | after `keys` returns, a renderer receives exactly the returned key set, and only when it is non-empty |
| `Dispatcher.IndexFormatExclusive` | functions/proxy.go:114-122 | exactly one index format writes, the chosen one; a write error then gives 500 with its text; with no error nothing else follows |
| `Dispatcher.GetServesArmoredKeys` | functions/proxy.go:212-221 | a non-empty key set is served as text/plain armored keys, and no status is written after it |
| `Dispatcher.MatchCountIsInternalError` | functions/proxy.go:104-108 | a search matching zero or several users gives 500 with the match-count message in both flows |
| `Dispatcher.HandleLookupErrorsAreFinal` | functions/proxy.go:81-101 | from the lookup parse onwards, the trace ends in a status or body write, and nothing follows an `http.Error` |
| `Dispatcher.AfterErrorsAreFinal` | functions/proxy.go:104-122 | in both flows, after `keys` returns, the trace ends in a status or body write, and nothing follows an `http.Error` |
| `Dispatcher.NotFoundPathStillServesKeys` | functions/proxy.go:77-79 | as written, a get for a matching user on an unknown path writes 404, then resolves and writes the armored key, so an error write is not final |
| `Dispatcher.KeyserverIntended` | functions/proxy.go:71-101 | the handler with the missing return restored: its trace always ends in a status or body write, and every `http.Error` ends the response |
| `Dispatcher.IntendedNotFoundIsFinal` | functions/proxy.go:77-79 | with the return in place, an unknown path gets one 404 write and nothing else; on the two endpoints the handler is unchanged |

## Left out

- The HTTP server and the response writer's semantics are not modelled. That
  covers the trailing newline `http.Error` adds, the headers it sets, the
  implicit 200 on the first body write, and the "superfluous WriteHeader"
  behaviour. A trace records the writes in order; the first status write is
  the one a client sees.
- The outbound HTTP client is not modelled: its OAuth token transport, its
  4-second timeout, and the `init` block that reads `GITLAB_HOST` and
  `GITLAB_TOKEN`. The host becomes `Directory.host`. Transport failures are
  errors returned by the collaborators.
- JSON decoding of the user and key bodies is not modelled separately. It is
  folded into the `searchUsers` and `listKeys` collaborators, whose errors
  propagate in the same way.
- `searchURL` is not modelled, because its query string is library escaping
  (`url.Values.Encode`). The search collaborator receives the search term
  itself.
- Several library functions are collaborators given as function values, with
  their internals not modelled: `hkp.ParseLookup`, `MRFormat.Write`,
  `JSONFormat.Write`, `armor.Decode`, `openpgp.ReadKeys` and
  `openpgp.DropDuplicates`. As a result, what deduplication does to a key is
  not stated.
- `openpgp.WriteArmoredPackets` is not a collaborator at all. It appears only
  as the `WriteArmored` effect in the trace, so the bytes it writes and the
  armor round trip are not stated.
- The operation names (`get`, `hget`, `index`, `vindex`, `stats`) and the
  option name `json` are the HKP library's constants, which are not part of
  this model's source. They are written out as the library spells them.
- `openpgp.ReadKeys` yields keys on a channel; it is modelled as the finite
  sequence of its reads. Returning early leaves the producer blocked; that is
  not modelled.
- `DropDuplicates` changes the key in place. It is modelled as returning the
  deduplicated key.
- `path.Join`'s final `Clean` step and `URL.String()` are not modelled. Every
  element the gateway joins is already clean.
- Go's `int` is 64 bits wide; user ids are unbounded integers here. A decoded
  JSON id always fits.
- Logging calls are not modelled. The write error that `get` logs and ignores
  appears only as the fact that nothing follows `WriteArmored` in the trace.

## Findings

| source | as written | input that shows it | evidently intended | confidence | as-written member | corrected member |
|---|---|---|---|---|---|---|
| functions/proxy.go:77-79 | an unknown path gets `http.Error(w, "Not Found", 404)` with no `return`, so the request goes on to be parsed, resolved and rendered | `GET /?op=get&search=alice`, where one user matches and holds one well-formed key: the response is 404 and its body carries the armored key | return after the 404, as every other error branch of `Keyserver` does | high (not executed) | `Dispatcher.NotFoundPathStillServesKeys` | `Dispatcher.KeyserverIntended` |
