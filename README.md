# jsonld-recursive: a Dafny model

This project models the core of *jsonld-recursive*, a small service that
expands and compacts linked-data (JSON-LD) documents and follows their
references to a bounded depth. The service has three parts, and each is a
Dafny module:

- **URL rewriting and server state** (`ldr-server.js`).
  - `Rewrite` models the rewrite engine. `applySingleMapping` makes one
    step over an ordered rule table: an exact key first, then the patterns
    that contain `*`, with the placeholders `${rest}`, `$0`, `$1`, ...
    filled in. `applyMappings` repeats that step until the url stops
    changing, or for at most ten steps.
  - `Server` models the request handler's two mutable tables, the rule
    table `urlMappings` and the result `cache`. It is a class with one method
    per endpoint, plus the cache key `operation:url:depth`.
- **Recursive expansion** (`lib/ldr-core.js`). `Expand` models
  `expandRecursive` and `processObject` as mutually recursive functions over
  JSON values, with the JSON-LD library's `expand` as an oracle. It also
  models the `@graph` selection that ends `compactJsonLd`.
- **The Python client** (`lib/ldr_client.py`). `Client` models the client's
  supervision of a server it may have launched itself:
  - normalising the base url;
  - the auto-start decision;
  - the launcher search;
  - launching and health polling;
  - the guarded stop and the context-manager exit;
  - extracting results and the in-order batch.

Two shared modules support them. `Common` holds options, results,
ordered key/value entries and the decimal rendering of integers. `JsonData`
holds JSON values and their size measure.

Wildcard patterns are modelled as the regular expression the server builds
from them, `^L0(.*)L1...(.*)Lk$`:

- every character other than `*` is literal;
- every group is greedy and backtracks;
- `.` matches nothing that is a line terminator.

This holds for any number of stars. `SingleStarMatch` restates it for the
usual one-star pattern `P*S`.

Some features a reader might expect of the client are absent in the code,
and the model follows the code:

- **Launcher search.** There is no global command-line launcher. The client
  only searches four script locations (`lib/ldr_client.py:76-95`).
- **Initial mappings.** The client has no parameter for mappings to send
  after start-up. Only a mappings file is passed to the launched server.
- **Batch failures.** `compact_batch` does not isolate per-item failures.
  The first failure aborts the batch (`lib/ldr_client.py:258-271`).
- **Teardown guard.** There is no guard making teardown run once.
  `__exit__` and `__del__` both close the session
  (`Client.LdrClient.ExitThenDel`).
- **Process handle.** `stop_server` does not clear the process handle. It
  only clears `auto_started`, and only when the kill command did not raise.
  `server_pid` stays recorded.
- **When the launch is recorded.** The launch is not recorded on the first
  successful health poll. `auto_started` and `server_pid` are set before
  polling, and they stay set when all 20 polls fail.

`lib/ldr-core.js` contains unresolved merge conflicts (lines 35-43 and
64-96). The model follows the first (HEAD) side of each:

- an `@id` reference is expanded if it starts with `http` or `file://`;
- `compactJsonLd` compacts against the url itself.

## Model

| member | source | states |
|---|---|---|
| Common.Lookup | ldr-server.js:42-43 | `obj[key]` on ordered entries: absent exactly when no entry has the key, otherwise the value of an entry with that key |
| Common.LookupDistinct | ldr-server.js:42-43 | with distinct keys, looking up the key of entry i gives entry i's value |
| Common.IntToStringInjective | ldr-server.js:141-143 | distinct depths render as distinct decimal strings in a cache key |
| Common.IntToStringHasNoColon | ldr-server.js:141-143 | a rendered depth contains no `:`, so it is the text after the key's last colon |
| Rewrite.SplitStars | ldr-server.js:48-49 | a pattern splits at its stars into literal pieces: at least one, none containing `*`, two or more exactly when the pattern contains `*` |
| Rewrite.JoinSplit | ldr-server.js:49 | joining the pieces with `*` gives back the pattern, so the escaping keeps every other character literal |
| Rewrite.SplitJoin | ldr-server.js:49 | splitting star-free pieces joined by `*` gives back those pieces |
| Rewrite.MatchPattern | ldr-server.js:49-51 | a match found by the anchored, greedy regular expression gives groups that rebuild the url around the literal pieces, no group holding a line terminator |
| Rewrite.MatchPiecesComplete | ldr-server.js:50-51 | greedy backtracking misses no decomposition: if the url decomposes around the pieces, a match is found |
| Rewrite.MatchPatternIff | ldr-server.js:49-53 | a pattern matches a url if and only if the url decomposes around its literal pieces |
| Rewrite.MatchGreedyLastPiece | ldr-server.js:49-51 | the last group takes everything before the final literal piece, provided the url ends with that piece and the group holds no line terminator |
| Rewrite.SingleStarMatch | ldr-server.js:47-53 | `P*S` matches exactly when the url starts with P, ends with S, is long enough for both and has no line terminator in between; that middle text is the one group |
| Rewrite.ReplaceAllNoDollar | ldr-server.js:56-59 | a placeholder pass leaves text without `$` unchanged |
| Rewrite.ReplaceAllSkip | ldr-server.js:56-59 | a placeholder pass copies a `$`-free prefix and continues after it |
| Rewrite.ReplaceAllHit | ldr-server.js:56-59 | a pass replaces an occurrence of its placeholder at the front and continues after it |
| Rewrite.ReplaceAllMissToken | ldr-server.js:56-59 | a pass leaves a different `$` placeholder in place |
| Rewrite.ReplaceAllToken | ldr-server.js:56-59 | in text whose only `$` opens one placeholder, a pass replaces that placeholder when it is the pass's own and leaves it otherwise |
| Rewrite.SubstituteGroupsDollarFree | ldr-server.js:58-60 | the `$i` passes leave `$`-free text unchanged when no group holds a `$` |
| Rewrite.SubstituteSinglePlaceholder | ldr-server.js:54-61 | for a template whose only `$` opens one placeholder, a one-group rule, and a url and captured text free of `$`, `${rest}` and `$1` become the captured text and `$0` the whole url |
| Rewrite.SubstituteAllPlaceholders | ldr-server.js:54-61 | for a one-group rule and any template in which every `$` opens `${rest}`, `$0` or `$1`, substitution equals the token-by-token reference `SubstituteOneGroup`: every placeholder, wherever and however often it occurs, becomes the group (`${rest}`, `$1`) or the url (`$0`), and every other character is kept (url and group free of `$`) |
| Rewrite.ThreePassesByTokens | ldr-server.js:56-60 | the three global replace passes, in the server's order, agree with the token-by-token reading |
| Rewrite.ReplaceAllOtherToken | ldr-server.js:56-60 | a pass moves past another `$` placeholder at the front and continues after it |
| Rewrite.ReplaceAll | ldr-server.js:56-59 | `String.replace` with a global literal pattern; its properties are the `ReplaceAll…` lemmas |
| Rewrite.Substitute | ldr-server.js:54-60 | fills the template: `${rest}` with group 1, then `$0` with the url, then each `$i`; its properties are `SubstituteSinglePlaceholder` and `SubstituteAllPlaceholders` |
| Rewrite.FirstWildcard | ldr-server.js:47-64 | the wildcard loop; its property is `FirstWildcardFindsFirst` |
| Rewrite.ApplySingleMapping | ldr-server.js:40-67 | one rewrite step; its properties are `DirectMatchWins`, `FirstWildcardWins`, `ChangeNeedsRule` and `NoRuleKeepsUrl` |
| Rewrite.FirstWildcardFindsFirst | ldr-server.js:47-64 | the wildcard loop finds nothing exactly when no star pattern matches; otherwise the result is the rewrite by the first matching rule in table order |
| Rewrite.DirectMatchWins | ldr-server.js:42-44 | an exact key with a non-empty replacement is returned whatever the wildcard rules say |
| Rewrite.FirstWildcardWins | ldr-server.js:47-62 | without a truthy exact entry, the first matching star pattern rewrites the url, whatever later rules say |
| Rewrite.ChangeNeedsRule | ldr-server.js:40-67 | a step changes the url only through a truthy exact entry or a matching star pattern |
| Rewrite.NoRuleKeepsUrl | ldr-server.js:66 | a url that no rule applies to is returned unchanged |
| Rewrite.EmptyTableKeepsUrl | ldr-server.js:66 | the empty table rewrites nothing |
| Rewrite.ApplyMappings | ldr-server.js:17-38 | the loop returns the url after `steps` steps, each of which changed it; either it stopped at a fixed point before the bound, or it took exactly `maxDepth` steps |
| Rewrite.ChangesAlongEach | ldr-server.js:21-31 | each of the counted steps changed the url |
| Rewrite.ResolutionUnique | ldr-server.js:17-38 | that description fixes the result and the step count: there is only one resolution |
| Rewrite.CappedResolution | ldr-server.js:21-37 | when the returned url would still change, exactly `maxDepth` steps were taken |
| Rewrite.PrefixStep | ldr-server.js:47-61 | for plain text P, Q and t (no `$`, `*` or line terminator), a rule `P*` with template `Q${rest}` maps `P+t` to `Q+t` when it is the first rule that applies |
| Rewrite.NoPrefixNoMatch | ldr-server.js:49-51 | a rule `P*` does not match a url that does not start with P |
| Rewrite.ChainNoDirectHit | ldr-server.js:42-44 | a url with no `*` is never an exact key of the chained table |
| Rewrite.ChainFirstStep | ldr-server.js:47-61 | for a plain path t (no `$`, `*` or line terminator), `cmip7:t` is rewritten to `https://wcrp-cmip.github.io/CMIP7-CVs/t` |
| Rewrite.ChainSecondStep | ldr-server.js:47-61 | for a plain path t, the web url is rewritten to `/home/user/local-cvs/t` |
| Rewrite.ChainFixedPoint | ldr-server.js:66 | the local path matches no rule and is a fixed point |
| Rewrite.TwoStepResolution | ldr-server.js:17-38 | two changing steps followed by a fixed point resolve to that fixed point in two steps |
| Rewrite.ChainResolves | ldr-server.js:17-67 | with the two chained rules, `cmip7:` followed by any plain path resolves in two steps to that path under `/home/user/local-cvs/` |
| Rewrite.CmipPathIsPlain | examples/example_usage.py:31 | the example path has no `$`, `*` or line terminator |
| Rewrite.ChainingExample | examples/example_usage.py:24-32 | `cmip7:experiment/graph.jsonld` resolves to `/home/user/local-cvs/experiment/graph.jsonld` |
| Expand.Unwrap | lib/ldr-core.js:13 | a fetched one-element array stands for its element; used by `FetchedSingletonUnwrapped` |
| Expand.IsReference | lib/ldr-core.js:37-38 | an object with the single key `@id` whose string starts with `http` or `file://`; used by `ReferenceIsExpanded` and `NonReferenceKeepsKeys` |
| Expand.Collapse | lib/ldr-core.js:26 | a processed array of length exactly one becomes its element; every other length stays an array |
| Expand.ExpandRecursive | lib/ldr-core.js:4-7 | at or past the depth bound the result is `{"@id": url}` |
| Expand.ProcessObject | lib/ldr-core.js:29-31 | null and other scalars are returned unchanged |
| Expand.ProcessItems | lib/ldr-core.js:22-25 | an array is processed into as many results as it has items |
| Expand.ProcessValue | lib/ldr-core.js:48-58 | a member value that is neither an array nor an object is copied verbatim |
| Expand.ProcessEntries | lib/ldr-core.js:47-60 | the result object has the same keys in the same order |
| Expand.ProcessItemsAt | lib/ldr-core.js:23-25 | item i of a processed array is item i processed, so the order is kept |
| Expand.ProcessEntriesAt | lib/ldr-core.js:47-59 | entry i keeps its key and holds its value processed |
| Expand.NonReferenceKeepsKeys | lib/ldr-core.js:47-60 | an object that is not an expandable reference stays an object with its key set |
| Expand.ReferenceIsExpanded | lib/ldr-core.js:35-45 | a bare `http` or `file://` reference with budget left becomes the expansion of its url at the same depth |
| Expand.FetchFailureIsStub | lib/ldr-core.js:16-18 | a failed fetch yields `{"@id": url, "_error": message}` instead of an exception |
| Expand.FetchedSingletonUnwrapped | lib/ldr-core.js:12-14 | a fetched one-element array is unwrapped and processed one level deeper |
| Expand.ExpandFetches | lib/ldr-core.js:4-19 | past the bound there is no fetch; otherwise the root's own fetch comes first at the current depth and every nested fetch is strictly deeper and below the bound |
| Expand.ObjectFetches | lib/ldr-core.js:21-61 | every fetch made while processing a value is at the current depth or deeper, and below the bound |
| Expand.ItemsFetches | lib/ldr-core.js:22-25 | the same for an array's items |
| Expand.ValueFetches | lib/ldr-core.js:48-58 | the same for a member value |
| Expand.EntriesFetches | lib/ldr-core.js:47-60 | the same for an object's members |
| Expand.ExpandDependsOnLog | lib/ldr-core.js:4-19 | the fetch log is complete: an oracle that answers alike on the logged urls gives the same expansion and the same log |
| Expand.ObjectDependsOnLog | lib/ldr-core.js:21-61 | the same for processing a value |
| Expand.ItemsDependOnLog | lib/ldr-core.js:22-25 | the same for array items |
| Expand.ValueDependsOnLog | lib/ldr-core.js:48-58 | the same for a member value |
| Expand.EntriesDependOnLog | lib/ldr-core.js:47-60 | the same for object members |
| Expand.ProcessAtCutoff | lib/ldr-core.js:37-39 | with no budget left, processing fetches nothing and only collapses one-element arrays (the independent definition `CollapseSingletons`), whatever the oracle |
| Expand.ItemsAtCutoff | lib/ldr-core.js:22-25 | the same for array items |
| Expand.EntriesAtCutoff | lib/ldr-core.js:47-60 | the same for object members |
| Expand.GraphOrWhole | lib/ldr-core.js:97 | the result is the compacted value or its non-null `@graph` member; reading a member of `null` raises |
| Expand.GraphSelected | lib/ldr-core.js:97 | a non-null `@graph` member is what is returned |
| Expand.NoGraphWhole | lib/ldr-core.js:97 | without a non-null `@graph` member the whole compacted value is returned |
| Expand.CompactJsonLd | lib/ldr-core.js:63-98 | compaction fails exactly when the compactor raises or returns null |
| Server.CacheKey | ldr-server.js:141-143 | `operation:url:depth`; its properties are `CacheKeyInjective` and `ExpandAndCompactKeysDiffer` |
| Server.FirstColon | ldr-server.js:141-143 | a key's first colon ends a colon-free operation name |
| Server.LastColon | ldr-server.js:141-143 | a key's last colon starts a colon-free depth |
| Server.CacheKeyInjective | ldr-server.js:141-143 | a key `operation:url:depth` determines its operation, url and depth, even when the url contains colons |
| Server.ExpandAndCompactKeysDiffer | ldr-server.js:274 | an expand key never equals a compact key, so one operation's result is never served for the other |
| Server.EffectiveDepth | ldr-server.js:273 | a missing or zero depth becomes 2; any other depth is kept |
| Server.RulesJson | ldr-server.js:195 | the table is sent as an object with one string member per rule, in table order |
| Server.RulesOfEntries | ldr-server.js:195 | reading a table back fails exactly when some member is not a string |
| Server.RulesOfJson | ldr-server.js:195 | a table read back has one rule per member |
| Server.RulesJsonRoundTrip | ldr-server.js:194-197 | reading back the object sent for a table gives exactly that table |
| Server.StoreThenLookup | ldr-server.js:285-289 | a result stored on a miss is found under its key, every other key's lookup is unaffected, and keys stay distinct |
| Server.LookupAppend | ldr-server.js:287 | appending an entry does not change the lookup of another key |
| Server.LdrServer.constructor | ldr-server.js:12-14 | a fresh server has no rules and an empty cache |
| Server.LdrServer.Health | ldr-server.js:184-191 | `/health` reports `ok`, the cache size and the rule count |
| Server.LdrServer.GetMappings | ldr-server.js:194-197 | `GET /mappings` returns the table as it stands |
| Server.LdrServer.PostMappings | ldr-server.js:200-228 | `SetMappingsStep`: the whole table is replaced by the file's table or by `mappings`, with `count` equal to its size; `file` wins; an unreadable file or a body with neither field is a 400 and leaves the table alone; the cache never changes |
| Server.LdrServer.DeleteMappings | ldr-server.js:231-237 | returns the number of rules held and leaves the table empty |
| Server.LdrServer.CacheStats | ldr-server.js:240-246 | reports the cache size and its keys in insertion order |
| Server.LdrServer.CacheList | ldr-server.js:249-253 | reports the number of keys and the keys in insertion order |
| Server.LdrServer.DeleteCache | ldr-server.js:256-262 | returns the prior cache size and leaves the cache empty, the table untouched |
| Server.LdrServer.ExpandRequest | ldr-server.js:265-291 | `CachedStep` with `expandRecursive` under the current table: a missing url is a 400 with the cache unchanged; a stored key is served with `cached: true`, the cache unchanged; a miss computes the expansion under the current table, appends it under its key and serves it with `cached: false` |
| Server.LdrServer.CompactRequest | ldr-server.js:294-320 | as for expand, with the `compact` key; a failing compaction is a 500 and stores nothing |
| Server.LdrServer.Handle | ldr-server.js:169-327 | a pre-flight is a 204 with no body, and an unknown route a 404; a body that is not JSON on a route that parses one is a 500; none of these changes any state; each of the nine routes answers and changes the tables exactly as its endpoint does (`HealthReply`, `TableReply`, `SetMappingsStep`, `ClearedReply`, `CacheStatsReply`, `CacheListReply`, `CachedStep`) |
| Server.LdrServer.SetThenGet | ldr-server.js:194-227 | after setting a table, `GET /mappings` returns exactly that table and it reads back as that table |
| Server.LdrServer.ExpandTwice | ldr-server.js:276-289 | an identical second expand request is a hit with the first request's result |
| Server.LdrServer.ClearAfterExpand | ldr-server.js:256-289 | clearing right after a miss reports the old size plus one |
| Client.TrimTrailingSlashes | lib/ldr_client.py:40 | the base url is a prefix of the given one, drops only `/` characters and does not end with `/` |
| Client.TrimUnique | lib/ldr_client.py:40 | any prefix that drops only `/` and does not end with `/` is that base url |
| Client.IsRunning | lib/ldr_client.py:68-74 | a 200 answer to `HealthCall`, which is `GET baseUrl/health`; a raised error counts as not running; used by `WaitForServer` and `AutoStartIfNeeded` |
| Client.ExtractResult | lib/ldr_client.py:224-233 | a raised error or a 4xx/5xx status is an error; the call succeeds exactly when the reply is an object with a `result` member, and returns that member |
| Client.ExtractStoredResult | lib/ldr_client.py:233 | with distinct keys, the `result` member of a successful reply is what is returned |
| Client.LaunchEnv | lib/ldr_client.py:109-113 | the launch sets `PORT`, and `MAPPINGS_FILE` exactly when a non-empty mappings file is configured |
| Client.FindServerScript | lib/ldr_client.py:76-95 | returns the absolute path of the first existing candidate among the four, in order, or nothing when none exists |
| Client.WaitForServer | lib/ldr_client.py:126-133 | at most 20 probes, each of them `HealthCall(baseUrl)`; it succeeds exactly when one of the 20 succeeds, stops at the first success, and otherwise makes all 20 |
| Client.LdrClient.constructor | lib/ldr_client.py:22-44 | the base url is stored trimmed; nothing is auto-started and no process is recorded |
| Client.LdrClient.StartServer | lib/ldr_client.py:97-133 | `StartedAs`: with no launcher, or a launch that raises, the call fails and nothing changes; after a launch `auto_started` is set and the process and pid are recorded, and the call fails with the timeout error exactly when all 20 polls fail, with `auto_started` still set |
| Client.LdrClient.AutoStartIfNeeded | lib/ldr_client.py:63-66 | nothing happens unless auto-start was asked for and the probe `HealthCall(baseUrl)` fails; `auto_started` is never set otherwise; when both hold, the server is started on port 3000 with `StartServer`'s outcome and new state (`StartedAs`): the not-found or launch error, or the recorded launch and the timeout error exactly when all 20 polls fail; the base url, timeout, mappings file and close count never change |
| Client.LdrClient.StopServer | lib/ldr_client.py:135-145 | a no-op unless this client started the server; otherwise `pkill ldr-server` is run and `auto_started` is cleared exactly when it did not raise; the pid, process, base url, timeout and mappings file stay as they were |
| Client.LdrClient.Exit | lib/ldr_client.py:311-315 | stops the server only if this client started it, and always closes the session; the base url, timeout, mappings file, pid and process stay as they were |
| Client.LdrClient.Del | lib/ldr_client.py:317-322 | closes the session again, with no guard; every other field stays as it was |
| Client.LdrClient.Compact | lib/ldr_client.py:235-256 | posts `{url, depth}` to `/compact` and extracts the result |
| Client.LdrClient.Expand | lib/ldr_client.py:212-233 | posts `{url, depth}` to `/expand` and extracts the result |
| Client.LdrClient.CompactBatch | lib/ldr_client.py:258-271 | succeeds exactly when every `compact` does, then after one request per url and with one result per url in input order; otherwise fails with the error of the first failing url, and that request is the last one sent |
| Client.LdrClient.StopTwice | lib/ldr_client.py:135-145 | a second stop after a successful one runs no further command |
| Client.LdrClient.ExitThenDel | lib/ldr_client.py:303-322 | leaving the `with` block and then collecting the client closes the session twice |
| Client.Open | lib/ldr_client.py:22-66 | constructing a client stores the trimmed base url, the timeout and the mappings file with the session not yet closed; it launches nothing, and records no pid or process, when auto-start is off or the server answers `HealthCall` on the trimmed base url; otherwise it starts the server on port 3000 from the fresh state, with `StartServer`'s outcome raised from the constructor (`StartedAs`); only then can `auto_started` be set |

## Left out

- HTTP transport. Retries, back-off and timeouts live in `requests` and
  urllib3 (`lib/ldr_client.py:47-61`). Each request is an oracle outcome: a
  status and a body, or a raised error.
- Waiting. `time.sleep` between polls (`lib/ldr_client.py:128`) is timing,
  not logic.
- Operating-system calls. `subprocess.Popen` and `pkill` are oracle
  outcomes: a pid or an error, and raised or not.
- Printing and logging. `print` and `console.log`/`console.warn`, including
  the warning at the mapping depth bound, have no effect on state.
- Document loading (`ldr-server.js:70-137`). `ExpandRequest` and
  `CompactRequest` take `loader`, which gives `jsonld.expand` under the
  current rule table, and `CompactRequest` takes `compact`, which gives
  `jsonld.compact` under that table, since the compactor loads its context
  url through the same loader. The model does not express that the loader rewrites
  urls with `applyMappings` before fetching them, reads local files and
  follows redirects.
- Request parsing and reply serialisation. `parseBody`, `sendJson`, and the
  url and query-string parsing of a request are not modelled. A request is
  its method, its path and the fields the endpoint reads. Invalid JSON is
  modelled as a 500.
- `Server.Body` models only well-typed fields:
  - `url` and `file` are strings;
  - `depth` is an integer;
  - `mappings` is an object of strings.

  Other JSON types in these fields are not modelled, nor the coercions
  JavaScript would apply to them.
- Server.LdrServer.PostMappings: a mappings file is assumed to hold a JSON
  object of strings, and the keys of any table are distinct, as `JSON.parse`
  makes them (the type `Server.Table`). A file holding `null` would be stored
  as the table before `Object.keys(null)` raises: the reply is a 400, but the
  table is then `null` and every later `/health` is a 500. A file holding
  `{"a": 1}` would be accepted with a non-string rule. Neither case is
  modelled.
- Concurrency. Requests are handled one at a time, and the rule table is
  fixed for the whole of a request. In the server, other requests can run at
  its `await`s (`ldr-server.js:201`, `266`, `286`, `295`, `315`):
  - an identical request can store the same key first, after which
    `cache.set` overwrites in place instead of appending;
  - `DELETE /cache` can empty the cache in the middle of an expansion;
  - `POST /mappings` can change the table the document loader reads at each
    fetch.
- Rewrite.SubstituteSinglePlaceholder: proved for a url and a captured
  text free of `$`. With a `$0` inside the capture, the `$0` pass at
  `ldr-server.js:57` also rewrites inside the text the `${rest}` pass
  inserted.
- Rewrite.SubstituteAllPlaceholders: proved for rules with one group and for
  url and group texts free of `$`. With a `$` in the url, the `$1` pass also
  rewrites inside the text the `$0` pass inserted.
- Server start-up (`ldr-server.js:329-392`): the port, the mappings file
  read at start-up, the signal handlers. These are process I/O.
- The JSON-LD algorithms. `jsonld.expand` and `jsonld.compact` are the
  oracles `Fetch` and `Compactor`.
- `Promise.all`. It is modelled as an in-order map. The `visited` set is
  left out because it is written but never read.
- JSON numbers. Every number, `depth` included, is an integer, and a depth
  is assumed to be below 10^21 in absolute value, where `${depth}` stops
  printing plain digits. A fractional depth is not modelled: `2.5` would
  give the cache key `expand:u:2.5`, which no integer depth gives, and the
  expansion would fetch at depths 0, 1 and 2, as depth 3 does, because the
  comparisons at `lib/ldr-core.js:5` and `:39` are against 2.5.
- JavaScript object key order. Integer-like keys come first in JavaScript.
  Prototype keys such as `constructor` make `urlMappings[url]` truthy. The
  model keeps insertion order and has no prototype.
- Rewrite.Substitute: text inserted for a placeholder is taken literally.
  `String.replace` would expand `$$`, `$&`, `` $` `` and `$'` in it; `$n`
  stays literal because the search patterns at `ldr-server.js:56` and `:59`
  have no groups.
- The other outer-catch 500s. Exceptions other than invalid JSON and a
  failing compaction do not arise in the model.
- The client's pass-through calls. `set_mappings`, `load_mappings`,
  `get_mappings`, `clear_mappings`, `health`, `cache_stats`, `cache_list`
  and `cache_clear` each send one request and return its JSON. Only
  `expand`, `compact` and `compact_batch` are modelled. The `verbose`
  printing is left out.
- `max_retries`. It only configures the session's retry adapter.
- `lib/ldr-browser.js`. It is browser script injection and `fetch`.
