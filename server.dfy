/** The request handler of ldr-server.js over its two tables: the url
    rewrite table `urlMappings` and the result `cache`. Each endpoint is a
    method of `LdrServer`; the JSON-LD library and the file system are
    oracles passed to the endpoints that use them. */
module Server {
  import opened Common
  import opened JsonData
  import opened Rewrite
  import opened Expand

  /** The depth used when a request gives none, or gives 0. */
  const DEFAULT_DEPTH: int := 2

  const EXPAND_OP := "expand"
  const COMPACT_OP := "compact"

  // ---------------------------------------------------------------------
  // Cache keys.

  /** `getCacheKey(url, depth, operation)`: `operation:url:depth`. */
  function CacheKey(url: string, depth: int, operation: string): string
  {
    operation + ":" + url + ":" + IntToString(depth)
  }

  lemma FirstColon(op1: string, rest1: string, op2: string, rest2: string)
    requires ':' !in op1 && ':' !in op2
    requires op1 + ":" + rest1 == op2 + ":" + rest2
    ensures op1 == op2 && rest1 == rest2
  {
    var k := op1 + ":" + rest1;
    assert k[|op1|] == ':';
    assert (op2 + ":" + rest2)[|op2|] == ':';
    assert op1 == k[..|op1|];
    assert op2 == k[..|op2|];
    assert rest1 == k[|op1| + 1..];
  }

  lemma LastColon(rest1: string, d1: string, rest2: string, d2: string)
    requires ':' !in d1 && ':' !in d2
    requires rest1 + ":" + d1 == rest2 + ":" + d2
    ensures rest1 == rest2 && d1 == d2
  {
    var k := rest1 + ":" + d1;
    var n := |k|;
    assert k[n - |d1| - 1] == ':';
    assert (rest2 + ":" + d2)[n - |d2| - 1] == ':';
    assert d1 == k[n - |d1|..];
    assert d2 == k[n - |d2|..];
    assert rest1 == k[..n - |d1| - 1];
  }

  /** Keys made from colon-free operation names never collide: a key
      determines its operation, its url and its depth. In particular an
      `expand` result is never served for a `compact` request. */
  lemma CacheKeyInjective(url1: string, depth1: int, op1: string, url2: string, depth2: int, op2: string)
    requires ':' !in op1 && ':' !in op2
    requires CacheKey(url1, depth1, op1) == CacheKey(url2, depth2, op2)
    ensures op1 == op2 && url1 == url2 && depth1 == depth2
  {
    var d1, d2 := IntToString(depth1), IntToString(depth2);
    assert op1 + ":" + url1 + ":" + d1 == op1 + ":" + (url1 + ":" + d1);
    assert op2 + ":" + url2 + ":" + d2 == op2 + ":" + (url2 + ":" + d2);
    FirstColon(op1, url1 + ":" + d1, op2, url2 + ":" + d2);
    IntToStringHasNoColon(depth1);
    IntToStringHasNoColon(depth2);
    LastColon(url1, d1, url2, d2);
    IntToStringInjective(depth1, depth2);
  }

  lemma ExpandAndCompactKeysDiffer(url1: string, depth1: int, url2: string, depth2: int)
    ensures CacheKey(url1, depth1, EXPAND_OP) != CacheKey(url2, depth2, COMPACT_OP)
  {
    if CacheKey(url1, depth1, EXPAND_OP) == CacheKey(url2, depth2, COMPACT_OP) {
      CacheKeyInjective(url1, depth1, EXPAND_OP, url2, depth2, COMPACT_OP);
    }
  }

  // ---------------------------------------------------------------------
  // Requests and replies.

  /** A rule table as `JSON.parse` produces it: an object, so no key
      occurs twice. */
  type Table = rules: Rules | DistinctKeys(rules) witness []

  datatype Method = GET | POST | DELETE | OPTIONS | OtherMethod(name: string)

  /** The fields of a parsed request body that the endpoints read (an empty
      body parses as `{}`, every field absent). */
  datatype Body = Body(url: Option<string>, depth: Option<int>, file: Option<string>, mappings: Option<Table>)

  /** A request: its method, its path and its body, `None` when the body is
      not valid JSON. */
  datatype Request = Request(verb: Method, path: string, body: Option<Body>)

  /** A status code and, except for the `OPTIONS` pre-flight, a JSON body. */
  datatype Reply = Reply(status: int, body: Option<Json>)

  /** `body.url` or `body.file` is truthy: present and not empty. */
  predicate Truthy(s: Option<string>)
  {
    s.Some? && s.value != ""
  }

  /** `body.depth || 2`. */
  function EffectiveDepth(depth: Option<int>): (d: int)
    ensures d != 0
    ensures depth.Some? && depth.value != 0 ==> d == depth.value
    ensures depth.None? || depth == Some(0) ==> d == DEFAULT_DEPTH
  {
    if depth.Some? && depth.value != 0 then depth.value else DEFAULT_DEPTH
  }

  /** A JSON object with one string member per rule, in table order. */
  function RulesJson(rules: Rules): (j: Json)
    ensures j.Obj? && |j.entries| == |rules|
    ensures forall i :: 0 <= i < |rules| ==> j.entries[i] == Entry(rules[i].key, Str(rules[i].value))
  {
    if |rules| == 0 then Obj([])
    else Obj([Entry(rules[0].key, Str(rules[0].value))] + RulesJson(rules[1..]).entries)
  }

  /** Reads a rule table back from a JSON object whose members are strings. */
  function RulesOfJson(j: Json): (r: Option<Rules>)
    ensures r.Some? ==> j.Obj? && |r.value| == |j.entries|
  {
    if j.Obj? then RulesOfEntries(j.entries) else None
  }

  function RulesOfEntries(entries: Entries<Json>): (r: Option<Rules>)
    ensures r.Some? ==> |r.value| == |entries|
    ensures r.None? <==> exists i :: 0 <= i < |entries| && !entries[i].value.Str?
  {
    if |entries| == 0 then Some([])
    else
      var rest := RulesOfEntries(entries[1..]);
      if !entries[0].value.Str? then None
      else if rest.None? then
        var i :| 0 <= i < |entries| - 1 && !entries[1..][i].value.Str?;
        assert !entries[i + 1].value.Str?;
        None
      else
        assert forall i :: 1 <= i < |entries| ==> entries[i] == entries[1..][i - 1];
        Some([Entry(entries[0].key, entries[0].value.s)] + rest.value)
  }

  /** The table a client reads back is the table that was sent. */
  lemma {:induction false} RulesJsonRoundTrip(rules: Rules)
    ensures RulesOfJson(RulesJson(rules)) == Some(rules)
    decreases |rules|
  {
    if |rules| > 0 {
      var j := RulesJson(rules);
      RulesJsonRoundTrip(rules[1..]);
      assert j.entries[1..] == RulesJson(rules[1..]).entries;
      assert RulesOfJson(RulesJson(rules[1..])) == RulesOfEntries(j.entries[1..]);
      assert [Entry(rules[0].key, rules[0].value)] + rules[1..] == rules;
    }
  }

  function StrList(ss: seq<string>): (j: Json)
    ensures j.Arr? && |j.items| == |ss|
    ensures forall i :: 0 <= i < |ss| ==> j.items[i] == Str(ss[i])
  {
    if |ss| == 0 then Arr([]) else Arr([Str(ss[0])] + StrList(ss[1..]).items)
  }

  function ErrorReply(status: int, message: string): Reply
  {
    Reply(status, Some(Single("error", Str(message))))
  }

  function ResultReply(result: Json, cached: bool): Reply
  {
    Reply(200, Some(Obj([Entry("result", result), Entry("cached", Bool(cached))])))
  }

  function MappingsReply(message: string, rules: Rules): Reply
  {
    Reply(200, Some(Obj([Entry("message", Str(message)), Entry("count", Num(|rules|)),
                         Entry("mappings", RulesJson(rules))])))
  }

  // ---------------------------------------------------------------------
  // What each endpoint answers and leaves behind.

  function HealthReply(cache: Entries<Json>, rules: Table): Reply
  {
    Reply(200, Some(Obj([Entry("status", Str("ok")), Entry("cache_size", Num(|cache|)),
                         Entry("mappings_count", Num(|rules|))])))
  }

  function TableReply(rules: Table): Reply
  {
    Reply(200, Some(Single("mappings", RulesJson(rules))))
  }

  function ClearedReply(count: int): Reply
  {
    Reply(200, Some(Single("cleared", Num(count))))
  }

  function CacheStatsReply(cache: Entries<Json>): Reply
  {
    Reply(200, Some(Obj([Entry("size", Num(|cache|)), Entry("keys", StrList(Keys(cache)))])))
  }

  function CacheListReply(cache: Entries<Json>): Reply
  {
    Reply(200, Some(Obj([Entry("count", Num(|cache|)), Entry("urls", StrList(Keys(cache)))])))
  }

  /** `POST /mappings` from table `rules` to table `rules'`: the file's table
      when `file` is given and can be read, else a 400 with the table
      unchanged; `mappings` when no file is given; else a 400. */
  ghost predicate SetMappingsStep(rules: Table, body: Body, readFile: string -> Result<Table, string>,
                                  rules': Table, reply: Reply)
  {
    if Truthy(body.file) then
      match readFile(body.file.value)
      case Ok(loaded) => rules' == loaded && reply == MappingsReply("Mappings loaded from file", loaded)
      case Err(message) => rules' == rules && reply == ErrorReply(400, "Failed to load mappings: " + message)
    else if body.mappings.Some? then
      rules' == body.mappings.value && reply == MappingsReply("Mappings set", body.mappings.value)
    else
      rules' == rules && reply == ErrorReply(400, "Missing file or mappings")
  }

  /** A cached endpoint from cache `cache` to `cache'` under table `rules`,
      where `compute` gives the operation's result for a url and depth: a
      missing url is a 400; a stored key is served with `cached: true`; a
      miss stores a successful result under its key and serves it with
      `cached: false`, and answers a failure with a 500, storing nothing. */
  ghost predicate CachedStep(cache: Entries<Json>, body: Body, op: string,
                             compute: (string, int) -> Result<Json, string>,
                             cache': Entries<Json>, reply: Reply)
  {
    if !Truthy(body.url) then reply == ErrorReply(400, "Missing url") && cache' == cache
    else
      var key := CacheKey(body.url.value, EffectiveDepth(body.depth), op);
      match Lookup(cache, key)
      case Some(stored) => reply == ResultReply(stored, true) && cache' == cache
      case None =>
        match compute(body.url.value, EffectiveDepth(body.depth))
        case Ok(result) => reply == ResultReply(result, false) && cache' == cache + [Entry(key, result)]
        case Err(message) => reply == ErrorReply(500, message) && cache' == cache
  }

  /** `expandRecursive` under a table, which never fails. */
  function ExpandUnder(loader: Rules -> Fetch, rules: Rules): (string, int) -> Result<Json, string>
  {
    (url, depth) => Ok(ExpandRecursive(loader(rules), url, depth, 0))
  }

  /** `compactJsonLd` under a table. Both oracles see the table: the
      compactor loads its context url through the same rewriting loader. */
  function CompactUnder(loader: Rules -> Fetch, compact: Rules -> Compactor, rules: Rules): (string, int) -> Result<Json, string>
  {
    (url, depth) => CompactJsonLd(loader(rules), compact(rules), url, depth)
  }

  // ---------------------------------------------------------------------
  // The cache as an insertion-ordered map.

  /** A miss stores the result under a fresh key: later lookups of that key
      find it, lookups of every other key are unaffected, and keys stay
      distinct. */
  lemma StoreThenLookup(cache: Entries<Json>, key: string, value: Json, other: string)
    requires DistinctKeys(cache) && Lookup(cache, key).None?
    ensures Lookup(cache + [Entry(key, value)], key) == Some(value)
    ensures other != key ==> Lookup(cache + [Entry(key, value)], other) == Lookup(cache, other)
    ensures DistinctKeys(cache + [Entry(key, value)])
  {
    var c := cache + [Entry(key, value)];
    LookupDistinct(c, |cache|);
    if other != key {
      LookupAppend(cache, Entry(key, value), other);
    }
  }

  lemma {:induction false} LookupAppend(cache: Entries<Json>, e: Entry<Json>, k: string)
    requires k != e.key
    ensures Lookup(cache + [e], k) == Lookup(cache, k)
    decreases |cache|
  {
    if |cache| > 0 {
      assert (cache + [e])[1..] == cache[1..] + [e];
      LookupAppend(cache[1..], e, k);
    }
  }

  // ---------------------------------------------------------------------
  // The server.

  class LdrServer {
    /** The rewrite rules, in table order. */
    var urlMappings: Table
    /** Stored results under their cache keys, in insertion order. */
    var cache: Entries<Json>

    ghost predicate Valid()
      reads this
    {
      DistinctKeys(cache)
    }

    /** A fresh server: no rules and an empty cache. */
    constructor ()
      ensures Valid()
      ensures urlMappings == [] && cache == []
    {
      urlMappings := [];
      cache := [];
    }

    /** `GET /health`. */
    method Health() returns (reply: Reply)
      ensures reply == HealthReply(cache, urlMappings)
    {
      reply := HealthReply(cache, urlMappings);
    }

    /** `GET /mappings`: the table as it stands. */
    method GetMappings() returns (reply: Reply)
      ensures reply == TableReply(urlMappings)
    {
      reply := TableReply(urlMappings);
    }

    /** `POST /mappings`: replace the whole table with the one read from
        `file` (which wins when both are given) or with `mappings`. A file
        that cannot be read or parsed, or a body with neither field, is a
        400 and leaves the table as it was. */
    method PostMappings(body: Body, readFile: string -> Result<Table, string>) returns (reply: Reply)
      requires Valid()
      modifies this
      ensures Valid() && cache == old(cache)
      ensures SetMappingsStep(old(urlMappings), body, readFile, urlMappings, reply)
    {
      if Truthy(body.file) {
        match readFile(body.file.value) {
          case Ok(rules) =>
            urlMappings := rules;
            reply := MappingsReply("Mappings loaded from file", urlMappings);
          case Err(message) =>
            reply := ErrorReply(400, "Failed to load mappings: " + message);
        }
      } else if body.mappings.Some? {
        urlMappings := body.mappings.value;
        reply := MappingsReply("Mappings set", urlMappings);
      } else {
        reply := ErrorReply(400, "Missing file or mappings");
      }
    }

    /** `DELETE /mappings`: report how many rules there were and drop them all. */
    method DeleteMappings() returns (reply: Reply)
      requires Valid()
      modifies this
      ensures Valid() && cache == old(cache) && urlMappings == []
      ensures reply == ClearedReply(|old(urlMappings)|)
    {
      reply := ClearedReply(|urlMappings|);
      urlMappings := [];
    }

    /** `GET /cache/stats`. */
    method CacheStats() returns (reply: Reply)
      ensures reply == CacheStatsReply(cache)
    {
      reply := CacheStatsReply(cache);
    }

    /** `GET /cache/list`. */
    method CacheList() returns (reply: Reply)
      ensures reply == CacheListReply(cache)
    {
      reply := CacheListReply(cache);
    }

    /** `DELETE /cache`: report the number of stored results and drop them all. */
    method DeleteCache() returns (reply: Reply)
      requires Valid()
      modifies this
      ensures Valid() && urlMappings == old(urlMappings) && cache == []
      ensures reply == ClearedReply(|old(cache)|)
    {
      reply := ClearedReply(|cache|);
      cache := [];
    }

    /** `POST /expand`. `loader` gives `jsonld.expand` as it behaves under a
        rewrite table (its document loader rewrites every url first). A
        stored result is served with `cached: true`; otherwise the expansion
        is computed, stored and served with `cached: false`. */
    method ExpandRequest(body: Body, loader: Rules -> Fetch) returns (reply: Reply)
      requires Valid()
      modifies this
      ensures Valid() && urlMappings == old(urlMappings)
      ensures CachedStep(old(cache), body, EXPAND_OP, ExpandUnder(loader, urlMappings), cache, reply)
    {
      if !Truthy(body.url) {
        reply := ErrorReply(400, "Missing url");
        return;
      }
      var url := body.url.value;
      var depth := EffectiveDepth(body.depth);
      var key := CacheKey(url, depth, EXPAND_OP);
      match Lookup(cache, key) {
        case Some(stored) =>
          reply := ResultReply(stored, true);
        case None =>
          var result := ExpandRecursive(loader(urlMappings), url, depth, 0);
          assert ExpandUnder(loader, urlMappings)(url, depth) == Ok(result);
          StoreThenLookup(cache, key, result, key);
          cache := cache + [Entry(key, result)];
          reply := ResultReply(result, false);
      }
    }

    /** `POST /compact`: as `/expand`, with `compactJsonLd`; a failure of the
        compaction is a 500 and stores nothing. */
    method CompactRequest(body: Body, loader: Rules -> Fetch, compact: Rules -> Compactor) returns (reply: Reply)
      requires Valid()
      modifies this
      ensures Valid() && urlMappings == old(urlMappings)
      ensures CachedStep(old(cache), body, COMPACT_OP, CompactUnder(loader, compact, urlMappings), cache, reply)
    {
      if !Truthy(body.url) {
        reply := ErrorReply(400, "Missing url");
        return;
      }
      var url := body.url.value;
      var depth := EffectiveDepth(body.depth);
      var key := CacheKey(url, depth, COMPACT_OP);
      match Lookup(cache, key) {
        case Some(stored) =>
          reply := ResultReply(stored, true);
        case None =>
          var compacted := CompactJsonLd(loader(urlMappings), compact(urlMappings), url, depth);
          assert CompactUnder(loader, compact, urlMappings)(url, depth) == compacted;
          match compacted {
            case Ok(result) =>
              StoreThenLookup(cache, key, result, key);
              cache := cache + [Entry(key, result)];
              reply := ResultReply(result, false);
            case Err(message) =>
              reply := ErrorReply(500, message);
          }
      }
    }

    /** `handleRequest`: the `OPTIONS` pre-flight, then the routes in order;
        a body that is not JSON is a 500, an unknown route a 404. Every
        served route answers and changes state as its endpoint does. */
    method Handle(request: Request, readFile: string -> Result<Table, string>,
                  loader: Rules -> Fetch, compact: Rules -> Compactor) returns (reply: Reply)
      requires Valid()
      modifies this
      ensures Valid()
      ensures request.verb == OPTIONS ==> reply == Reply(204, None) && unchanged(this)
      ensures request.verb != OPTIONS && !IsRoute(request.verb, request.path) ==>
                reply == ErrorReply(404, "Not found") && unchanged(this)
      ensures request.verb != OPTIONS && ParsesBody(request.verb, request.path) && request.body.None? ==>
                reply == ErrorReply(500, "Invalid JSON") && unchanged(this)
      ensures request.verb == GET && request.path == "/health" ==>
                reply == HealthReply(old(cache), old(urlMappings)) && unchanged(this)
      ensures request.verb == GET && request.path == "/mappings" ==>
                reply == TableReply(old(urlMappings)) && unchanged(this)
      ensures request.verb == POST && request.path == "/mappings" && request.body.Some? ==>
                SetMappingsStep(old(urlMappings), request.body.value, readFile, urlMappings, reply)
                && cache == old(cache)
      ensures request.verb == DELETE && request.path == "/mappings" ==>
                reply == ClearedReply(|old(urlMappings)|) && urlMappings == [] && cache == old(cache)
      ensures request.verb == GET && request.path == "/cache/stats" ==>
                reply == CacheStatsReply(old(cache)) && unchanged(this)
      ensures request.verb == GET && request.path == "/cache/list" ==>
                reply == CacheListReply(old(cache)) && unchanged(this)
      ensures request.verb == DELETE && request.path == "/cache" ==>
                reply == ClearedReply(|old(cache)|) && cache == [] && urlMappings == old(urlMappings)
      ensures request.verb == POST && request.path == "/expand" && request.body.Some? ==>
                CachedStep(old(cache), request.body.value, EXPAND_OP, ExpandUnder(loader, old(urlMappings)), cache, reply)
                && urlMappings == old(urlMappings)
      ensures request.verb == POST && request.path == "/compact" && request.body.Some? ==>
                CachedStep(old(cache), request.body.value, COMPACT_OP, CompactUnder(loader, compact, old(urlMappings)),
                           cache, reply)
                && urlMappings == old(urlMappings)
    {
      var m, p := request.verb, request.path;
      if m == OPTIONS {
        reply := Reply(204, None);
      } else if p == "/health" && m == GET {
        reply := Health();
      } else if p == "/mappings" && m == GET {
        reply := GetMappings();
      } else if ParsesBody(m, p) && request.body.None? {
        reply := ErrorReply(500, "Invalid JSON");
      } else if p == "/mappings" && m == POST {
        reply := PostMappings(request.body.value, readFile);
      } else if p == "/mappings" && m == DELETE {
        reply := DeleteMappings();
      } else if p == "/cache/stats" && m == GET {
        reply := CacheStats();
      } else if p == "/cache/list" && m == GET {
        reply := CacheList();
      } else if p == "/cache" && m == DELETE {
        reply := DeleteCache();
      } else if p == "/expand" && m == POST {
        reply := ExpandRequest(request.body.value, loader);
      } else if p == "/compact" && m == POST {
        reply := CompactRequest(request.body.value, loader, compact);
      } else {
        reply := ErrorReply(404, "Not found");
      }
    }

    // -------------------------------------------------------------------
    // Scenarios.

    /** Setting a table and reading it back gives exactly that table. */
    method SetThenGet(rules: Table) returns (setReply: Reply, getReply: Reply)
      requires Valid()
      modifies this
      ensures Valid() && urlMappings == rules && cache == old(cache)
      ensures setReply == MappingsReply("Mappings set", rules)
      ensures getReply == TableReply(rules)
      ensures RulesOfJson(getReply.body.value.entries[0].value) == Some(rules)
    {
      setReply := PostMappings(Body(None, None, None, Some(rules)), _ => Err("unused"));
      getReply := GetMappings();
      RulesJsonRoundTrip(rules);
    }

    /** An expansion repeated with the same url and depth is served from the
        cache, with the result of the first. */
    method ExpandTwice(body: Body, loader: Rules -> Fetch) returns (first: Reply, second: Reply)
      requires Valid() && Truthy(body.url)
      modifies this
      ensures Valid()
      ensures first.body.Some? && first.body.value.Obj? && |first.body.value.entries| == 2
      ensures second == ResultReply(first.body.value.entries[0].value, true)
    {
      first := ExpandRequest(body, loader);
      ghost var key := CacheKey(body.url.value, EffectiveDepth(body.depth), EXPAND_OP);
      if Lookup(old(cache), key).None? {
        StoreThenLookup(old(cache), key, first.body.value.entries[0].value, key);
      }
      second := ExpandRequest(body, loader);
    }

    /** Clearing the cache right after filling it reports what was stored. */
    method ClearAfterExpand(body: Body, loader: Rules -> Fetch) returns (cleared: Reply)
      requires Valid() && Truthy(body.url)
      requires Lookup(cache, CacheKey(body.url.value, EffectiveDepth(body.depth), EXPAND_OP)).None?
      modifies this
      ensures Valid() && cache == []
      ensures cleared == ClearedReply(|old(cache)| + 1)
    {
      var _ := ExpandRequest(body, loader);
      cleared := DeleteCache();
    }
  }

  /** The endpoints that parse a request body. */
  predicate ParsesBody(m: Method, path: string)
  {
    m == POST && (path == "/mappings" || path == "/expand" || path == "/compact")
  }

  /** The method and path pairs the handler serves. */
  predicate IsRoute(m: Method, path: string)
  {
    || (m == GET && (path == "/health" || path == "/mappings" || path == "/cache/stats" || path == "/cache/list"))
    || (m == DELETE && (path == "/mappings" || path == "/cache"))
    || ParsesBody(m, path)
  }
}
