/** The Python client of lib/ldr_client.py: its supervision of an
    auto-started server (launcher search, launch, health polling, guarded
    stop, teardown) and its extraction of results from replies. The HTTP
    session, the file system and the operating system's processes are
    oracles passed as parameters. */
module Client {
  import opened Common
  import opened JsonData

  // ---------------------------------------------------------------------
  // HTTP as the client sees it.

  datatype Verb = GET | POST | DELETE

  /** A request the session sends: verb, full url and JSON body. */
  datatype HttpRequest = HttpRequest(verb: Verb, url: string, body: Option<Json>)

  /** What the session gives back: a response with its status and its body
      (`None` when the body is not JSON), or the reason of a raised
      connection error. */
  datatype HttpOutcome = Response(status: int, body: Option<Json>) | Raised(reason: string)

  /** The exceptions the client's methods raise. */
  datatype ClientError =
    | RuntimeError(message: string)
    | OsError(message: string)
    | ConnectionError(reason: string)
    | HttpError(status: int)
    | DecodeError
    | MissingResult

  const DEFAULT_PORT: int := 3000
  const POLL_ATTEMPTS: nat := 20
  const NOT_FOUND_MESSAGE := "Could not find ldr-server.js. Install with: npm install jsonld-recursive"
  const STARTUP_TIMEOUT_MESSAGE := "Server failed to start within 10 seconds"
  const KILL_COMMAND := ["pkill", "ldr-server"]

  /** The launcher locations, in the order they are tried. */
  const SCRIPT_CANDIDATES := ["ldr-server.js", "../ldr-server.js",
                              "node_modules/jsonld-recursive/ldr-server.js",
                              "../node_modules/jsonld-recursive/ldr-server.js"]

  /** `base_url.rstrip('/')`. */
  function TrimTrailingSlashes(s: string): (r: string)
    ensures |r| <= |s| && r == s[..|r|]
    ensures |r| == 0 || r[|r| - 1] != '/'
    ensures forall k :: |r| <= k < |s| ==> s[k] == '/'
    decreases |s|
  {
    if |s| > 0 && s[|s| - 1] == '/' then TrimTrailingSlashes(s[..|s| - 1]) else s
  }

  /** Those three facts single the trimmed url out: any prefix with no
      trailing slash that drops only slashes is it. */
  lemma TrimUnique(s: string, t: string)
    requires |t| <= |s| && t == s[..|t|]
    requires |t| == 0 || t[|t| - 1] != '/'
    requires forall k :: |t| <= k < |s| ==> s[k] == '/'
    ensures t == TrimTrailingSlashes(s)
  {
  }

  /** The request `_is_server_running` sends. */
  function HealthCall(baseUrl: string): HttpRequest
  {
    HttpRequest(GET, baseUrl + "/health", None)
  }

  /** `_is_server_running` on the outcome of `HealthCall`: a 200 answer;
      any raised error counts as not running. */
  predicate IsRunning(probe: HttpOutcome)
  {
    probe.Response? && probe.status == 200
  }

  /** `response.raise_for_status()`, `response.json()` and `data['result']`. */
  function ExtractResult(outcome: HttpOutcome): (r: Result<Json, ClientError>)
    ensures outcome.Raised? ==> r == Err(ConnectionError(outcome.reason))
    ensures outcome.Response? && 400 <= outcome.status < 600 ==> r == Err(HttpError(outcome.status))
    ensures r.Ok? <==> (&& outcome.Response? && !(400 <= outcome.status < 600)
                        && outcome.body.Some? && outcome.body.value.Obj?
                        && Lookup(outcome.body.value.entries, "result").Some?)
    ensures r.Ok? ==> exists i :: 0 <= i < |outcome.body.value.entries|
                                   && outcome.body.value.entries[i] == Entry("result", r.value)
  {
    match outcome
    case Raised(reason) => Err(ConnectionError(reason))
    case Response(status, body) =>
      if 400 <= status < 600 then Err(HttpError(status))
      else if body.None? then Err(DecodeError)
      else if !body.value.Obj? then Err(MissingResult)
      else
        match Lookup(body.value.entries, "result")
        case Some(result) => Ok(result)
        case None => Err(MissingResult)
  }

  /** A successful reply's `result` member is what the client returns. */
  lemma ExtractStoredResult(status: int, entries: Entries<Json>, i: nat)
    requires !(400 <= status < 600)
    requires DistinctKeys(entries) && i < |entries| && entries[i].key == "result"
    ensures ExtractResult(Response(status, Some(Obj(entries)))) == Ok(entries[i].value)
  {
    LookupDistinct(entries, i);
  }

  /** The body `{"url": url, "depth": depth}` of `expand` and `compact`. */
  function UrlDepthBody(url: string, depth: int): Json
  {
    Obj([Entry("url", Str(url)), Entry("depth", Num(depth))])
  }

  /** A launched server process: its argument vector, the variables added to
      its environment and its pid. */
  datatype Process = Process(argv: seq<string>, env: Entries<string>, pid: int)

  /** The environment additions for a launch on `port`. */
  function LaunchEnv(port: int, mappingsFile: Option<string>): (env: Entries<string>)
    ensures |env| >= 1 && env[0] == Entry("PORT", IntToString(port))
    ensures mappingsFile.Some? && mappingsFile.value != "" <==> |env| == 2
    ensures |env| == 2 ==> env[1] == Entry("MAPPINGS_FILE", mappingsFile.value)
  {
    [Entry("PORT", IntToString(port))]
    + (if mappingsFile.Some? && mappingsFile.value != "" then [Entry("MAPPINGS_FILE", mappingsFile.value)] else [])
  }

  /** Candidate i is the first that exists. */
  ghost predicate FirstExistingAt(pathExists: string -> bool, i: int)
  {
    && 0 <= i < |SCRIPT_CANDIDATES|
    && pathExists(SCRIPT_CANDIDATES[i])
    && forall j :: 0 <= j < i ==> !pathExists(SCRIPT_CANDIDATES[j])
  }

  /** `_find_server_script`: the absolute path of the first candidate that
      exists, or nothing. */
  method FindServerScript(pathExists: string -> bool, absPath: string -> string) returns (script: Option<string>)
    ensures script.None? <==> forall i :: 0 <= i < |SCRIPT_CANDIDATES| ==> !pathExists(SCRIPT_CANDIDATES[i])
    ensures script.Some? ==> exists i :: FirstExistingAt(pathExists, i) && script.value == absPath(SCRIPT_CANDIDATES[i])
  {
    if pathExists("ldr-server.js") {
      assert FirstExistingAt(pathExists, 0);
      return Some(absPath("ldr-server.js"));
    }
    if pathExists("../ldr-server.js") {
      assert FirstExistingAt(pathExists, 1);
      return Some(absPath("../ldr-server.js"));
    }
    var paths := ["node_modules/jsonld-recursive/ldr-server.js",
                  "../node_modules/jsonld-recursive/ldr-server.js"];
    var k := 0;
    while k < |paths|
      invariant 0 <= k <= |paths|
      invariant forall j :: 0 <= j < 2 + k ==> !pathExists(SCRIPT_CANDIDATES[j])
    {
      if pathExists(paths[k]) {
        assert FirstExistingAt(pathExists, 2 + k);
        return Some(absPath(paths[k]));
      }
      k := k + 1;
    }
    return None;
  }

  /** The poll loop after a launch: up to 20 health probes, stopping at the
      first that succeeds. `poll(i, request)` answers the i-th probe.
      Reports whether one succeeded and how many were made. */
  method WaitForServer(baseUrl: string, poll: (nat, HttpRequest) -> HttpOutcome) returns (up: bool, polls: nat)
    ensures 1 <= polls <= POLL_ATTEMPTS
    ensures up <==> exists i :: 0 <= i < POLL_ATTEMPTS && IsRunning(poll(i, HealthCall(baseUrl)))
    ensures up ==> && IsRunning(poll(polls - 1, HealthCall(baseUrl)))
                   && forall j :: 0 <= j < polls - 1 ==> !IsRunning(poll(j, HealthCall(baseUrl)))
    ensures !up ==> polls == POLL_ATTEMPTS
  {
    var i := 0;
    while i < POLL_ATTEMPTS
      invariant 0 <= i <= POLL_ATTEMPTS
      invariant forall j :: 0 <= j < i ==> !IsRunning(poll(j, HealthCall(baseUrl)))
    {
      if IsRunning(poll(i, HealthCall(baseUrl))) {
        return true, i + 1;
      }
      i := i + 1;
    }
    return false, POLL_ATTEMPTS;
  }

  /** The request `compact(url, depth)` sends. */
  function CompactCall(baseUrl: string, url: string, depth: int): HttpRequest
  {
    HttpRequest(POST, baseUrl + "/compact", Some(UrlDepthBody(url, depth)))
  }

  /** All of the first n urls compacted successfully. */
  ghost predicate AllCompacted(baseUrl: string, urls: seq<string>, depth: int, send: (nat, HttpRequest) -> HttpOutcome, n: nat)
    requires n <= |urls|
  {
    forall j :: 0 <= j < n ==> ExtractResult(send(j, CompactCall(baseUrl, urls[j], depth))).Ok?
  }

  /** What `_start_server(port)` leaves behind, from the state before it
      (auto-start flag, pid, process, commands run) and with `mappingsFile`
      configured: with no launcher, or a launch that raises, that error and
      nothing changed; after a launch, the process recorded and the
      timeout error exactly when none of the 20 polls succeeds. */
  ghost predicate StartedAs(autoStarted0: bool, pid0: Option<int>, process0: Option<Process>, commands0: seq<seq<string>>,
                            port: int, mappingsFile: Option<string>, baseUrl: string,
                            pathExists: string -> bool, absPath: string -> string,
                            spawn: Result<int, string>, poll: (nat, HttpRequest) -> HttpOutcome,
                            outcome: Outcome<ClientError>,
                            autoStarted: bool, pid: Option<int>, process: Option<Process>, commands: seq<seq<string>>)
  {
    if forall i :: 0 <= i < |SCRIPT_CANDIDATES| ==> !pathExists(SCRIPT_CANDIDATES[i]) then
      && outcome == Fail(RuntimeError(NOT_FOUND_MESSAGE))
      && autoStarted == autoStarted0 && pid == pid0 && process == process0 && commands == commands0
    else if spawn.Err? then
      && outcome == Fail(OsError(spawn.error))
      && autoStarted == autoStarted0 && pid == pid0 && process == process0 && commands == commands0
    else
      && autoStarted && pid == Some(spawn.value)
      && process.Some? && process.value.pid == spawn.value
      && process.value.env == LaunchEnv(port, mappingsFile)
      && (exists i :: FirstExistingAt(pathExists, i) && process.value.argv == ["node", absPath(SCRIPT_CANDIDATES[i])])
      && commands == commands0 + [process.value.argv]
      && (outcome.Pass? <==> exists i :: 0 <= i < POLL_ATTEMPTS && IsRunning(poll(i, HealthCall(baseUrl))))
      && (outcome.Fail? ==> outcome.error == RuntimeError(STARTUP_TIMEOUT_MESSAGE))
  }

  class LdrClient {
    var baseUrl: string
    var timeout: int
    var autoStarted: bool
    var serverPid: Option<int>
    var serverProcess: Option<Process>
    var mappingsFile: Option<string>
    /** How many times the session has been closed. */
    var closeCalls: nat
    /** The operating-system commands run so far, in order. */
    var commands: seq<seq<string>>

    /** The field assignments of `__init__`; the auto-start that ends it is
        `AutoStartIfNeeded`, and `Open` performs both. */
    constructor (baseUrl: string, timeout: int, mappingsFile: Option<string>)
      ensures this.baseUrl == TrimTrailingSlashes(baseUrl)
      ensures this.timeout == timeout && this.mappingsFile == mappingsFile
      ensures !autoStarted && serverPid.None? && serverProcess.None?
      ensures closeCalls == 0 && commands == []
    {
      this.baseUrl := TrimTrailingSlashes(baseUrl);
      this.timeout := timeout;
      this.mappingsFile := mappingsFile;
      autoStarted := false;
      serverPid := None;
      serverProcess := None;
      closeCalls := 0;
      commands := [];
    }

    /** `_start_server(port)`: find the launcher, launch `node <script>`
        (recording the process and setting `auto_started`), then poll. With
        no launcher, or a launch that raises, nothing changes. */
    method StartServer(port: int, pathExists: string -> bool, absPath: string -> string,
                       spawn: Result<int, string>, poll: (nat, HttpRequest) -> HttpOutcome)
      returns (outcome: Outcome<ClientError>, polls: nat)
      modifies this
      ensures baseUrl == old(baseUrl) && timeout == old(timeout) && mappingsFile == old(mappingsFile)
      ensures closeCalls == old(closeCalls)
      ensures StartedAs(old(autoStarted), old(serverPid), old(serverProcess), old(commands), port, mappingsFile,
                        baseUrl, pathExists, absPath, spawn, poll, outcome, autoStarted, serverPid, serverProcess, commands)
      ensures polls <= POLL_ATTEMPTS
      ensures polls == 0 <==> (forall i :: 0 <= i < |SCRIPT_CANDIDATES| ==> !pathExists(SCRIPT_CANDIDATES[i])) || spawn.Err?
      ensures polls > 0 && outcome.Fail? ==> polls == POLL_ATTEMPTS
    {
      var script := FindServerScript(pathExists, absPath);
      if script.None? {
        return Fail(RuntimeError(NOT_FOUND_MESSAGE)), 0;
      }
      var env := LaunchEnv(port, mappingsFile);
      var argv := ["node", script.value];
      match spawn {
        case Err(message) =>
          return Fail(OsError(message)), 0;
        case Ok(pid) =>
          serverProcess := Some(Process(argv, env, pid));
          commands := commands + [argv];
          serverPid := Some(pid);
          autoStarted := true;
      }
      var up;
      up, polls := WaitForServer(baseUrl, poll);
      if up {
        outcome := Pass;
      } else {
        outcome := Fail(RuntimeError(STARTUP_TIMEOUT_MESSAGE));
      }
    }

    /** The end of `__init__`: launch only when asked to and the health
        probe fails. */
    method AutoStartIfNeeded(autoStartServer: bool, probe: HttpRequest -> HttpOutcome, pathExists: string -> bool,
                             absPath: string -> string, spawn: Result<int, string>,
                             poll: (nat, HttpRequest) -> HttpOutcome)
      returns (outcome: Outcome<ClientError>)
      modifies this
      ensures baseUrl == old(baseUrl) && timeout == old(timeout) && mappingsFile == old(mappingsFile)
      ensures closeCalls == old(closeCalls)
      ensures !autoStartServer || IsRunning(probe(HealthCall(baseUrl))) ==>
                outcome == Pass && unchanged(this)
      ensures autoStarted ==> (autoStartServer && !IsRunning(probe(HealthCall(baseUrl)))) || old(autoStarted)
      ensures autoStartServer && !IsRunning(probe(HealthCall(baseUrl))) ==>
                StartedAs(old(autoStarted), old(serverPid), old(serverProcess), old(commands), DEFAULT_PORT,
                          mappingsFile, baseUrl, pathExists, absPath, spawn, poll, outcome, autoStarted, serverPid, serverProcess, commands)
    {
      outcome := Pass;
      if autoStartServer {
        if !IsRunning(probe(HealthCall(baseUrl))) {
          var polls;
          outcome, polls := StartServer(DEFAULT_PORT, pathExists, absPath, spawn, poll);
        }
      }
    }

    /** `stop_server`: nothing unless this client started the server; then
        run `pkill ldr-server`, and clear `auto_started` only when that did
        not raise (a failure is printed, never raised). */
    method StopServer(killRaised: bool)
      modifies this
      ensures baseUrl == old(baseUrl) && timeout == old(timeout) && mappingsFile == old(mappingsFile)
      ensures serverPid == old(serverPid) && serverProcess == old(serverProcess) && closeCalls == old(closeCalls)
      ensures !old(autoStarted) ==> unchanged(this)
      ensures old(autoStarted) ==> commands == old(commands) + [KILL_COMMAND] && autoStarted == killRaised
    {
      if !autoStarted {
        return;
      }
      commands := commands + [KILL_COMMAND];
      if !killRaised {
        autoStarted := false;
      }
    }

    /** `__exit__`: stop an auto-started server, then always close the session. */
    method Exit(killRaised: bool)
      modifies this
      ensures closeCalls == old(closeCalls) + 1
      ensures baseUrl == old(baseUrl) && timeout == old(timeout) && mappingsFile == old(mappingsFile)
      ensures serverPid == old(serverPid) && serverProcess == old(serverProcess)
      ensures !old(autoStarted) ==> commands == old(commands) && !autoStarted
      ensures old(autoStarted) ==> commands == old(commands) + [KILL_COMMAND] && autoStarted == killRaised
    {
      if autoStarted {
        StopServer(killRaised);
      }
      closeCalls := closeCalls + 1;
    }

    /** `__del__`: close the session again, without a guard. */
    method Del()
      modifies this
      ensures closeCalls == old(closeCalls) + 1
      ensures baseUrl == old(baseUrl) && timeout == old(timeout) && mappingsFile == old(mappingsFile)
      ensures serverPid == old(serverPid) && serverProcess == old(serverProcess)
      ensures autoStarted == old(autoStarted) && commands == old(commands)
    {
      closeCalls := closeCalls + 1;
    }

    /** `compact(url, depth)`. */
    method Compact(url: string, depth: int, send: HttpRequest -> HttpOutcome) returns (r: Result<Json, ClientError>)
      ensures r == ExtractResult(send(CompactCall(baseUrl, url, depth)))
    {
      r := ExtractResult(send(CompactCall(baseUrl, url, depth)));
    }

    /** `expand(url, depth)`. */
    method Expand(url: string, depth: int, send: HttpRequest -> HttpOutcome) returns (r: Result<Json, ClientError>)
      ensures r == ExtractResult(send(HttpRequest(POST, baseUrl + "/expand", Some(UrlDepthBody(url, depth)))))
    {
      r := ExtractResult(send(HttpRequest(POST, baseUrl + "/expand", Some(UrlDepthBody(url, depth)))));
    }

    /** `compact_batch(urls, depth)`: one `compact` per url, in order; the
        first error aborts the batch. `send(i, request)` answers the i-th
        request of the batch. */
    method CompactBatch(urls: seq<string>, depth: int, send: (nat, HttpRequest) -> HttpOutcome)
      returns (r: Result<seq<Json>, ClientError>, sent: nat)
      ensures sent <= |urls|
      ensures r.Ok? <==> AllCompacted(baseUrl, urls, depth, send, |urls|)
      ensures r.Ok? ==> sent == |urls| && |r.value| == |urls|
                        && forall i :: 0 <= i < |urls| ==>
                             ExtractResult(send(i, CompactCall(baseUrl, urls[i], depth))) == Ok(r.value[i])
      ensures r.Err? ==> && 1 <= sent && AllCompacted(baseUrl, urls, depth, send, sent - 1)
                         && ExtractResult(send(sent - 1, CompactCall(baseUrl, urls[sent - 1], depth))) == Err(r.error)
    {
      var results: seq<Json> := [];
      var i := 0;
      while i < |urls|
        invariant 0 <= i <= |urls| && |results| == i
        invariant AllCompacted(baseUrl, urls, depth, send, i)
        invariant forall j :: 0 <= j < i ==> ExtractResult(send(j, CompactCall(baseUrl, urls[j], depth))) == Ok(results[j])
      {
        var result := Compact(urls[i], depth, request => send(i, request));
        if result.Err? {
          return Err(result.error), i + 1;
        }
        results := results + [result.value];
        i := i + 1;
      }
      return Ok(results), |urls|;
    }

    // -------------------------------------------------------------------
    // Scenarios.

    /** A second stop after a successful one does nothing. */
    method StopTwice()
      requires autoStarted
      modifies this
      ensures !autoStarted && commands == old(commands) + [KILL_COMMAND]
      ensures baseUrl == old(baseUrl) && timeout == old(timeout) && mappingsFile == old(mappingsFile)
      ensures serverPid == old(serverPid) && serverProcess == old(serverProcess) && closeCalls == old(closeCalls)
    {
      StopServer(false);
      StopServer(false);
    }

    /** Leaving the `with` block and then collecting the client closes the
        session twice. */
    method ExitThenDel(killRaised: bool)
      modifies this
      ensures closeCalls == old(closeCalls) + 2
      ensures baseUrl == old(baseUrl) && timeout == old(timeout) && mappingsFile == old(mappingsFile)
      ensures serverPid == old(serverPid) && serverProcess == old(serverProcess)
    {
      Exit(killRaised);
      Del();
    }
  }

  /** `LdrClient(base_url, timeout, max_retries, auto_start_server,
      mappings_file)`: the fields, then the auto-start, whose error is raised
      from the constructor. The retry count only configures the session. */
  method Open(baseUrl: string, timeout: int, autoStartServer: bool, mappingsFile: Option<string>,
              probe: HttpRequest -> HttpOutcome, pathExists: string -> bool, absPath: string -> string,
              spawn: Result<int, string>, poll: (nat, HttpRequest) -> HttpOutcome)
    returns (client: LdrClient, outcome: Outcome<ClientError>)
    ensures fresh(client)
    ensures client.baseUrl == TrimTrailingSlashes(baseUrl) && client.mappingsFile == mappingsFile
    ensures client.timeout == timeout && client.closeCalls == 0
    ensures !autoStartServer || IsRunning(probe(HealthCall(client.baseUrl))) ==>
              && outcome == Pass && !client.autoStarted && client.commands == []
              && client.serverPid.None? && client.serverProcess.None?
    ensures client.autoStarted ==> autoStartServer && !IsRunning(probe(HealthCall(client.baseUrl)))
    ensures autoStartServer && !IsRunning(probe(HealthCall(client.baseUrl))) ==>
              StartedAs(false, None, None, [], DEFAULT_PORT, mappingsFile, client.baseUrl, pathExists, absPath, spawn, poll, outcome,
                        client.autoStarted, client.serverPid, client.serverProcess, client.commands)
  {
    client := new LdrClient(baseUrl, timeout, mappingsFile);
    outcome := client.AutoStartIfNeeded(autoStartServer, probe, pathExists, absPath, spawn, poll);
  }
}
