/**
  The run-once phase gate of spec/fixtures/proxy_wasm_filters/tests: `run_tests` of test_http.rs
  with the routines it calls. The gate reads control headers, deletes them when its phase comes,
  and then runs a routine that can add any one header back.
*/
module PhaseGate {
  import opened Wrappers
  import opened Headers
  import Seqs

  datatype Phase = RequestHeaders | RequestBody | ResponseHeaders | ResponseBody | Log

  function ParsePhase(s: string): Option<Phase> {
    match s
    case "request_headers" => Some(RequestHeaders)
    case "request_body" => Some(RequestBody)
    case "response_headers" => Some(ResponseHeaders)
    case "response_body" => Some(ResponseBody)
    case "log" => Some(Log)
    case _ => None
  }

  /** The phases' names in snake case. */
  function PhaseName(p: Phase): string {
    match p
    case RequestHeaders => "request_headers"
    case RequestBody => "request_body"
    case ResponseHeaders => "response_headers"
    case ResponseBody => "response_body"
    case Log => "log"
  }

  /** A header value names a phase exactly if it is the phase's name. */
  lemma ParsePhaseIff(s: string, p: Phase)
    ensures ParsePhase(s) == Some(p) <==> s == PhaseName(p)
  {
    match p {
      case RequestHeaders =>
      case RequestBody =>
      case ResponseHeaders =>
      case ResponseBody =>
      case Log =>
    }
  }

  const PHASE := "X-PW-Phase"
  const TEST := "X-PW-Test"
  const INPUT := "X-PW-Input"
  const ADD := "X-PW-Add-Header"
  const ADD_RESPONSE := "X-PW-Add-Resp-Header"
  const FROM_CONFIG := "X-PW-Resp-Header-From-Config"

  function SplitOnce(s: string, c: char): (r: Option<(string, string)>)
    ensures r.None? <==> c !in s
    ensures r.Some? ==> s == r.value.0 + [c] + r.value.1 && c !in r.value.0
  {
    if s == "" then None
    else if s[0] == c then Some(("", s[1..]))
    else
      match SplitOnce(s[1..], c)
      case None => None
      case Some((a, b)) => Some(([s[0]] + a, b))
  }

  datatype State = State(request: Map, response: Map)
  datatype Action = Continue | Pause | Trap

  /** What one callback did: whether the guarded block ran, and the test it dispatched. */
  datatype Report = Report(ran: bool, dispatched: Option<string>, action: Action)

  /** `add_request_header`; None when the header has no "=" and the routine panics. */
  function AddRequestHeader(h: Map): Option<Map> {
    match Get(h, ADD)
    case None => Some(h)
    case Some(v) =>
      match SplitOnce(v, '=')
      case None => None
      case Some((name, value)) => Some(Set(Add(h, name, value), ADD, None))
  }

  /** The first half of `add_response_header`. */
  function AddWanted(st: State): Option<State> {
    match Get(st.request, ADD_RESPONSE)
    case None => Some(st)
    case Some(v) =>
      match SplitOnce(v, '=')
      case None => None
      case Some((name, value)) => Some(State(Set(st.request, ADD_RESPONSE, None), Add(st.response, name, value)))
  }

  /** `add_response_header`; `config` is the plugin configuration, if there is one. */
  function AddResponseHeader(config: Option<map<string, string>>, st: State): Option<State> {
    if AddWanted(st).Some? && config.Some? && "add_resp_header" in config.value
    then Some(AddWanted(st).value.(response :=
      Add(AddWanted(st).value.response, FROM_CONFIG, config.value["add_resp_header"])))
    else AddWanted(st)
  }

  function Cleared(h: Map): Map {
    Set(Set(Set(h, INPUT, None), TEST, None), PHASE, None)
  }

  /** The phase the gate waits for; None when the header names no phase and the gate panics. */
  function Gate(h: Map): Option<Phase> {
    match Get(h, PHASE)
    case None => Some(RequestHeaders)
    case Some(s) => ParsePhase(s)
  }

  /** One callback of the host; `callFails` says that it would refuse an outgoing call. */
  datatype Callback = Callback(phase: Phase, callFails: bool)

  function Dispatch(test: Option<string>, callFails: bool): Action {
    match test
    case None => Continue
    case Some(t) =>
      if t == "trap" then Trap
      else if t == "echo_http_dispatch" then if callFails then Trap else Pause
      else Continue
  }

  function Step(config: Option<map<string, string>>, st: State, cb: Callback): (State, Report) {
    var gate := Gate(st.request);
    if gate.None? then (st, Report(false, None, Trap))
    else if gate.value != cb.phase then (st, Report(false, None, Continue))
    else
      var st0 := st.(request := Cleared(st.request));
      match AddRequestHeader(st0.request)
      case None => (st0, Report(true, None, Trap))
      case Some(h1) =>
        match AddResponseHeader(config, st0.(request := h1))
        case None => (st0.(request := h1), Report(true, None, Trap))
        case Some(st2) =>
          var test := Get(st.request, TEST);
          (st2, Report(true, test, Dispatch(test, cb.callFails)))
  }

  // ----- The code -----

  class TestHttp {
    const config: Option<map<string, string>>
    var request: Map
    var response: Map

    constructor (config: Option<map<string, string>>, request: Map, response: Map)
      ensures this.config == config && this.request == request && this.response == response
    {
      this.config, this.request, this.response := config, request, response;
    }

    method AddRequestHeaderRoutine() returns (panics: bool)
      modifies this`request
      ensures panics <==> AddRequestHeader(old(request)).None?
      ensures request == AddRequestHeader(old(request)).GetOr(old(request))
    {
      var header := Get(request, ADD);
      if header.Some? {
        var split := SplitOnce(header.value, '=');
        if split.None? {
          return true;
        }
        request := Add(request, split.value.0, split.value.1);
        request := Set(request, ADD, None);
      }
      return false;
    }

    method AddResponseHeaderRoutine() returns (panics: bool)
      modifies this`request, this`response
      ensures panics <==> AddResponseHeader(config, old(State(request, response))).None?
      ensures State(request, response)
           == AddResponseHeader(config, old(State(request, response))).GetOr(old(State(request, response)))
    {
      var header := Get(request, ADD_RESPONSE);
      if header.Some? {
        var split := SplitOnce(header.value, '=');
        if split.None? {
          return true;
        }
        response := Add(response, split.value.0, split.value.1);
        request := Set(request, ADD_RESPONSE, None);
      }
      if config.Some? && "add_resp_header" in config.value {
        response := Add(response, FROM_CONFIG, config.value["add_resp_header"]);
      }
      return false;
    }

    method RunTests(phase: Phase, callFails: bool) returns (report: Report)
      modifies this`request, this`response
      ensures (State(request, response), report)
           == Step(config, old(State(request, response)), Callback(phase, callFails))
    {
      var optTest := Get(request, TEST);
      var phaseHeader := Get(request, PHASE);
      var onPhase := RequestHeaders;
      if phaseHeader.Some? {
        var parsed := ParsePhase(phaseHeader.value);
        if parsed.None? {
          return Report(false, None, Trap);
        }
        onPhase := parsed.value;
      }
      if phase == onPhase {
        request := Set(request, INPUT, None);
        request := Set(request, TEST, None);
        request := Set(request, PHASE, None);
        var panics := AddRequestHeaderRoutine();
        if panics {
          return Report(true, None, Trap);
        }
        panics := AddResponseHeaderRoutine();
        if panics {
          return Report(true, None, Trap);
        }
        return Report(true, optTest, Dispatch(optTest, callFails));
      }
      return Report(false, None, Continue);
    }
  }

  // ----- Runs: one callback after another, until one traps -----

  datatype Tally = Tally(blocks: nat, tests: seq<string>, last: State)

  function Run(config: Option<map<string, string>>, st: State, cbs: seq<Callback>): Tally
    decreases |cbs|
  {
    if cbs == [] then Tally(0, [], st)
    else
      var (st', report) := Step(config, st, cbs[0]);
      var rest := if report.action.Trap? then Tally(0, [], st') else Run(config, st', cbs[1..]);
      Tally((if report.ran then 1 else 0) + rest.blocks,
            (if report.dispatched.Some? then [report.dispatched.value] else []) + rest.tests,
            rest.last)
  }

  /** A callback of this phase is among them. */
  predicate Comes(phase: Phase, cbs: seq<Callback>) {
    exists i :: 0 <= i < |cbs| && cbs[i].phase == phase
  }

  predicate Has(h: Map, name: string) {
    Get(h, name).Some?
  }

  lemma ControlNamesDiffer()
    ensures Lower(PHASE) != Lower(ADD) && Lower(PHASE) != Lower(TEST) && Lower(PHASE) != Lower(INPUT)
    ensures Lower(TEST) != Lower(ADD) && Lower(TEST) != Lower(INPUT) && Lower(ADD) != Lower(INPUT)
    ensures Lower(ADD_RESPONSE) != Lower(PHASE) && Lower(ADD_RESPONSE) != Lower(TEST) && Lower(ADD_RESPONSE) != Lower(ADD)
  {
    assert |PHASE| == 10 && |TEST| == 9 && |INPUT| == 10 && |ADD| == 15 && |ADD_RESPONSE| == 20;
    assert Lower(PHASE)[5] == 'p' && Lower(INPUT)[5] == 'i';
  }

  /** The header that `add_request_header` puts back, if any. */
  function PutBack(h: Map): Option<(string, string)> {
    match Get(h, ADD)
    case None => None
    case Some(v) =>
      match SplitOnce(v, '=')
      case None => None
      case Some((name, value)) => Some((Lower(name), value))
  }

  lemma ClearedLookups(h: Map)
    ensures Get(Cleared(h), ADD) == Get(h, ADD) && !Has(Cleared(h), PHASE) && !Has(Cleared(h), TEST)
  {
    ControlNamesDiffer();
  }

  lemma PutBackLookups(h: Map)
    requires AddRequestHeader(h).Some? && !Has(h, PHASE) && !Has(h, TEST)
    ensures var h' := AddRequestHeader(h).value;
      && !Has(h', ADD)
      && Get(h', PHASE) == PutBackAs(h, PHASE)
      && Get(h', TEST) == PutBackAs(h, TEST)
  {
    ControlNamesDiffer();
    if Get(h, ADD).Some? {
      var (name, value) := SplitOnce(Get(h, ADD).value, '=').value;
      var h1 := Add(h, name, value);
      assert Values(h, Lower(PHASE)) == [] && Values(h, Lower(TEST)) == [];
      assert Get(h1, PHASE) == if Lower(name) == Lower(PHASE) then Some(value) else None;
      assert Get(h1, TEST) == if Lower(name) == Lower(TEST) then Some(value) else None;
    }
  }

  lemma ResponseRoutineKeeps(config: Option<map<string, string>>, st: State, name: string)
    requires AddResponseHeader(config, st).Some? && Lower(name) != Lower(ADD_RESPONSE)
    ensures Get(AddResponseHeader(config, st).value.request, name) == Get(st.request, name)
  {
  }

  /** The value under which `add_request_header` puts `name` back, if it does. */
  function PutBackAs(h: Map, name: string): Option<string> {
    if PutBack(h).Some? && PutBack(h).value.0 == Lower(name) then Some(PutBack(h).value.1) else None
  }

  /**
    After the block has run without a trap: the header that puts others back is gone, and the phase
    and test headers are there only if they were put back, so never both.
  */
  lemma AfterBlock(config: Option<map<string, string>>, st: State, cb: Callback)
    requires Step(config, st, cb).1.ran && !Step(config, st, cb).1.action.Trap?
    ensures var h, h' := st.request, Step(config, st, cb).0.request;
      && !Has(h', ADD)
      && Get(h', PHASE) == PutBackAs(h, PHASE)
      && Get(h', TEST) == PutBackAs(h, TEST)
      && !(Has(h', PHASE) && Has(h', TEST))
  {
    ControlNamesDiffer();
    var h0 := Cleared(st.request);
    ClearedLookups(st.request);
    PutBackLookups(h0);
    var st1 := st.(request := AddRequestHeader(h0).value);
    ResponseRoutineKeeps(config, st1, ADD);
    ResponseRoutineKeeps(config, st1, PHASE);
    ResponseRoutineKeeps(config, st1, TEST);
  }

  /** The response header the block adds for the client, if any. */
  function Wanted(h: Map): Option<string> {
    if Has(h, ADD_RESPONSE) then Get(h, ADD_RESPONSE) else PutBackAs(h, ADD_RESPONSE)
  }

  predicate IsControl(n: string) {
    n == Lower(PHASE) || n == Lower(TEST) || n == Lower(INPUT) || n == Lower(ADD) || n == Lower(ADD_RESPONSE)
  }

  lemma AddRequestExactly(h: Map, n: string)
    requires AddRequestHeader(h).Some?
    ensures Values(AddRequestHeader(h).value, n) ==
      if n == Lower(ADD) then []
      else Values(h, n) + if PutBack(h).Some? && PutBack(h).value.0 == n then [PutBack(h).value.1] else []
  {
    assert Values(h, n) + [] == Values(h, n);
  }

  lemma AddResponseExactly(config: Option<map<string, string>>, st: State, n: string)
    requires AddResponseHeader(config, st).Some?
    ensures var st' := AddResponseHeader(config, st).value;
      && Values(st'.request, n) == (if n == Lower(ADD_RESPONSE) then [] else Values(st.request, n))
      && Values(st'.response, n)
         == Values(st.response, n) + FromClient(Get(st.request, ADD_RESPONSE), n) + FromConfig(config, n)
  {
    AddWantedExactly(st, n);
    Seqs.AppendEmpty(Values(AddWanted(st).value.response, n));
  }

  lemma AddWantedExactly(st: State, n: string)
    requires AddWanted(st).Some?
    ensures Values(AddWanted(st).value.request, n) == if n == Lower(ADD_RESPONSE) then [] else Values(st.request, n)
    ensures Values(AddWanted(st).value.response, n)
         == Values(st.response, n) + FromClient(Get(st.request, ADD_RESPONSE), n)
  {
    Seqs.AppendEmpty(Values(st.response, n));
  }

  /** What a header that asks for "name=value" adds under `n`. */
  function FromClient(wanted: Option<string>, n: string): seq<string> {
    match wanted
    case None => []
    case Some(v) =>
      match SplitOnce(v, '=')
      case None => []
      case Some((name, value)) => if Lower(name) == n then [value] else []
  }

  function FromConfig(config: Option<map<string, string>>, n: string): seq<string> {
    if n == Lower("X-PW-Resp-Header-From-Config") && config.Some? && "add_resp_header" in config.value
    then [config.value["add_resp_header"]] else []
  }

  lemma ClearedExactly(h: Map, n: string)
    ensures Values(Cleared(h), n) ==
      if n == Lower("X-PW-Phase") || n == Lower("X-PW-Test") || n == Lower("X-PW-Input") then [] else Values(h, n)
  {
  }

  /**
    Every header after a block that did not panic. Of the request, the control headers are gone, and
    the one that was asked for has its value more; of the response, the one that was asked for and
    the configured one have theirs more, in this order.
  */
  lemma HeadersAfterBlock(config: Option<map<string, string>>, st: State, cb: Callback, n: string)
    requires Gate(st.request) == Some(cb.phase) && !RoutinePanics(config, st)
    ensures var h, st' := st.request, Step(config, st, cb).0;
      && Values(st'.request, n) ==
           (if n == Lower("X-PW-Add-Header") || n == Lower("X-PW-Add-Resp-Header") then []
            else (if n == Lower("X-PW-Phase") || n == Lower("X-PW-Test") || n == Lower("X-PW-Input") then []
                  else Values(h, n))
                 + if PutBack(h).Some? && PutBack(h).value.0 == n then [PutBack(h).value.1] else [])
      && Values(st'.response, n) == Values(st.response, n) + FromClient(Wanted(h), n) + FromConfig(config, n)
  {
    ControlNamesDiffer();
    var h0 := Cleared(st.request);
    ClearedLookups(st.request);
    ClearedExactly(st.request, n);
    assert PutBack(h0) == PutBack(st.request);
    AddRequestExactly(h0, n);
    var st1 := st.(request := AddRequestHeader(h0).value);
    AddResponseExactly(config, st1, n);
    WantedAfter(st.request);
  }

  lemma WantedAfter(h: Map)
    requires AddRequestHeader(Cleared(h)).Some?
    ensures Get(AddRequestHeader(Cleared(h)).value, ADD_RESPONSE) == Wanted(h)
  {
    ControlNamesDiffer();
    var h0 := Cleared(h);
    ClearedLookups(h);
    ClearedExactly(h, Lower(ADD_RESPONSE));
    AddRequestExactly(h0, Lower(ADD_RESPONSE));
    AddRequestExactly(h0, Lower(ADD_RESPONSE));
    assert PutBack(h0) == PutBack(h);
  }

  // ----- Main results -----

  /** Blocks that can still run when no further request-headers callback comes. */
  function BlocksLeft(h: Map): nat {
    if !Has(h, PHASE) then 0 else if PutBackAs(h, PHASE).Some? then 2 else 1
  }

  /** Tests that can still be dispatched when no further request-headers callback comes. */
  function TestsLeft(h: Map): seq<string> {
    if Has(h, PHASE) && Has(h, TEST) then [Get(h, TEST).value] else []
  }

  lemma GateTold(config: Option<map<string, string>>, st: State, cb: Callback)
    ensures var (st', report) := Step(config, st, cb);
      && (!report.ran ==> st' == st && report.dispatched.None?)
      && (report.ran && cb.phase != RequestHeaders ==> Has(st.request, PHASE))
      && (report.dispatched.Some? ==> report.ran && report.dispatched == Get(st.request, TEST))
  {
  }

  /** Without the header that puts others back, one block is left at most. */
  lemma NothingToPutBack(h: Map)
    requires !Has(h, ADD) && !(Has(h, PHASE) && Has(h, TEST))
    ensures BlocksLeft(h) == (if Has(h, PHASE) then 1 else 0) && TestsLeft(h) == []
  {
    assert PutBack(h).None?;
  }

  lemma OneCallback(config: Option<map<string, string>>, st: State, cb: Callback)
    ensures var (st', report) := Step(config, st, cb);
      && (!report.ran ==> st' == st && report.dispatched.None?)
      && (report.ran && cb.phase != RequestHeaders ==> Has(st.request, PHASE))
      && (report.dispatched.Some? ==> report.ran && report.dispatched == Get(st.request, TEST))
      && (report.ran && !report.action.Trap? ==>
            BlocksLeft(st'.request) == (if PutBackAs(st.request, PHASE).Some? then 1 else 0)
            && TestsLeft(st'.request) == [])
  {
    GateTold(config, st, cb);
    var (st', report) := Step(config, st, cb);
    if report.ran && !report.action.Trap? {
      AfterBlock(config, st, cb);
      NothingToPutBack(st'.request);
    }
  }

  lemma RunCons(config: Option<map<string, string>>, st: State, cb: Callback, later: seq<Callback>)
    ensures var (st', report) := Step(config, st, cb);
      Run(config, st, [cb] + later) ==
      var rest := if report.action.Trap? then Tally(0, [], st') else Run(config, st', later);
      Tally((if report.ran then 1 else 0) + rest.blocks,
            (if report.dispatched.Some? then [report.dispatched.value] else []) + rest.tests,
            rest.last)
  {
    assert ([cb] + later)[1..] == later;
  }

  /** Without another request-headers callback, each block uses up a phase header. */
  lemma {:induction false} LaterCallbacks(config: Option<map<string, string>>, st: State, cbs: seq<Callback>)
    requires !Comes(RequestHeaders, cbs)
    ensures Run(config, st, cbs).blocks <= BlocksLeft(st.request)
    ensures Run(config, st, cbs).tests <= TestsLeft(st.request)
    decreases |cbs|
  {
    if cbs != [] {
      var cb, later := cbs[0], cbs[1..];
      assert cbs == [cb] + later;
      RunCons(config, st, cb, later);
      OneCallback(config, st, cb);
      assert cb.phase != RequestHeaders;
      LaterCallbacks(config, Step(config, st, cb).0, later);
    }
  }

  /**
    For all initial headers and all callbacks with request-headers first and only once: the guarded
    block runs at most twice, and at most one test is dispatched, the one the client asked for.
  */
  lemma RunsAtMostTwice(config: Option<map<string, string>>, st: State, first: Callback, later: seq<Callback>)
    requires first.phase == RequestHeaders && !Comes(RequestHeaders, later)
    ensures Run(config, st, [first] + later).blocks <= 2
    ensures Run(config, st, [first] + later).tests <=
      (if Has(st.request, TEST) then [Get(st.request, TEST).value] else [])
  {
    RunCons(config, st, first, later);
    OneCallback(config, st, first);
    LaterCallbacks(config, Step(config, st, first).0, later);
  }

  /** The callbacks up to the first that matches the gate change nothing. */
  lemma {:induction false} NothingBeforeTheGate(config: Option<map<string, string>>, st: State, before: seq<Callback>,
                                                rest: seq<Callback>)
    requires Gate(st.request).Some? && !Comes(Gate(st.request).value, before)
    ensures Run(config, st, before + rest) == Run(config, st, rest)
    decreases |before|
  {
    if before == [] {
      assert before + rest == rest;
    } else {
      var cb := before[0];
      assert cb in before;
      assert before + rest == [cb] + (before[1..] + rest);
      RunCons(config, st, cb, before[1..] + rest);
      NothingBeforeTheGate(config, st, before[1..], rest);
    }
  }

  /** One of the two routines panics on these headers: the header it reads has no "=". */
  predicate RoutinePanics(config: Option<map<string, string>>, st: State) {
    var h := AddRequestHeader(Cleared(st.request));
    h.None? || AddResponseHeader(config, st.(request := h.value)).None?
  }

  /** The test panics: on purpose, or because the host refuses its outgoing call. */
  predicate TestTraps(h: Map, callFails: bool) {
    Get(h, TEST) == Some("trap") || (Get(h, TEST) == Some("echo_http_dispatch") && callFails)
  }

  /**
    Exactly how often. The phase the gate waits for comes first at `cb`. The block runs twice iff
    its first run does not trap and puts a phase header back whose phase is among the later
    callbacks, and once otherwise. Exactly the client's test, if any, is dispatched, unless a routine
    panics before it.
  */
  lemma RunsExactly(config: Option<map<string, string>>, st: State, before: seq<Callback>, cb: Callback,
                    later: seq<Callback>)
    requires Gate(st.request) == Some(cb.phase) && !Comes(cb.phase, before) && !Comes(RequestHeaders, later)
    ensures var again := PutBackAs(st.request, PHASE);
      && (Run(config, st, before + [cb] + later).blocks == 2 <==>
            !RoutinePanics(config, st) && !TestTraps(st.request, cb.callFails)
            && again.Some? && ParsePhase(again.value).Some? && Comes(ParsePhase(again.value).value, later))
      && 1 <= Run(config, st, before + [cb] + later).blocks <= 2
    ensures Run(config, st, before + [cb] + later).tests ==
      if Has(st.request, TEST) && !RoutinePanics(config, st) then [Get(st.request, TEST).value] else []
  {
    Seqs.Assoc(before, [cb], later);
    NothingBeforeTheGate(config, st, before, [cb] + later);
    RunCons(config, st, cb, later);
    var (st', report) := Step(config, st, cb);
    StepDispatches(config, st, cb);
    if !report.action.Trap? {
      OneCallback(config, st, cb);
      AfterBlock(config, st, cb);
      LaterCallbacks(config, st', later);
      AgainIff(config, st', later);
    }
  }

  lemma StepDispatches(config: Option<map<string, string>>, st: State, cb: Callback)
    requires Gate(st.request) == Some(cb.phase)
    ensures var report := Step(config, st, cb).1;
      && report.ran
      && report.dispatched == (if RoutinePanics(config, st) then None else Get(st.request, TEST))
      && (report.action.Trap? <==> RoutinePanics(config, st) || TestTraps(st.request, cb.callFails))
      && (report.action.Pause? <==>
            !RoutinePanics(config, st) && Get(st.request, TEST) == Some("echo_http_dispatch") && !cb.callFails)
  {
  }

  lemma AgainIff(config: Option<map<string, string>>, st: State, cbs: seq<Callback>)
    requires !Comes(RequestHeaders, cbs)
    ensures Run(config, st, cbs).blocks >= 1 <==>
      Has(st.request, PHASE) && Gate(st.request).Some? && Comes(Gate(st.request).value, cbs)
  {
    if Gate(st.request).Some? && Comes(Gate(st.request).value, cbs) {
      BlockComes(config, st, cbs);
    } else {
      BlockDoesNotCome(config, st, cbs);
    }
  }

  lemma {:induction false} BlockComes(config: Option<map<string, string>>, st: State, cbs: seq<Callback>)
    requires Gate(st.request).Some? && Comes(Gate(st.request).value, cbs)
    ensures Run(config, st, cbs).blocks >= 1
    decreases |cbs|
  {
    var cb, later := cbs[0], cbs[1..];
    assert cbs == [cb] + later;
    RunCons(config, st, cb, later);
    if Gate(st.request).value != cb.phase {
      BlockComes(config, st, later);
    }
  }

  lemma BlockDoesNotCome(config: Option<map<string, string>>, st: State, cbs: seq<Callback>)
    requires !Comes(RequestHeaders, cbs)
    requires Has(st.request, PHASE) ==> Gate(st.request).None? || !Comes(Gate(st.request).value, cbs)
    ensures Run(config, st, cbs).blocks == 0
  {
    if Gate(st.request).Some? {
      NothingBeforeTheGate(config, st, cbs, []);
      assert cbs + [] == cbs;
    } else if cbs != [] {
      assert cbs == [cbs[0]] + cbs[1..];
      RunCons(config, st, cbs[0], cbs[1..]);
    }
  }
}
