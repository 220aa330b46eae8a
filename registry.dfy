/**
 * The broker's registry as a state machine over values: the module-level
 * dictionaries `events` (session id to its one-shot flag), `ports` (session
 * id to the port its child reported), `processes` (port to process handle)
 * and the session counter `pid`, with one transition per handler step.
 *
 * START suspends once, waiting for its session's event, so it is two steps:
 * `StartBegin` (everything up to the wait) and `StartComplete` (everything
 * after it). Each step is atomic, as the handlers run on one event loop.
 * The handle type `H` is left abstract: the steps only store and return
 * handles, and `Terminate` tells the caller which one STOP ends.
 */
module Registry {
  import opened Wire
  import opened Protocol

  /** The exceptions a handler can let escape. */
  datatype Fault = UnicodeDecodeError | ValueError | IndexError | KeyError

  /** What a finished handler did on its connection. */
  datatype Outcome =
    | Reply(written: Bytes)                  // ran to its end after writing `written`
    | Silent                                 // no branch matched: nothing written
    | Raised(written: Bytes, fault: Fault)   // `fault` escaped after `written` had been written

  /** What a step asks of the world outside the registry. */
  datatype Action<H> =
    | Done(outcome: Outcome)
    | Spawn(sid: int, command: Bytes)        // launch `command` and wait for `events[sid]`
    | Terminate(handle: H)                   // terminate `handle`, wait for it to exit, then write " "

  datatype State<H> = State(events: map<int, bool>, ports: map<int, int>, processes: map<int, H>, pid: int)

  datatype Step<H> = Step(next: State<H>, action: Action<H>)

  /** The registry when the module is loaded. */
  function Init<H>(): State<H>
  {
    State(map[], map[], map[], 0)
  }

  /**
   * What every reachable registry satisfies: events exist only for issued
   * session ids, and a set event always has a port recorded for its session.
   */
  ghost predicate Inv<H>(s: State<H>)
  {
    && s.pid >= 0
    && (forall sid :: sid in s.events ==> 1 <= sid <= s.pid)
    && (forall sid :: sid in s.events && s.events[sid] ==> sid in s.ports)
  }

  // ---------------------------------------------------------------------
  // The handler steps
  // ---------------------------------------------------------------------

  /**
   * START up to its wait: take the next id, then decode and split the
   * payload (a payload that is not UTF-8 raises here, after the id is
   * taken), create the session's unset event and launch the child.
   */
  function StartBegin<H>(s: State<H>, workingDir: Bytes, payload: Bytes): Step<H>
  {
    var sid := s.pid + 1;
    if !ValidUtf8(payload) then
      Step(s.(pid := sid), Done(Raised([], UnicodeDecodeError)))
    else
      Step(s.(pid := sid, events := s.events[sid := false]), Spawn(sid, ChildCommand(workingDir, payload, sid)))
  }

  /**
   * START after its wait, as written: it reads `ports[pid]` with the
   * CURRENT counter, not with the id it waited for, binds `handle` under
   * that port and replies with the port's decimal text.
   */
  function StartComplete<H>(s: State<H>, handle: H): Step<H>
  {
    if s.pid !in s.ports then Step(s, Done(Raised([], KeyError)))
    else
      var port := s.ports[s.pid];
      Step(s.(processes := s.processes[port := handle]), Done(Reply(Decimal(port))))
  }

  /** START after its wait, reading the port of the session `own` it waited for. */
  function StartCompleteOwn<H>(s: State<H>, own: int, handle: H): Step<H>
  {
    if own !in s.ports then Step(s, Done(Raised([], KeyError)))
    else
      var port := s.ports[own];
      Step(s.(processes := s.processes[port := handle]), Done(Reply(Decimal(port))))
  }

  /**
   * STOP: the payload is the port; a registered handle is terminated
   * (and the entry stays in `processes`).
   */
  function Stop<H>(s: State<H>, payload: Bytes): Step<H>
  {
    match ParseInt(payload)
    case None => Step(s, Done(Raised([], ValueError)))
    case Some(port) =>
      if port !in s.processes then Step(s, Done(Raised([], KeyError)))
      else Step(s, Terminate(s.processes[port]))
  }

  /**
   * PORT: the payload's first two space-separated fields are the session id
   * and its port. The port is recorded and " " written before the event is
   * looked up, so an unknown id still leaves its port behind.
   */
  function Port<H>(s: State<H>, payload: Bytes): Step<H>
  {
    var fields := Split(payload, ' ');
    match ParseInt(fields[0])
    case None => Step(s, Done(Raised([], ValueError)))
    case Some(sid) =>
      if |fields| < 2 then Step(s, Done(Raised([], IndexError)))
      else
        match ParseInt(fields[1])
        case None => Step(s, Done(Raised([], ValueError)))
        case Some(port) =>
          var recorded := s.(ports := s.ports[sid := port]);
          if sid !in s.events then Step(recorded, Done(Raised(" ", KeyError)))
          else Step(recorded.(events := s.events[sid := true]), Done(Reply(" ")))
  }

  /** `handle_request` on one request, up to START's wait. */
  function Dispatch<H>(s: State<H>, workingDir: Bytes, request: Bytes): Step<H>
  {
    var (verb, payload) := Consume(request);
    match DecodeVerb(verb)
    case None => Step(s, Done(Raised([], UnicodeDecodeError)))
    case Some(START) => StartBegin(s, workingDir, payload)
    case Some(STOP) => Stop(s, payload)
    case Some(PORT) => Port(s, payload)
    case Some(Unrecognised) => Step(s, Done(Silent))
  }

  // ---------------------------------------------------------------------
  // One step at a time
  // ---------------------------------------------------------------------

  /**
   * START takes exactly the next id, which no event uses yet, creates that
   * session's event unset (only when the payload decodes) and touches no
   * other session's event, port or process.
   */
  lemma StartAllocatesFreshSession<H>(s: State<H>, workingDir: Bytes, payload: Bytes)
    requires Inv(s)
    ensures var st := StartBegin(s, workingDir, payload);
      && st.next.pid == s.pid + 1
      && s.pid + 1 !in s.events
      && st.next.ports == s.ports && st.next.processes == s.processes
      && (forall k :: k != s.pid + 1 ==> (k in st.next.events <==> k in s.events))
      && (forall k :: k in s.events ==> st.next.events[k] == s.events[k])
      && (ValidUtf8(payload) <==> st.action.Spawn?)
      && (st.action.Spawn? ==>
            && st.action.sid == s.pid + 1
            && st.action.command == ChildCommand(workingDir, payload, s.pid + 1)
            && s.pid + 1 in st.next.events && !st.next.events[s.pid + 1])
      && (!ValidUtf8(payload) ==> st.next.events == s.events && st.action == Done(Raised([], UnicodeDecodeError)))
  {
  }

  /**
   * PORT with well-formed fields records the port for that session, and
   * sets that session's event and writes " " exactly when the session has
   * an event; every other session is left as it was.
   */
  lemma PortRecordsAndSignals<H>(s: State<H>, payload: Bytes, sid: int, port: int)
    requires |Split(payload, ' ')| >= 2
    requires ParseInt(Split(payload, ' ')[0]) == Some(sid)
    requires ParseInt(Split(payload, ' ')[1]) == Some(port)
    ensures var st := Port(s, payload);
      && st.next.ports == s.ports[sid := port]
      && st.next.pid == s.pid && st.next.processes == s.processes
      && st.next.events.Keys == s.events.Keys
      && (forall k :: k in s.events && k != sid ==> st.next.events[k] == s.events[k])
      && (sid in s.events ==> st.next.events[sid] && st.action == Done(Reply(" ")))
      && (sid !in s.events ==> st.next.events == s.events && st.action == Done(Raised(" ", KeyError)))
  {
  }

  /**
   * PORT with a malformed report raises before anything is recorded: a
   * first field that is not an integer, a missing second field and a second
   * field that is not an integer each leave the whole state unchanged and
   * write nothing.
   */
  lemma PortMalformed<H>(s: State<H>, payload: Bytes)
    ensures var f := Split(payload, ' '); var st := Port(s, payload);
      && (ParseInt(f[0]).None? ==> st == Step(s, Done(Raised([], ValueError))))
      && (ParseInt(f[0]).Some? && |f| < 2 ==> st == Step(s, Done(Raised([], IndexError))))
      && (ParseInt(f[0]).Some? && |f| >= 2 && ParseInt(f[1]).None? ==> st == Step(s, Done(Raised([], ValueError))))
  {
  }

  /** The payload of the PORT request a child sends: its session id and its port, in decimal. */
  function Report(sid: int, port: int): Bytes
  {
    Decimal(sid) + " " + Decimal(port)
  }

  /** The text a child sends, "<sid> <port>", has exactly those two fields. */
  lemma PortPayloadFields(sid: int, port: int)
    ensures var fields := Split(Report(sid, port), ' ');
      |fields| == 2 && ParseInt(fields[0]) == Some(sid) && ParseInt(fields[1]) == Some(port)
  {
    NoSpaceInDecimal(sid);
    NoSpaceInDecimal(port);
    JoinSplit([Decimal(sid), Decimal(port)], ' ');
    assert JoinWith([Decimal(sid), Decimal(port)], ' ') == Decimal(sid) + " " + Decimal(port) by {
      assert [Decimal(sid), Decimal(port)][1..] == [Decimal(port)];
    }
    DecimalRoundTrip(sid);
    DecimalRoundTrip(port);
  }

  lemma NoSpaceInDecimal(n: int)
    ensures ' ' !in Decimal(n)
  {
    DecimalAlphabet(n);
    assert forall i :: 0 <= i < |Decimal(n)| ==> Decimal(n)[i] != ' ';
  }

  /**
   * STOP, for every payload: the registry is never changed (the entry
   * stays). A payload `int()` rejects is a ValueError; one it reads as a
   * registered port terminates that port's handle; any other port is a
   * KeyError.
   */
  lemma StopTerminatesRegistered<H>(s: State<H>, payload: Bytes)
    ensures var st := Stop(s, payload);
      && st.next == s
      && (ParseInt(payload).None? ==> st.action == Done(Raised([], ValueError)))
      && (ParseInt(payload).Some? && ParseInt(payload).value in s.processes ==>
            st.action == Terminate(s.processes[ParseInt(payload).value]))
      && (ParseInt(payload).Some? && ParseInt(payload).value !in s.processes ==>
            st.action == Done(Raised([], KeyError)))
  {
  }

  /** STOP of a port's decimal text, as a client sends it: that port's handle is terminated. */
  lemma StopOfDecimal<H>(s: State<H>, port: int)
    ensures var st := Stop(s, Decimal(port));
      && st.next == s
      && (port in s.processes ==> st.action == Terminate(s.processes[port]))
      && (port !in s.processes ==> st.action == Done(Raised([], KeyError)))
  {
    DecimalRoundTrip(port);
    StopTerminatesRegistered(s, Decimal(port));
  }

  /** A request whose verb is unrecognised changes nothing and writes nothing. */
  lemma UnrecognisedVerbIsSilent<H>(s: State<H>, workingDir: Bytes, request: Bytes)
    requires DecodeVerb(Consume(request).0) == Some(Unrecognised)
    ensures Dispatch(s, workingDir, request) == Step(s, Done(Silent))
  {
  }

  /** Two casings of the same verb, with the same payload, take the same step. */
  lemma DispatchIgnoresVerbCase<H>(s: State<H>, workingDir: Bytes, v1: Bytes, v2: Bytes, payload: Bytes)
    requires IsAscii(v1) && IsAscii(v2) && ' ' !in v1 && ' ' !in v2
    requires (IsCasingOf(v1, "START") && IsCasingOf(v2, "START"))
          || (IsCasingOf(v1, "STOP") && IsCasingOf(v2, "STOP"))
          || (IsCasingOf(v1, "PORT") && IsCasingOf(v2, "PORT"))
    ensures Dispatch(s, workingDir, v1 + " " + payload) == Dispatch(s, workingDir, v2 + " " + payload)
  {
    RequestParts(v1, payload);
    RequestParts(v2, payload);
    VerbCaseInsensitive(v1);
    VerbCaseInsensitive(v2);
  }

  /** `consume` gives back the verb and payload a request was built from. */
  lemma RequestParts(verb: Bytes, payload: Bytes)
    requires ' ' !in verb
    ensures Consume(verb + " " + payload) == (verb, payload)
  {
    var request := verb + " " + payload;
    IndexOfAfterField(verb, ' ', payload);
    assert request[..|verb|] == verb && request[|verb| + 1..] == payload;
  }

  lemma StartBeginKeepsInv<H>(s: State<H>, workingDir: Bytes, payload: Bytes)
    requires Inv(s)
    ensures Inv(StartBegin(s, workingDir, payload).next)
  {
  }

  lemma PortKeepsInv<H>(s: State<H>, payload: Bytes)
    requires Inv(s)
    ensures Inv(Port(s, payload).next)
  {
  }

  /** Every step keeps the registry invariant. */
  lemma DispatchKeepsInv<H>(s: State<H>, workingDir: Bytes, request: Bytes)
    requires Inv(s)
    ensures Inv(Dispatch(s, workingDir, request).next)
  {
    var (verb, payload) := Consume(request);
    match DecodeVerb(verb)
    case None =>
    case Some(START) => StartBeginKeepsInv(s, workingDir, payload);
    case Some(STOP) =>
    case Some(PORT) => PortKeepsInv(s, payload);
    case Some(Unrecognised) =>
  }

  lemma StartBeginCounter<H>(s: State<H>, workingDir: Bytes, payload: Bytes)
    ensures var st := StartBegin(s, workingDir, payload);
      st.next.pid == s.pid + 1 && (st.action.Spawn? ==> st.action.sid == s.pid + 1)
  {
  }

  lemma PortCounter<H>(s: State<H>, payload: Bytes)
    ensures Port(s, payload).next.pid == s.pid && Port(s, payload).action.Done?
  {
  }

  lemma DispatchKeepsCounter<H>(s: State<H>, workingDir: Bytes, request: Bytes)
    ensures var st := Dispatch(s, workingDir, request);
      && st.next.pid >= s.pid
      && (st.action.Spawn? ==> st.action.sid == st.next.pid == s.pid + 1)
  {
    var (verb, payload) := Consume(request);
    match DecodeVerb(verb)
    case None =>
    case Some(START) => StartBeginCounter(s, workingDir, payload);
    case Some(STOP) => StopTerminatesRegistered(s, payload);
    case Some(PORT) => PortCounter(s, payload);
    case Some(Unrecognised) =>
  }

  lemma StartCompleteKeepsInv<H>(s: State<H>, handle: H)
    requires Inv(s)
    ensures Inv(StartComplete(s, handle).next)
  {
  }

  lemma StartCompleteOwnKeepsInv<H>(s: State<H>, own: int, handle: H)
    requires Inv(s)
    ensures Inv(StartCompleteOwn(s, own, handle).next)
  {
  }

  // ---------------------------------------------------------------------
  // Runs of many steps
  // ---------------------------------------------------------------------

  /** What the event loop runs next: a new request, or the resumption of a suspended START. */
  datatype Input<H> = Request(data: Bytes) | Resume(handle: H)

  function Apply<H>(s: State<H>, workingDir: Bytes, input: Input<H>): Step<H>
  {
    match input
    case Request(data) => Dispatch(s, workingDir, data)
    case Resume(handle) => StartComplete(s, handle)
  }

  /** The registry after `inputs`, and the ids of the sessions spawned, in order. */
  function Run<H>(s: State<H>, workingDir: Bytes, inputs: seq<Input<H>>): (State<H>, seq<int>)
    decreases |inputs|
  {
    if inputs == [] then (s, [])
    else
      var st := Apply(s, workingDir, inputs[0]);
      var spawned := if st.action.Spawn? then [st.action.sid] else [];
      var (final, rest) := Run(st.next, workingDir, inputs[1..]);
      (final, spawned + rest)
  }

  /** No step lowers the counter, and a spawn uses the id that step has just taken. */
  lemma ApplyCounter<H>(s: State<H>, workingDir: Bytes, input: Input<H>)
    ensures var st := Apply(s, workingDir, input);
      && st.next.pid >= s.pid
      && (st.action.Spawn? ==> st.action.sid == st.next.pid == s.pid + 1)
  {
    match input
    case Request(data) =>
      DispatchKeepsCounter(s, workingDir, data);
    case Resume(_) =>
  }

  lemma ApplyKeepsInv<H>(s: State<H>, workingDir: Bytes, input: Input<H>)
    requires Inv(s)
    ensures Inv(Apply(s, workingDir, input).next)
  {
    match input
    case Request(data) => DispatchKeepsInv(s, workingDir, data);
    case Resume(handle) => StartCompleteKeepsInv(s, handle);
  }

  predicate StrictlyIncreasing(ids: seq<int>)
  {
    forall i, j :: 0 <= i < j < |ids| ==> ids[i] < ids[j]
  }

  /** Every id lies in `(lo, hi]`. */
  predicate AllWithin(ids: seq<int>, lo: int, hi: int)
  {
    forall i :: 0 <= i < |ids| ==> lo < ids[i] <= hi
  }

  /** At most one id in `(lo, mid]` followed by increasing ids in `(mid, hi]` is increasing in `(lo, hi]`. */
  lemma PrependId(spawned: seq<int>, rest: seq<int>, lo: int, mid: int, hi: int)
    requires |spawned| <= 1 && AllWithin(spawned, lo, mid) && lo <= mid <= hi
    requires StrictlyIncreasing(rest) && AllWithin(rest, mid, hi)
    ensures StrictlyIncreasing(spawned + rest) && AllWithin(spawned + rest, lo, hi)
  {
    var ids := spawned + rest;
    forall i, j | 0 <= i < j < |ids| ensures ids[i] < ids[j] {
      assert ids[j] == rest[j - |spawned|];
      if i >= |spawned| {
        assert ids[i] == rest[i - |spawned|];
      }
    }
    forall i | 0 <= i < |ids| ensures lo < ids[i] <= hi {
      if i >= |spawned| {
        assert ids[i] == rest[i - |spawned|];
      }
    }
  }

  lemma IdsAboveCounterAreFresh<H>(s: State<H>, ids: seq<int>, hi: int)
    requires Inv(s) && AllWithin(ids, s.pid, hi)
    ensures forall i :: 0 <= i < |ids| ==> ids[i] !in s.events
  {
  }

  /**
   * Session ids issued over any run are strictly increasing, lie above the
   * counter the run started from and at most at the counter it ends with,
   * so none of them was in use before.
   */
  lemma {:induction false} SessionIdsIncrease<H>(s: State<H>, workingDir: Bytes, inputs: seq<Input<H>>)
    requires Inv(s)
    ensures var run := Run(s, workingDir, inputs);
      && StrictlyIncreasing(run.1)
      && AllWithin(run.1, s.pid, run.0.pid)
      && (forall i :: 0 <= i < |run.1| ==> run.1[i] !in s.events)
      && s.pid <= run.0.pid
    decreases |inputs|
  {
    var run := Run(s, workingDir, inputs);
    if inputs != [] {
      var st := Apply(s, workingDir, inputs[0]);
      ApplyCounter(s, workingDir, inputs[0]);
      ApplyKeepsInv(s, workingDir, inputs[0]);
      SessionIdsIncrease(st.next, workingDir, inputs[1..]);
      var later := Run(st.next, workingDir, inputs[1..]);
      var spawned := if st.action.Spawn? then [st.action.sid] else [];
      assert run == (later.0, spawned + later.1);
      PrependId(spawned, later.1, s.pid, st.next.pid, later.0.pid);
    }
    IdsAboveCounterAreFresh(s, run.1, run.0.pid);
  }

  // ---------------------------------------------------------------------
  // Whole sessions
  // ---------------------------------------------------------------------

  /** Session `sid` has an event, and it is set. */
  predicate EventSet<H>(s: State<H>, sid: int)
  {
    sid in s.events && s.events[sid]
  }

  /** `port` is registered, to `handle`. */
  predicate BoundTo<H(==)>(s: State<H>, port: int, handle: H)
  {
    port in s.processes && s.processes[port] == handle
  }

  /** The request "START <payload>" takes the START step; likewise PORT and STOP below. */
  lemma StartRequest<H>(s: State<H>, workingDir: Bytes, payload: Bytes)
    ensures Dispatch(s, workingDir, "START " + payload) == StartBegin(s, workingDir, payload)
  {
    assert "START " + payload == "START" + " " + payload;
    RequestParts("START", payload);
    KeywordSelectsItself("START", START);
  }

  lemma PortRequest<H>(s: State<H>, workingDir: Bytes, payload: Bytes)
    ensures Dispatch(s, workingDir, "PORT " + payload) == Port(s, payload)
  {
    var request := "PORT " + payload;
    assert request == "PORT" + " " + payload;
    RequestParts("PORT", payload);
    KeywordSelectsItself("PORT", PORT);
    assert Consume(request) == ("PORT", payload) && DecodeVerb("PORT") == Some(PORT);
  }

  lemma StopRequest<H>(s: State<H>, workingDir: Bytes, payload: Bytes)
    ensures Dispatch(s, workingDir, "STOP " + payload) == Stop(s, payload)
  {
    assert "STOP " + payload == "STOP" + " " + payload;
    RequestParts("STOP", payload);
    KeywordSelectsItself("STOP", STOP);
  }

  /** START with a decodable payload, as one equation. */
  lemma StartSpawns<H>(s: State<H>, workingDir: Bytes, payload: Bytes)
    requires ValidUtf8(payload)
    ensures StartBegin(s, workingDir, payload)
         == Step(s.(pid := s.pid + 1, events := s.events[s.pid + 1 := false]),
                 Spawn(s.pid + 1, ChildCommand(workingDir, payload, s.pid + 1)))
  {
  }

  /** A child's report "<sid> <port>" for a session that has an event, as one equation. */
  lemma ReportSignals<H>(s: State<H>, sid: int, port: int)
    requires sid in s.events
    ensures Port(s, Report(sid, port))
         == Step(s.(ports := s.ports[sid := port], events := s.events[sid := true]), Done(Reply(" ")))
  {
    PortPayloadFields(sid, port);
  }

  /**
   * One session without interleaving: START spawns session `sid`; the
   * child's report "<sid> <port>" is acknowledged and sets that event;
   * START then replies with the port's decimal text (which reads back as
   * the port) and binds the handle under it; and STOP of that port's
   * decimal text terminates that handle. `StartRequest`, `PortRequest` and
   * `StopRequest` connect each step to the request that selects it.
   */
  lemma SequentialSession<H>(s: State<H>, workingDir: Bytes, payload: Bytes, port: int, handle: H)
    requires Inv(s) && ValidUtf8(payload)
    ensures
      var sid := s.pid + 1;
      var begun := StartBegin(s, workingDir, payload);
      var reported := Port(begun.next, Report(sid, port));
      var completed := StartComplete(reported.next, handle);
      var stopped := Stop(completed.next, Decimal(port));
      && begun.action == Spawn(sid, ChildCommand(workingDir, payload, sid))
      && reported.action == Done(Reply(" ")) && EventSet(reported.next, sid)
      && completed.action == Done(Reply(Decimal(port)))
      && ParseInt(completed.action.outcome.written) == Some(port)
      && BoundTo(completed.next, port, handle)
      && stopped.next == completed.next && stopped.action == Terminate(handle)
  {
    var sid := s.pid + 1;
    StartSpawns(s, workingDir, payload);
    var begun := s.(pid := sid, events := s.events[sid := false]);
    ReportSignals(begun, sid, port);
    var reported := begun.(ports := begun.ports[sid := port], events := begun.events[sid := true]);
    var completed := reported.(processes := reported.processes[port := handle]);
    assert StartComplete(reported, handle) == Step(completed, Done(Reply(Decimal(port))));
    StopOfDecimal(completed, port);
    DecimalRoundTrip(port);
  }

  /**
   * Two sessions A and B started in that order, with B's child reporting
   * first: B's START completes and replies with B's port; A's START, once
   * A's child has reported, also replies with B's port and rebinds B's port
   * to A's handle, because the completion reads the shared counter, which
   * by then names B.
   */
  lemma InterleavedStartsMisroute<H>(s: State<H>, workingDir: Bytes, payloadA: Bytes, payloadB: Bytes,
                                     portA: int, portB: int, handleA: H, handleB: H)
    requires Inv(s) && ValidUtf8(payloadA) && ValidUtf8(payloadB)
    requires portA != portB
    ensures
      var sidA, sidB := s.pid + 1, s.pid + 2;
      var startA := StartBegin(s, workingDir, payloadA);
      var startB := StartBegin(startA.next, workingDir, payloadB);
      var portOfB := Port(startB.next, Report(sidB, portB));
      var doneB := StartComplete(portOfB.next, handleB);
      var portOfA := Port(doneB.next, Report(sidA, portA));
      var doneA := StartComplete(portOfA.next, handleA);
      && startA.action == Spawn(sidA, ChildCommand(workingDir, payloadA, sidA))
      && startB.action == Spawn(sidB, ChildCommand(workingDir, payloadB, sidB))
      && EventSet(portOfB.next, sidB) && sidA in portOfB.next.events && !EventSet(portOfB.next, sidA)
      && doneB.action == Done(Reply(Decimal(portB)))
      && EventSet(portOfA.next, sidA)
      && doneA.action == Done(Reply(Decimal(portB)))
      && doneA.action != Done(Reply(Decimal(portA)))
      && BoundTo(doneA.next, portB, handleA)
  {
    var sidA, sidB := s.pid + 1, s.pid + 2;
    StartSpawns(s, workingDir, payloadA);
    var startA := s.(pid := sidA, events := s.events[sidA := false]);
    StartSpawns(startA, workingDir, payloadB);
    var startB := startA.(pid := sidB, events := startA.events[sidB := false]);
    ReportSignals(startB, sidB, portB);
    var portOfB := startB.(ports := startB.ports[sidB := portB], events := startB.events[sidB := true]);
    var doneB := portOfB.(processes := portOfB.processes[portB := handleB]);
    assert StartComplete(portOfB, handleB) == Step(doneB, Done(Reply(Decimal(portB))));
    ReportSignals(doneB, sidA, portA);
    var portOfA := doneB.(ports := doneB.ports[sidA := portA], events := doneB.events[sidA := true]);
    var doneA := portOfA.(processes := portOfA.processes[portB := handleA]);
    assert portOfA.ports[sidB] == portB;
    assert StartComplete(portOfA, handleA) == Step(doneA, Done(Reply(Decimal(portB))));
    if Decimal(portB) == Decimal(portA) {
      DecimalInjective(portB, portA);
    }
  }

  /**
   * The same interleaving with the corrected completion: each START
   * replies with the port its own child reported and binds its own handle
   * under it.
   */
  lemma InterleavedStartsOwnPorts<H>(s: State<H>, workingDir: Bytes, payloadA: Bytes, payloadB: Bytes,
                                     portA: int, portB: int, handleA: H, handleB: H)
    requires Inv(s) && ValidUtf8(payloadA) && ValidUtf8(payloadB)
    requires portA != portB
    ensures
      var sidA, sidB := s.pid + 1, s.pid + 2;
      var startA := StartBegin(s, workingDir, payloadA);
      var startB := StartBegin(startA.next, workingDir, payloadB);
      var portOfB := Port(startB.next, Report(sidB, portB));
      var doneB := StartCompleteOwn(portOfB.next, sidB, handleB);
      var portOfA := Port(doneB.next, Report(sidA, portA));
      var doneA := StartCompleteOwn(portOfA.next, sidA, handleA);
      && doneB.action == Done(Reply(Decimal(portB)))
      && doneA.action == Done(Reply(Decimal(portA)))
      && BoundTo(doneA.next, portA, handleA) && BoundTo(doneA.next, portB, handleB)
  {
    var sidA, sidB := s.pid + 1, s.pid + 2;
    StartSpawns(s, workingDir, payloadA);
    var startA := s.(pid := sidA, events := s.events[sidA := false]);
    StartSpawns(startA, workingDir, payloadB);
    var startB := startA.(pid := sidB, events := startA.events[sidB := false]);
    ReportSignals(startB, sidB, portB);
    var portOfB := startB.(ports := startB.ports[sidB := portB], events := startB.events[sidB := true]);
    var doneB := portOfB.(processes := portOfB.processes[portB := handleB]);
    assert StartCompleteOwn(portOfB, sidB, handleB) == Step(doneB, Done(Reply(Decimal(portB))));
    ReportSignals(doneB, sidA, portA);
    var portOfA := doneB.(ports := doneB.ports[sidA := portA], events := doneB.events[sidA := true]);
    var doneA := portOfA.(processes := portOfA.processes[portA := handleA]);
    assert portOfA.ports[sidA] == portA;
    assert StartCompleteOwn(portOfA, sidA, handleA) == Step(doneA, Done(Reply(Decimal(portA))));
  }

  /**
   * The corrected completion in general: once a session's event is set,
   * its START replies with the decimal text of the port recorded for that
   * session, which reads back as that port, and binds the handle under it,
   * leaving every other port's binding and the rest of the registry alone.
   */
  lemma StartCompleteOwnRepliesOwnPort<H>(s: State<H>, own: int, handle: H)
    requires Inv(s) && own in s.events && s.events[own]
    ensures var st := StartCompleteOwn(s, own, handle);
      && own in s.ports
      && st.action == Done(Reply(Decimal(s.ports[own])))
      && ParseInt(st.action.outcome.written) == Some(s.ports[own])
      && st.next.processes[s.ports[own]] == handle
      && (forall p :: p in s.processes && p != s.ports[own] ==> p in st.next.processes && st.next.processes[p] == s.processes[p])
      && st.next.events == s.events && st.next.ports == s.ports && st.next.pid == s.pid
  {
    DecimalRoundTrip(s.ports[own]);
  }
}
