/**
 * The broker as the running program holds it: the module-level
 * dictionaries and counter as fields of one object that the handlers
 * update in place, and the spawned children as process objects that STOP
 * terminates. Every method is proved to take the step `Registry` defines
 * for it, so the lemmas there hold of the object too.
 */
module Broker {
  import opened Wire
  import opened Protocol
  import Registry

  /** A spawned child: the command line it was launched with, and whether it has been terminated. */
  class Process {
    const command: Bytes
    var terminated: bool

    /** `create_subprocess_shell(command)`: a running child. */
    constructor (command: Bytes)
      ensures this.command == command && !terminated
    {
      this.command := command;
      terminated := false;
    }

    /** `terminate()` and then `wait()`: afterwards the child has exited. */
    method Terminate()
      modifies this
      ensures terminated
    {
      terminated := true;
    }
  }

  /** How one call of the request handler left its connection. */
  datatype Handled =
    | Finished(outcome: Registry.Outcome)
    | Suspended(sid: int, process: Process)   // START waiting for the event of session `sid`

  class Broker {
    /** The directory the broker's own source lives in; START's paths are joined onto it. */
    const workingDir: Bytes
    var events: map<int, bool>
    var ports: map<int, int>
    var processes: map<int, Process>
    var pid: int

    function Model(): Registry.State<Process>
      reads this
    {
      Registry.State(events, ports, processes, pid)
    }

    ghost predicate Valid()
      reads this
    {
      Registry.Inv(Model())
    }

    /** The broker when its module is loaded: no sessions, counter at 0. */
    constructor (workingDir: Bytes)
      ensures this.workingDir == workingDir
      ensures Model() == Registry.Init() && Valid()
    {
      this.workingDir := workingDir;
      events, ports, processes, pid := map[], map[], map[], 0;
    }

    /** START up to its wait: new id, then decode, new unset event, launch. */
    method StartBegin(payload: Bytes) returns (h: Handled)
      requires Valid()
      modifies this
      ensures Valid()
      ensures var st := Registry.StartBegin(old(Model()), workingDir, payload);
        && Model() == st.next
        && (st.action.Done? ==> h == Finished(st.action.outcome))
        && (st.action.Spawn? ==>
              && h.Suspended? && h.sid == st.action.sid && fresh(h.process)
              && h.process.command == st.action.command && !h.process.terminated)
        && !st.action.Terminate?
    {
      pid := pid + 1;
      if !ValidUtf8(payload) {
        return Finished(Registry.Raised([], Registry.UnicodeDecodeError));
      }
      events := events[pid := false];
      var command := ChildCommand(workingDir, payload, pid);
      var process := new Process(command);
      h := Suspended(pid, process);
    }

    /**
     * START once `events[own]` is set, as written: the port is looked up
     * under the counter's current value, and `process` is bound under it.
     */
    method StartComplete(own: int, process: Process) returns (out: Registry.Outcome)
      requires Valid() && own in events && events[own]
      modifies this
      ensures Valid()
      ensures Registry.StartComplete(old(Model()), process) == Registry.Step(Model(), Registry.Done(out))
    {
      if pid !in ports {
        return Registry.Raised([], Registry.KeyError);
      }
      var port := ports[pid];
      processes := processes[port := process];
      out := Registry.Reply(Decimal(port));
    }

    /** STOP: terminate the process registered under the payload's port; the entry stays. */
    method Stop(payload: Bytes) returns (out: Registry.Outcome)
      requires Valid()
      modifies processes.Values
      ensures Valid() && Model() == old(Model())
      ensures var st := Registry.Stop(old(Model()), payload);
        && (st.action.Done? ==> out == st.action.outcome)
        && (st.action.Terminate? ==> out == Registry.Reply(" ") && st.action.handle.terminated)
        && !st.action.Spawn?
        && forall p :: p in processes.Values && !(st.action.Terminate? && p == st.action.handle) ==>
             p.terminated == old(p.terminated)
    {
      var port := ParseInt(payload);
      if port.None? {
        return Registry.Raised([], Registry.ValueError);
      }
      if port.value !in processes {
        return Registry.Raised([], Registry.KeyError);
      }
      var process := processes[port.value];
      process.Terminate();
      out := Registry.Reply(" ");
    }

    /** PORT: record the session's port, acknowledge, then set the session's event. */
    method Port(payload: Bytes) returns (out: Registry.Outcome)
      requires Valid()
      modifies this
      ensures Valid()
      ensures Registry.Port(old(Model()), payload) == Registry.Step(Model(), Registry.Done(out))
    {
      var fields := Split(payload, ' ');
      var sid := ParseInt(fields[0]);
      if sid.None? {
        return Registry.Raised([], Registry.ValueError);
      }
      if |fields| < 2 {
        return Registry.Raised([], Registry.IndexError);
      }
      var port := ParseInt(fields[1]);
      if port.None? {
        return Registry.Raised([], Registry.ValueError);
      }
      ports := ports[sid.value := port.value];
      if sid.value !in events {
        return Registry.Raised(" ", Registry.KeyError);
      }
      events := events[sid.value := true];
      out := Registry.Reply(" ");
    }

    /** `handle_request` on one request: pick the branch by the verb, up to START's wait. */
    method HandleRequest(request: Bytes) returns (h: Handled)
      requires Valid()
      modifies this, processes.Values
      ensures Valid()
      ensures var st := Registry.Dispatch(old(Model()), workingDir, request);
        && Model() == st.next
        && (st.action.Done? ==> h == Finished(st.action.outcome))
        && (st.action.Spawn? ==>
              && h.Suspended? && h.sid == st.action.sid && fresh(h.process)
              && h.process.command == st.action.command && !h.process.terminated)
        && (st.action.Terminate? ==> h == Finished(Registry.Reply(" ")) && st.action.handle.terminated)
        && forall p :: p in old(processes.Values) && !(st.action.Terminate? && p == st.action.handle) ==>
             p.terminated == old(p.terminated)
    {
      var (verb, payload) := Consume(request);
      match DecodeVerb(verb) {
        case None =>
          h := Finished(Registry.Raised([], Registry.UnicodeDecodeError));
        case Some(START) =>
          h := StartBegin(payload);
        case Some(STOP) =>
          var out := Stop(payload);
          h := Finished(out);
        case Some(PORT) =>
          var out := Port(payload);
          h := Finished(out);
        case Some(Unrecognised) =>
          h := Finished(Registry.Silent);
      }
    }
  }

  /**
   * One session as a client such as the serial proxy drives it, with the
   * child's report in between: START spawns the child for the next
   * session, the child's report "<sid> <port>" wakes the waiting START,
   * which replies with the port's text, and STOP of that text terminates
   * the same child. (`Registry.StartRequest`, `PortRequest` and
   * `StopRequest` show these are the steps the requests "START ...",
   * "PORT ..." and "STOP ..." take.)
   */
  method ClientSession(b: Broker, payload: Bytes, port: int) returns (reply: Registry.Outcome, child: Process)
    requires b.Valid() && ValidUtf8(payload)
    modifies b, b.processes.Values
    ensures b.Valid()
    ensures reply == Registry.Reply(Decimal(port)) && ParseInt(reply.written) == Some(port)
    ensures fresh(child) && child.command == ChildCommand(b.workingDir, payload, old(b.pid) + 1)
    ensures child.terminated && port in b.processes && b.processes[port] == child
  {
    ghost var s0 := b.Model();
    var sid := b.pid + 1;
    Registry.StartSpawns(s0, b.workingDir, payload);
    var started := b.StartBegin(payload);
    child := started.process;
    ghost var s1 := s0.(pid := sid, events := s0.events[sid := false]);
    assert b.Model() == s1 && started.sid == sid;

    Registry.ReportSignals(s1, sid, port);
    var ack := b.Port(Registry.Report(sid, port));
    ghost var s2 := s1.(ports := s1.ports[sid := port], events := s1.events[sid := true]);
    assert b.Model() == s2;
    assert b.pid == sid && sid in b.ports && b.ports[sid] == port && Registry.EventSet(s2, sid);

    reply := b.StartComplete(sid, child);
    ghost var s3 := s2.(processes := s2.processes[port := child]);
    assert b.Model() == s3;
    DecimalRoundTrip(port);

    Registry.StopOfDecimal(s3, port);
    var stopped := b.Stop(Decimal(port));
  }
}
