/**
 The adapter for the sealed keepalive helper of an endpoint. What the host will
 answer is a parameter of every call.
 */
module KeepaliveAdapter {
  import opened Prelude
  import opened Locks
  import opened Handoff
  import opened Operations

  const SCHEMA_VERSION := 3
  const CAPABILITIES := {"per_gpu_keepalive", "pidfd_identity", "pci_bus_id", "worker_attestation"}
  const WORKER_MARKER := "serverpilot-keepalive-worker-v3"

  datatype EndpointConfig = EndpointConfig(id: Endpoint, workspace: Option<string>, adapterResolves: bool)

  // ---------------------------------------------------------------------------
  // Failures
  // ---------------------------------------------------------------------------

  datatype ErrorKind =
    | HelperUnreachable
    | HelperIncompatible
    | WorkspaceMissing
    | CallFailed(known: Option<nat>)   // a remote message, possibly one of the recognised ones

  datatype Failure = CommandError(kind: ErrorKind, uncertain: bool) | OtherError

  datatype Attempt<T> = Success(value: T) | Failed(failure: Failure)

  datatype Code =
    | Unreachable | Incompatible | AdapterFailed | OutcomeUncertain | HelperMessage(n: nat)
    | ObservationFailed | PlanInvalid | NotConfigured
    | CleanupFailed | ActivationFailed | AttestationInvalid | PartialStop
    | Service(n: nat)

  function FailureCode(kind: ErrorKind, uncertain: bool): Code {
    match kind
    case HelperUnreachable => Unreachable
    case HelperIncompatible => Incompatible
    case CallFailed(Some(n)) => HelperMessage(n)
    case _ => if uncertain then OutcomeUncertain else AdapterFailed
  }

  // ---------------------------------------------------------------------------
  // What the host answers
  // ---------------------------------------------------------------------------

  datatype ProtocolInfo = ProtocolInfo(kind: string, schema: int, capabilities: Option<set<string>>)

  datatype ProbeReply =
    | ProbeTimedOut
    | ProbeNotStarted
    | ProbeEnded(code: int, stderrDecodes: bool, info: Option<ProtocolInfo>)

  datatype CallReply<T> =
    | CallNotStarted
    | CallTimedOut(killed: bool)
    | CallEnded(code: int, stderrDecodes: bool, known: Option<nat>, decoded: Option<T>)

  datatype Worker = Worker(
    uuid: string, pid: int, driverPid: int, bootId: string, startTicks: int, marker: string)

  // What the host answers to one call, preflight first.
  datatype HostAnswer = HostAnswer(probe: ProbeReply, call: CallReply<Response>)
  datatype AttestAnswer = AttestAnswer(probe: ProbeReply, call: CallReply<seq<Worker>>)

  predicate Compatible(info: ProtocolInfo) {
    && info.kind == "serverpilot-keepalive"
    && info.schema == SCHEMA_VERSION
    && info.capabilities.Some? && CAPABILITIES <= info.capabilities.value
  }

  predicate ProbePasses(probe: ProbeReply) {
    probe.ProbeEnded? && probe.code == 0 && probe.info.Some? && Compatible(probe.info.value)
  }

  /** The preflight timed out, did not start, or ended with ssh's own exit code. */
  predicate NoAnswer(probe: ProbeReply) {
    !probe.ProbeEnded? || (probe.code == 255 && probe.stderrDecodes)
  }

  /** The preflight was answered, and not by a helper of this protocol. */
  predicate Outdated(probe: ProbeReply) {
    && probe.ProbeEnded? && !NoAnswer(probe)
    && (if probe.code == 0 then probe.info.None? || !Compatible(probe.info.value) else probe.stderrDecodes)
  }

  /** The preflight: it never changes the host, and whatever it blames the helper for is certain. */
  method ProbeHelper(probe: ProbeReply) returns (failure: Option<Failure>)
    ensures failure.None? <==> ProbePasses(probe)
    ensures failure == Some(OtherError) <==> probe.ProbeEnded? && probe.code != 0 && !probe.stderrDecodes
    ensures failure.Some? && failure.value.CommandError? ==>
              !failure.value.uncertain && failure.value.kind in {HelperUnreachable, HelperIncompatible}
    ensures failure == Some(CommandError(HelperUnreachable, false)) <==> NoAnswer(probe)
    ensures failure == Some(CommandError(HelperIncompatible, false)) <==> Outdated(probe)
  {
    if !probe.ProbeEnded? {
      return Some(CommandError(HelperUnreachable, false));
    }
    if probe.code != 0 {
      if !probe.stderrDecodes {
        return Some(OtherError);
      }
      return Some(CommandError(if probe.code == 255 then HelperUnreachable else HelperIncompatible, false));
    }
    if probe.info.None? || !Compatible(probe.info.value) {
      return Some(CommandError(HelperIncompatible, false));
    }
    return None;
  }

  // ---------------------------------------------------------------------------
  // Requests
  // ---------------------------------------------------------------------------

  predicate IsHex(c: char) {
    '0' <= c <= '9' || 'a' <= c <= 'f' || 'A' <= c <= 'F'
  }

  const DASHES := {3, 12, 17, 22, 27}

  /** GPU-xxxxxxxx-xxxx-xxxx-xxxx-xxxxxxxxxxxx */
  predicate ValidUuid(u: string) {
    && |u| == 40 && u[..3] == "GPU"
    && forall i :: 3 <= i < 40 ==> if i in DASHES then u[i] == '-' else IsHex(u[i])
  }

  predicate ValidRequest(uuids: seq<string>) {
    && (forall u :: u in uuids ==> ValidUuid(u))
    && uuids != []
    && Distinct(uuids)
  }

  /** The request is sound and the helper passed its preflight. */
  predicate Permitted(endpoint: EndpointConfig, uuids: seq<string>, probe: ProbeReply) {
    ValidRequest(uuids) && endpoint.workspace.Some? && ProbePasses(probe)
  }

  /** The mutating command is spawned. */
  predicate Spawns(endpoint: EndpointConfig, uuids: seq<string>, answer: HostAnswer) {
    Permitted(endpoint, uuids, answer.probe) && !answer.call.CallNotStarted?
  }

  /** The command ran and its answer names exactly the requested cards in the wanted state. */
  predicate Verified(endpoint: EndpointConfig, uuids: seq<string>, on: bool, answer: HostAnswer) {
    && Permitted(endpoint, uuids, answer.probe)
    && answer.call.CallEnded? && answer.call.code == 0 && answer.call.stderrDecodes
    && answer.call.decoded.Some? && Exact(answer.call.decoded.value, on, uuids)
  }

  /** The request is sound, but its preflight got no answer. */
  predicate Unanswered(endpoint: EndpointConfig, uuids: seq<string>, answer: HostAnswer) {
    ValidRequest(uuids) && endpoint.workspace.Some? && NoAnswer(answer.probe)
  }

  /** Something known to be wrong before the mutating command. */
  predicate RefusedEarly(endpoint: EndpointConfig, uuids: seq<string>, probe: ProbeReply) {
    && ValidRequest(uuids)
    && (endpoint.workspace.None? ||
        !(ProbePasses(probe) || (probe.ProbeEnded? && probe.code != 0 && !probe.stderrDecodes)))
  }

  /** What is wrong before the command is spawned, in the order of the checks. */
  function FaultBefore(endpoint: EndpointConfig, uuids: seq<string>, probe: ProbeReply): Option<Failure> {
    if !ValidRequest(uuids) then Some(OtherError)
    else if endpoint.workspace.None? then Some(CommandError(WorkspaceMissing, false))
    else if NoAnswer(probe) then Some(CommandError(HelperUnreachable, false))
    else if Outdated(probe) then Some(CommandError(HelperIncompatible, false))
    else if !ProbePasses(probe) then Some(OtherError)
    else None
  }

  /** What is wrong with a command whose answer is not accepted. */
  function FaultOfCall<T>(call: CallReply<T>, mutating: bool): Failure {
    match call
    case CallNotStarted => OtherError
    case CallTimedOut(killed) => if killed then CommandError(CallFailed(None), mutating) else OtherError
    case CallEnded(code, stderrDecodes, known, _) =>
      if stderrDecodes then CommandError(CallFailed(if code != 0 then known else None), mutating) else OtherError
  }

  /** What is wrong with a mutation that is not verified. */
  function FaultOf(endpoint: EndpointConfig, uuids: seq<string>, answer: HostAnswer): Failure {
    var before := FaultBefore(endpoint, uuids, answer.probe);
    if before.Some? then before.value else FaultOfCall(answer.call, true)
  }

  /** What is wrong with an attestation that proves nothing. */
  function FaultOfAttestation(endpoint: EndpointConfig, uuids: seq<string>, answer: AttestAnswer): Failure {
    var before := FaultBefore(endpoint, uuids, answer.probe);
    if before.Some? then before.value else FaultOfCall(answer.call, false)
  }

  /**
   What a failed mutation's code says is true: an uncertain outcome means that the
   command was spawned, an unreachable or incompatible helper that it was not.
   */
  lemma CodesAreHonest(endpoint: EndpointConfig, uuids: seq<string>, on: bool, answer: HostAnswer)
    requires !Verified(endpoint, uuids, on, answer)
    ensures var fault := FaultOf(endpoint, uuids, answer);
            fault.CommandError? ==>
              var code := FailureCode(fault.kind, fault.uncertain);
              && (code == OutcomeUncertain || code.HelperMessage? <==> Spawns(endpoint, uuids, answer))
              && (code == Unreachable <==> Unanswered(endpoint, uuids, answer))
  {
    hide ValidRequest, Exact, Compatible;
  }

  const HEX_DIGITS := "0123456789abcdefABCDEF"

  lemma HexDigits(c: char)
    ensures IsHex(c) <==> c in HEX_DIGITS
  {
    if '0' <= c <= '9' {
      assert HEX_DIGITS[c as int - '0' as int] == c;
    } else if 'a' <= c <= 'f' {
      assert HEX_DIGITS[10 + c as int - 'a' as int] == c;
    } else if IsHex(c) {
      assert HEX_DIGITS[16 + c as int - 'A' as int] == c;
    }
  }

  predicate HexText(s: string) {
    forall i :: 0 <= i < |s| ==> IsHex(s[i])
  }

  ghost predicate SpellsUuid(u: string, a: string, b: string, c: string, d: string, e: string) {
    && u == "GPU-" + a + "-" + b + "-" + c + "-" + d + "-" + e
    && |a| == 8 && |b| == |c| == |d| == 4 && |e| == 12
    && HexText(a) && HexText(b) && HexText(c) && HexText(d) && HexText(e)
  }

  /** A card id is the prefix and five groups of hexadecimal digits. */
  lemma UuidsAreExact(u: string)
    ensures ValidUuid(u) <==> exists a, b, c, d, e :: SpellsUuid(u, a, b, c, d, e)
  {
    hide IsHex;
    if ValidUuid(u) {
      var a, b, c, d, e := u[4..12], u[13..17], u[18..22], u[23..27], u[28..];
      assert u == u[..3] + [u[3]] + a + [u[12]] + b + [u[17]] + c + [u[22]] + d + [u[27]] + e;
      assert "GPU" + "-" == "GPU-";
      assert SpellsUuid(u, a, b, c, d, e);
    }
    if a, b, c, d, e :| SpellsUuid(u, a, b, c, d, e) {
      SpelledIsValid(u, a, b, c, d, e);
    }
  }

  lemma SpelledIsValid(u: string, a: string, b: string, c: string, d: string, e: string)
    requires SpellsUuid(u, a, b, c, d, e)
    ensures ValidUuid(u)
  {
    hide IsHex;
    assert u[..3] == "GPU";
    forall i | 3 <= i < 40 ensures if i in DASHES then u[i] == '-' else IsHex(u[i]) {
      if 4 <= i < 12 {
        assert u[i] == a[i - 4];
      } else if 13 <= i < 17 {
        assert u[i] == b[i - 13];
      } else if 18 <= i < 22 {
        assert u[i] == c[i - 18];
      } else if 23 <= i < 27 {
        assert u[i] == d[i - 23];
      } else if 28 <= i {
        assert u[i] == e[i - 28];
      }
    }
  }

  /** The results are a rearrangement of the requested cards, all in the wanted state. */
  ghost predicate Rearranges(results: seq<GpuResult>, uuids: seq<string>, on: bool) {
    multiset(Uuids(results)) == multiset(uuids) && forall r :: r in results ==> r.status == Wanted(on)
  }

  /**
   Against a request without repetition, an answer is accepted exactly when it
   rearranges the request: no card widened, none left out, none named twice, and all
   in the wanted state.
   */
  method ValidateExactResultMapping(results: seq<GpuResult>, uuids: seq<string>, on: bool) returns (ok: bool)
    ensures Distinct(uuids) ==> (ok <==> Rearranges(results, uuids, on))
    ensures ok ==> forall u :: u in uuids ==> GpuResult(u, Wanted(on)) in results
  {
    var names := Uuids(results);
    if Distinct(uuids) {
      SameOnceIsRearranged(names, uuids);
    }
    if !Distinct(names) || Elements(names) != Elements(uuids) {
      return false;
    }
    ok := forall r :: r in results ==> r.status == Wanted(on);
    forall u | u in uuids && ok ensures GpuResult(u, Wanted(on)) in results {
      assert u in Elements(names);
      var i :| 0 <= i < |names| && names[i] == u;
      assert results[i] in results;
    }
  }

  /**
   Start or stop exactly the named workers. A command error that is not marked
   uncertain was raised before the mutating command was spawned, and a command
   error that is marked uncertain was raised after.
   */
  method SetEnabled(
    op: Operation, endpoint: EndpointConfig, on: bool, uuids: seq<string>, answer: HostAnswer)
    returns (result: Attempt<Response>)
    requires op.Valid() && endpoint.id in op.held
    modifies op
    ensures op.Valid()
    ensures op.log == old(op.log) ||
            exists reply :: op.log == old(op.log) + [Mutate(endpoint.id, on, uuids, reply)]
    ensures result.Success? ==>
              && Exact(result.value, on, uuids)
              && op.log == old(op.log) + [Mutate(endpoint.id, on, uuids, Answered(result.value))]
              && op.session == After(old(op.session), Mutate(endpoint.id, on, uuids, Answered(result.value)))
    ensures op.log != old(op.log) <==> Spawns(endpoint, uuids, answer)
    ensures result.Success? <==> Verified(endpoint, uuids, on, answer)
    ensures result.Failed? ==> result.failure == FaultOf(endpoint, uuids, answer)
    ensures result.Failed? && result.failure.CommandError? ==>
              (result.failure.uncertain <==> op.log != old(op.log))
    ensures result.Failed? && result.failure.CommandError? && !result.failure.uncertain <==>
              RefusedEarly(endpoint, uuids, answer.probe)
    ensures result.Failed? && result.failure.CommandError? && result.failure.kind == HelperUnreachable <==>
              Unanswered(endpoint, uuids, answer)
    ensures Unanswered(endpoint, uuids, answer) ==> op.log == old(op.log)
    ensures !on ==> KeepsProgress(old(op.session), op.session)
    ensures op.session.open <= old(op.session).open + if on then Cards(endpoint.id, uuids) else {}
  {
    hide Follows, Replay;
    if !ValidRequest(uuids) {
      return Failed(OtherError);
    }
    if endpoint.workspace.None? {
      return Failed(CommandError(WorkspaceMissing, false));
    }
    var refused := ProbeHelper(answer.probe);
    if refused.Some? {
      return Failed(refused.value);
    }
    match answer.call
    case CallNotStarted =>
      return Failed(OtherError);
    case CallTimedOut(killed) =>
      op.Emit(Mutate(endpoint.id, on, uuids, NoReply));
      return Failed(if killed then CommandError(CallFailed(None), true) else OtherError);
    case CallEnded(code, stderrDecodes, known, decoded) =>
      var reply := if code == 0 && decoded.Some? then Answered(decoded.value) else NoReply;
      op.Emit(Mutate(endpoint.id, on, uuids, reply));
      if !stderrDecodes {
        return Failed(OtherError);
      }
      if code != 0 {
        return Failed(CommandError(CallFailed(known), true));
      }
      if decoded.None? || decoded.value.enabled != on {
        return Failed(CommandError(CallFailed(None), true));
      }
      SameOnceIsRearranged(Uuids(decoded.value.results), uuids);
      var mapped := ValidateExactResultMapping(decoded.value.results, uuids, on);
      if !mapped {
        return Failed(CommandError(CallFailed(None), true));
      }
      return Success(decoded.value);
  }

  function WorkerUuids(workers: seq<Worker>): seq<string> {
    Mapped(workers, (w: Worker) => w.uuid)
  }

  predicate ExactWorkers(workers: seq<Worker>, uuids: seq<string>) {
    var names := WorkerUuids(workers);
    Distinct(names) && Elements(names) == Elements(uuids)
  }

  /** The helper's answer names exactly one worker for each requested card. */
  predicate Proves(endpoint: EndpointConfig, uuids: seq<string>, answer: AttestAnswer) {
    && Permitted(endpoint, uuids, answer.probe)
    && answer.call.CallEnded? && answer.call.code == 0 && answer.call.stderrDecodes
    && answer.call.decoded.Some? && ExactWorkers(answer.call.decoded.value, uuids)
  }

  /** Two lists without repetition that name the same cards are equally long. */
  lemma SameSetSameLength(a: seq<string>, b: seq<string>)
    requires Distinct(a) && Distinct(b) && Elements(a) == Elements(b)
    ensures |a| == |b|
  {
    DistinctCardinality(a);
    DistinctCardinality(b);
  }

  /** Read-only: the helper's proof of its own workers on exactly these cards. */
  method AttestWorkers(
    endpoint: EndpointConfig, uuids: seq<string>, answer: AttestAnswer)
    returns (result: Attempt<seq<Worker>>)
    ensures result.Success? ==>
              (set w | w in result.value :: w.uuid) == Elements(uuids) && |result.value| == |uuids|
    ensures result.Success? <==> Proves(endpoint, uuids, answer)
    ensures result.Success? ==> result.value == answer.call.decoded.value
    ensures result.Failed? ==> result.failure == FaultOfAttestation(endpoint, uuids, answer)
  {
    if !ValidRequest(uuids) {
      return Failed(OtherError);
    }
    if endpoint.workspace.None? {
      return Failed(CommandError(WorkspaceMissing, false));
    }
    var refused := ProbeHelper(answer.probe);
    if refused.Some? {
      return Failed(refused.value);
    }
    match answer.call
    case CallNotStarted =>
      return Failed(OtherError);
    case CallTimedOut(killed) =>
      return Failed(if killed then CommandError(CallFailed(None), false) else OtherError);
    case CallEnded(code, stderrDecodes, known, decoded) =>
      if !stderrDecodes {
        return Failed(OtherError);
      }
      if code != 0 {
        return Failed(CommandError(CallFailed(known), false));
      }
      if decoded.None? || !ExactWorkers(decoded.value, uuids) {
        return Failed(CommandError(CallFailed(None), false));
      }
      SameSetSameLength(WorkerUuids(decoded.value), uuids);
      assert (set w | w in decoded.value :: w.uuid) == Elements(WorkerUuids(decoded.value)) by {
        forall i | 0 <= i < |decoded.value| ensures WorkerUuids(decoded.value)[i] == decoded.value[i].uuid {}
        forall w | w in decoded.value ensures w.uuid in WorkerUuids(decoded.value) {
          var i :| 0 <= i < |decoded.value| && decoded.value[i] == w;
          assert WorkerUuids(decoded.value)[i] == w.uuid;
        }
      }
      return Success(decoded.value);
  }

  // ---------------------------------------------------------------------------
  // The daemon's second look at an answer
  // ---------------------------------------------------------------------------

  predicate OneEach(results: seq<GpuResult>, uuids: seq<string>, on: bool) {
    && |results| == |uuids|
    && Exact(Response(on, results), on, uuids)
  }

  /** One result for every requested card, keyed by card, or nothing. */
  method ResultByGpuUuid(results: seq<GpuResult>, uuids: seq<string>, on: bool)
    returns (byUuid: Option<map<string, GpuResult>>)
    ensures byUuid.Some? <==> OneEach(results, uuids, on)
    ensures byUuid.Some? ==>
              && byUuid.value.Keys == Elements(uuids)
              && forall u :: u in uuids ==> byUuid.value[u] == GpuResult(u, Wanted(on)) && byUuid.value[u] in results
  {
    if |results| != |uuids| {
      return None;
    }
    var names := Uuids(results);
    var found: map<string, GpuResult> := map[];
    for i := 0 to |results|
      invariant found.Keys == Elements(names[..i])
      invariant Distinct(names[..i])
      invariant forall r :: r in results[..i] ==> r.status == Wanted(on)
      invariant forall u :: u in found ==> found[u] == GpuResult(u, Wanted(on)) && found[u] in results
    {
      var r := results[i];
      assert names[..i + 1] == names[..i] + [r.uuid];
      assert results[..i + 1] == results[..i] + [r];
      if r.uuid in found || r.status != Wanted(on) {
        if r.uuid in found {
          assert r.uuid in names[..i];
          assert !Distinct(names);
        }
        return None;
      }
      found := found[r.uuid := r];
    }
    assert names[..|results|] == names && results[..|results|] == results;
    if found.Keys != Elements(uuids) {
      return None;
    }
    return Some(found);
  }

  predicate SoundWorker(w: Worker) {
    && w.pid > 0 && w.driverPid > 0 && w.bootId != "" && w.startTicks > 0
    && w.marker == WORKER_MARKER
  }

  /** The driver-visible identity of the one worker attested for every requested card. */
  method AttestedIdentities(workers: seq<Worker>, uuids: seq<string>)
    returns (byUuid: Option<map<string, (int, string)>>)
    ensures byUuid.Some? <==>
              && |workers| == |uuids| && ExactWorkers(workers, uuids)
              && forall w :: w in workers ==> SoundWorker(w)
    ensures byUuid.Some? ==>
              && byUuid.value.Keys == Elements(uuids)
              && forall w :: w in workers ==> w.uuid in byUuid.value && byUuid.value[w.uuid] == (w.driverPid, w.bootId)
  {
    if |workers| != |uuids| {
      return None;
    }
    var names := WorkerUuids(workers);
    var found: map<string, (int, string)> := map[];
    for i := 0 to |workers|
      invariant found.Keys == Elements(names[..i])
      invariant Distinct(names[..i])
      invariant forall w :: w in workers[..i] ==>
                  SoundWorker(w) && w.uuid in found && found[w.uuid] == (w.driverPid, w.bootId)
    {
      var w := workers[i];
      assert names[..i + 1] == names[..i] + [w.uuid];
      assert workers[..i + 1] == workers[..i] + [w];
      if w.uuid in found || !SoundWorker(w) {
        if w.uuid in found {
          assert w.uuid in names[..i];
          assert !Distinct(names);
        }
        return None;
      }
      forall v | v in workers[..i] ensures v.uuid != w.uuid {
        assert v.uuid in found;
      }
      found := found[w.uuid := (w.driverPid, w.bootId)];
    }
    assert names[..|workers|] == names && workers[..|workers|] == workers;
    if found.Keys != Elements(uuids) {
      return None;
    }
    return Some(found);
  }
}
