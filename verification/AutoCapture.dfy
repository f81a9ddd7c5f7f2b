/** The auto-capture as the watcher runs it: the captured map, the probe record, the cap flag and the audit
    trail are changed in place. */
module AutoCapture {
  import opened Options
  import opened GateBCapture

  method EligibleCandidates(candidates: seq<Candidate>, captured: map<string, Capture>) returns (chosen: seq<Candidate>)
    ensures chosen == Chosen(candidates, captured, {})
  {
    chosen := [];
    var seen: set<string> := {};
    var i := 0;
    while i < |candidates|
      invariant 0 <= i <= |candidates|
      invariant Chosen(candidates, captured, {}) == chosen + Chosen(candidates[i..], captured, seen)
    {
      var c := candidates[i];
      assert candidates[i..][0] == c && candidates[i..][1..] == candidates[i + 1..];
      if Qualifies(c) && c.symbol !in captured && c.symbol !in seen {
        seen := seen + {c.symbol};
        chosen := chosen + [c];
      }
      i := i + 1;
    }
  }

  class CaptureState {
    var captured: map<string, Capture>
    var probe: Option<Probe>
    var capRecorded: bool
    var audit: seq<Audit>

    function State(): State
      reads this
    {
      GateBCapture.State(captured, probe, capRecorded, audit)
    }

    constructor ()
      ensures State() == EMPTY
    {
      captured, probe, capRecorded, audit := map[], None, false, [];
    }

    method RecordCapReached(now: int)
      modifies this`capRecorded, this`audit
      ensures State() == RecordCap(old(State()), now)
    {
      if capRecorded { return; }
      capRecorded := true;
      audit := audit + [CapReached(now)];
    }

    method AttributeAll(chosen: seq<Candidate>, run: int)
      modifies this`captured, this`audit
      ensures State() == Attribute(old(State()), chosen, run)
    {
      var i := 0;
      while i < |chosen|
        invariant 0 <= i <= |chosen|
        invariant State() == Attribute(old(State()), chosen[..i], run)
      {
        assert chosen[..i + 1][..i] == chosen[..i];
        var slot := |captured| + 1;
        captured := captured[chosen[i].symbol := Capture(slot, run)];
        audit := audit + [Attributed(chosen[i].symbol, slot, run)];
        i := i + 1;
      }
      assert chosen[..i] == chosen;
    }

    method LaunchProbe(pid: int, now: int)
      modifies this`probe, this`audit
      ensures State() == Launch(old(State()), pid, now)
    {
      probe := Some(Probe(pid, now, now + PROBE_DURATION));
      audit := audit + [Started(now, pid)];
    }

    method UseSlots(chosen: seq<Candidate>, now: int)
      requires probe.Some?
      modifies this`captured, this`audit, this`capRecorded
      ensures State() == Use(old(State()), chosen, probe.value.run, now)
    {
      AttributeAll(chosen, probe.value.run);
      if |captured| >= CAP { RecordCapReached(now); }
    }

    method MaybeAutoCapture(call: Call) returns (status: Status)
      modifies this
      ensures (State(), status) == GateBCapture.MaybeAutoCapture(old(State()), call)
    {
      if !call.enabled { return Disabled; }
      if |captured| >= CAP {
        RecordCapReached(call.now);
        return CapWasReached;
      }
      var chosen := EligibleCandidates(call.candidates, captured);
      if |chosen| > CAP - |captured| { chosen := chosen[..CAP - |captured|]; }
      if chosen == [] { return Idle; }
      if call.dryRun { return DryRun; }
      status := AttributedToProbe;
      if !(probe.Some? && call.pidAlive && call.now < probe.value.expiresAt) {
        if call.spawned.None? {
          audit := audit + [LaunchFailed(call.now)];
          return LaunchFailure;
        }
        LaunchProbe(call.spawned.value, call.now);
        status := StartedProbe;
      }
      UseSlots(chosen, call.now);
    }

    /** The watcher's rounds, one call each. */
    method RunCalls(calls: seq<Call>)
      requires State() == EMPTY
      modifies this
      ensures State() == Run(calls)
      ensures |captured| <= 5 && SlotsExact(captured) && Launches(State()) <= |captured|
    {
      var i := 0;
      while i < |calls|
        invariant 0 <= i <= |calls| && State() == Run(calls[..i])
      {
        assert calls[..i + 1][..i] == calls[..i];
        var _ := MaybeAutoCapture(calls[i]);
        i := i + 1;
      }
      assert calls[..i] == calls;
      CapIsKept(calls);
    }
  }
}
