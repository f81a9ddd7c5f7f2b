/** The authorised auto-capture: at most five listings, one probe at a time. The clock, the answer of the
    operating system about the recorded process and the result of a launch are inputs; the caller saves the
    state after every call. */
module GateBCapture {
  import opened Options

  const CAP := 5
  const PROBE_DURATION := 24 * 60 * 60

  datatype Trigger = PrelaunchActive | PremarketListing | OtherTrigger

  /** A candidate; `title` is already in upper case. */
  datatype Candidate = Candidate(startNow: bool, trigger: Trigger, symbol: string, title: string)

  /** Two to twenty capitals or digits, then USDT; the pattern's end also matches before a final newline. */
  predicate ShapeOk(symbol: string) {
    var n := if symbol != "" && symbol[|symbol| - 1] == '\n' then |symbol| - 1 else |symbol|;
    && 6 <= n <= 24
    && symbol[n - 4..n] == "USDT"
    && forall i :: 0 <= i < n - 4 ==> 'A' <= symbol[i] <= 'Z' || '0' <= symbol[i] <= '9'
  }

  predicate Occurs(part: string, whole: string) {
    exists i :: 0 <= i <= |whole| && part <= whole[i..]
  }

  predicate Qualifies(c: Candidate) {
    && c.startNow && !c.trigger.OtherTrigger? && ShapeOk(c.symbol)
    && (c.trigger.PremarketListing? ==> Occurs(c.symbol, c.title))
  }

  // ----- State -----

  datatype Capture = Capture(slot: nat, run: int)
  /** A launched probe; runs are named after their launch time. */
  datatype Probe = Probe(pid: int, run: int, expiresAt: int)

  datatype Audit =
    | Started(at: int, pid: int)
    | LaunchFailed(at: int)
    | Attributed(symbol: string, slot: nat, run: int)
    | CapReached(at: int)

  datatype State = State(captured: map<string, Capture>, probe: Option<Probe>, capRecorded: bool, audit: seq<Audit>)

  const EMPTY := State(map[], None, false, [])

  /** One call: `pidAlive` answers for the recorded probe, `spawned` is the new process or a failure. */
  datatype Call = Call(candidates: seq<Candidate>, now: int, enabled: bool, dryRun: bool, pidAlive: bool,
                       spawned: Option<int>)

  datatype Status = Disabled | Idle | DryRun | StartedProbe | AttributedToProbe | CapWasReached | LaunchFailure

  // ----- The call -----

  /** The candidates that may use a slot, scanned from the left; `seen` are the symbols already chosen. */
  function Chosen(candidates: seq<Candidate>, captured: map<string, Capture>, seen: set<string>): seq<Candidate> {
    if candidates == [] then []
    else
      var c := candidates[0];
      if Qualifies(c) && c.symbol !in captured && c.symbol !in seen then
        [c] + Chosen(candidates[1..], captured, seen + {c.symbol})
      else Chosen(candidates[1..], captured, seen)
  }

  function Eligible(s: State, call: Call): seq<Candidate>
    requires |s.captured| < CAP
  {
    var all := Chosen(call.candidates, s.captured, {});
    if |all| > CAP - |s.captured| then all[..CAP - |s.captured|] else all
  }

  function ProbeAlive(s: State, call: Call): bool {
    s.probe.Some? && call.pidAlive && call.now < s.probe.value.expiresAt
  }

  function RecordCap(s: State, now: int): State {
    if s.capRecorded then s else s.(capRecorded := true, audit := s.audit + [CapReached(now)])
  }

  function Launch(s: State, pid: int, now: int): State {
    s.(probe := Some(Probe(pid, now, now + PROBE_DURATION)), audit := s.audit + [Started(now, pid)])
  }

  function AttributeOne(s: State, c: Candidate, run: int): State {
    var slot := |s.captured| + 1;
    s.(captured := s.captured[c.symbol := Capture(slot, run)], audit := s.audit + [Attributed(c.symbol, slot, run)])
  }

  function Attribute(s: State, chosen: seq<Candidate>, run: int): State {
    if chosen == [] then s
    else AttributeOne(Attribute(s, chosen[..|chosen| - 1], run), chosen[|chosen| - 1], run)
  }

  function Use(s: State, chosen: seq<Candidate>, run: int, now: int): State {
    var s1 := Attribute(s, chosen, run);
    if |s1.captured| >= CAP then RecordCap(s1, now) else s1
  }

  function MaybeAutoCapture(s: State, call: Call): (State, Status) {
    if !call.enabled then (s, Disabled)
    else if |s.captured| >= CAP then (RecordCap(s, call.now), CapWasReached)
    else
      var chosen := Eligible(s, call);
      if chosen == [] then (s, Idle)
      else if call.dryRun then (s, DryRun)
      else if ProbeAlive(s, call) then (Use(s, chosen, s.probe.value.run, call.now), AttributedToProbe)
      else
        match call.spawned
        case None => (s.(audit := s.audit + [LaunchFailed(call.now)]), LaunchFailure)
        case Some(pid) => (Use(Launch(s, pid, call.now), chosen, call.now, call.now), StartedProbe)
  }

  /** The state after all calls. */
  function Run(calls: seq<Call>): State {
    if calls == [] then EMPTY else MaybeAutoCapture(Run(calls[..|calls| - 1]), calls[|calls| - 1]).0
  }

  // ----- Reading the audit trail -----

  /** What the audit trail alone says: the captured symbols, launches and cap records so far. */
  datatype Ledger = Ledger(captured: map<string, Capture>, launches: nat, caps: nat)

  function Post(l: Ledger, e: Audit): Ledger {
    match e
    case Started(_, _) => l.(launches := l.launches + 1)
    case LaunchFailed(_) => l
    case Attributed(symbol, slot, run) => l.(captured := l.captured[symbol := Capture(slot, run)])
    case CapReached(_) => l.(caps := l.caps + 1)
  }

  function Books(audit: seq<Audit>): Ledger {
    if audit == [] then Ledger(map[], 0, 0) else Post(Books(audit[..|audit| - 1]), audit[|audit| - 1])
  }

  function Launches(s: State): nat { Books(s.audit).launches }

  lemma BooksGrow(audit: seq<Audit>, e: Audit)
    ensures Books(audit + [e]) == Post(Books(audit), e)
  {
    assert (audit + [e])[..|audit|] == audit;
  }

  // ----- Who gets a slot -----

  predicate Distinct(cs: seq<Candidate>) {
    forall i, j :: 0 <= i < j < |cs| ==> cs[i].symbol != cs[j].symbol
  }

  predicate Fresh(cs: seq<Candidate>, captured: map<string, Capture>) {
    forall i :: 0 <= i < |cs| ==> cs[i].symbol !in captured
  }

  predicate Open(c: Candidate, captured: map<string, Capture>, seen: set<string>) {
    Qualifies(c) && c.symbol !in captured && c.symbol !in seen
  }

  predicate Names(cs: seq<Candidate>, symbol: string) {
    exists i :: 0 <= i < |cs| && cs[i].symbol == symbol
  }

  lemma {:induction false} ChosenAreOpen(candidates: seq<Candidate>, captured: map<string, Capture>, seen: set<string>)
    ensures var r := Chosen(candidates, captured, seen);
      && (forall i :: 0 <= i < |r| ==> Open(r[i], captured, seen) && r[i] in candidates)
      && Distinct(r)
  {
    if candidates != [] {
      var c, rest := candidates[0], candidates[1..];
      if Open(c, captured, seen) {
        ChosenAreOpen(rest, captured, seen + {c.symbol});
        var tail := Chosen(rest, captured, seen + {c.symbol});
        forall i | 0 <= i < |tail| ensures tail[i].symbol != c.symbol && Open(tail[i], captured, seen) {
          assert Open(tail[i], captured, seen + {c.symbol});
        }
      } else {
        ChosenAreOpen(rest, captured, seen);
      }
    }
  }

  lemma {:induction false} OpenAreChosen(candidates: seq<Candidate>, captured: map<string, Capture>, seen: set<string>,
                                         k: nat)
    requires k < |candidates| && Open(candidates[k], captured, seen)
    ensures Names(Chosen(candidates, captured, seen), candidates[k].symbol)
  {
    var c, d, rest := candidates[0], candidates[k], candidates[1..];
    var r := Chosen(candidates, captured, seen);
    if Open(c, captured, seen) {
      var tail := Chosen(rest, captured, seen + {c.symbol});
      assert r == [c] + tail;
      if d.symbol == c.symbol {
        assert r[0].symbol == d.symbol;
      } else {
        OpenAreChosen(rest, captured, seen + {c.symbol}, k - 1);
        var i :| 0 <= i < |tail| && tail[i].symbol == d.symbol;
        assert r[i + 1].symbol == d.symbol;
      }
    } else {
      OpenAreChosen(rest, captured, seen, k - 1);
    }
  }

  /** Exactly the open symbols are chosen, each once. */
  lemma ChosenExactly(candidates: seq<Candidate>, captured: map<string, Capture>, seen: set<string>)
    ensures var r := Chosen(candidates, captured, seen);
      && (forall i :: 0 <= i < |r| ==> Open(r[i], captured, seen) && r[i] in candidates)
      && Distinct(r)
      && (forall c <- candidates :: Open(c, captured, seen) ==> Names(r, c.symbol))
  {
    ChosenAreOpen(candidates, captured, seen);
    forall c <- candidates | Open(c, captured, seen) ensures Names(Chosen(candidates, captured, seen), c.symbol) {
      var k :| 0 <= k < |candidates| && candidates[k] == c;
      OpenAreChosen(candidates, captured, seen, k);
    }
  }

  lemma EligibleIsFresh(s: State, call: Call)
    requires |s.captured| < CAP
    ensures var r := Eligible(s, call); Distinct(r) && Fresh(r, s.captured) && |s.captured| + |r| <= CAP
    ensures forall c <- Eligible(s, call) :: Qualifies(c) && c in call.candidates
  {
    ChosenExactly(call.candidates, s.captured, {});
    var all := Chosen(call.candidates, s.captured, {});
    var r := Eligible(s, call);
    forall i | 0 <= i < |r| ensures Open(r[i], s.captured, {}) && r[i] in call.candidates {
      assert r[i] == all[i];
    }
  }

  // ----- What every run keeps -----

  /** Slots are exactly 1..k, one symbol each. */
  predicate SlotsExact(captured: map<string, Capture>) {
    && (forall a <- captured :: 1 <= captured[a].slot <= |captured|)
    && (forall a <- captured, b <- captured :: captured[a].slot == captured[b].slot ==> a == b)
  }

  ghost predicate Inv(s: State) {
    && SlotsExact(s.captured) && |s.captured| <= CAP
    && Books(s.audit).captured == s.captured
    && Books(s.audit).launches <= |s.captured|
    && Books(s.audit).caps == (if |s.captured| == CAP then 1 else 0)
    && (s.capRecorded <==> |s.captured| == CAP)
  }

  lemma OneKeeps(s: State, c: Candidate, run: int)
    requires SlotsExact(s.captured) && Books(s.audit).captured == s.captured && c.symbol !in s.captured
    ensures var r := AttributeOne(s, c, run);
      && SlotsExact(r.captured) && |r.captured| == |s.captured| + 1
      && Books(r.audit) == Books(s.audit).(captured := r.captured)
  {
    BooksGrow(s.audit, Attributed(c.symbol, |s.captured| + 1, run));
  }

  lemma LastIsNew(s: State, chosen: seq<Candidate>, run: int)
    requires chosen != [] && Distinct(chosen) && Fresh(chosen, s.captured)
    ensures var n := |chosen| - 1; chosen[n].symbol !in Attribute(s, chosen[..n], run).captured
  {
    var n := |chosen| - 1;
    AttributeIsFrame(s, chosen[..n], run);
    assert forall i :: 0 <= i < n ==> chosen[..n][i] == chosen[i];
  }

  /** While slots are being given out the cap is not recorded yet. */
  lemma {:induction false} AttributeKeeps(s: State, chosen: seq<Candidate>, run: int)
    requires SlotsExact(s.captured) && Books(s.audit).captured == s.captured
    requires Distinct(chosen) && Fresh(chosen, s.captured)
    ensures var r := Attribute(s, chosen, run);
      && SlotsExact(r.captured) && |r.captured| == |s.captured| + |chosen|
      && Books(r.audit) == Books(s.audit).(captured := r.captured)
      && r.capRecorded == s.capRecorded && r.probe == s.probe
  {
    if chosen != [] {
      var n := |chosen| - 1;
      assert Distinct(chosen[..n]) && Fresh(chosen[..n], s.captured);
      AttributeKeeps(s, chosen[..n], run);
      LastIsNew(s, chosen, run);
      OneKeeps(Attribute(s, chosen[..n], run), chosen[n], run);
    }
  }

  /** Using slots after a launch or beside a running probe keeps the invariant. */
  lemma UseKeeps(s: State, chosen: seq<Candidate>, run: int, now: int)
    requires SlotsExact(s.captured) && Books(s.audit).captured == s.captured && !s.capRecorded
    requires Books(s.audit).caps == 0 && Books(s.audit).launches <= |s.captured| + 1
    requires chosen != [] && Distinct(chosen) && Fresh(chosen, s.captured) && |s.captured| + |chosen| <= CAP
    ensures Inv(Use(s, chosen, run, now))
    ensures Launches(Use(s, chosen, run, now)) == Launches(s) && Use(s, chosen, run, now).probe == s.probe
  {
    AttributeKeeps(s, chosen, run);
    var s1 := Attribute(s, chosen, run);
    BooksGrow(s1.audit, CapReached(now));
  }

  lemma CallKeeps(s: State, call: Call)
    requires Inv(s)
    ensures Inv(MaybeAutoCapture(s, call).0)
    ensures var (s', status) := MaybeAutoCapture(s, call);
      Launches(s') == Launches(s) + if status.StartedProbe? then 1 else 0
  {
    if call.enabled && |s.captured| < CAP {
      EligibleIsFresh(s, call);
      var chosen := Eligible(s, call);
      if chosen != [] && !call.dryRun {
        if ProbeAlive(s, call) {
          UseKeeps(s, chosen, s.probe.value.run, call.now);
        } else if call.spawned.None? {
          BooksGrow(s.audit, LaunchFailed(call.now));
        } else {
          BooksGrow(s.audit, Started(call.now, call.spawned.value));
          UseKeeps(Launch(s, call.spawned.value, call.now), chosen, call.now, call.now);
        }
      }
    }
  }

  lemma {:induction false} RunKeeps(calls: seq<Call>)
    ensures Inv(Run(calls))
  {
    if calls != [] {
      RunKeeps(calls[..|calls| - 1]);
      CallKeeps(Run(calls[..|calls| - 1]), calls[|calls| - 1]);
    }
  }

  /** Over any sequence of calls from the empty state: at most five symbols, with slots exactly 1..k; at
      most five launches, never more than symbols; the cap recorded once when it is reached and not before;
      and the captured symbols are exactly what the audit trail says. */
  lemma CapIsKept(calls: seq<Call>)
    ensures var s := Run(calls);
      && |s.captured| <= 5 && SlotsExact(s.captured)
      && Launches(s) <= |s.captured|
      && Books(s.audit).caps == (if |s.captured| == 5 then 1 else 0)
      && Books(s.audit).captured == s.captured
  {
    RunKeeps(calls);
  }

  /** Every slot from 1 to k is taken. */
  lemma EverySlotIsTaken(calls: seq<Call>, slot: nat)
    requires 1 <= slot <= |Run(calls).captured|
    ensures exists a :: a in Run(calls).captured && Run(calls).captured[a].slot == slot
  {
    RunKeeps(calls);
    SlotsAreOnto(Run(calls).captured, slot);
  }

  /** Distinct slots within 1..k leave none out. */
  lemma SlotsAreOnto(captured: map<string, Capture>, slot: nat)
    requires SlotsExact(captured) && 1 <= slot <= |captured|
    ensures exists a :: a in captured && captured[a].slot == slot
  {
    var slots := set a | a in captured :: captured[a].slot;
    ImageIsAsLarge(captured, captured.Keys);
    assert slots == Slots(captured, captured.Keys);
    assert slots <= UpTo(|captured|);
    SubsetOfSameSize(slots, UpTo(|captured|));
    assert slot in slots;
  }

  function Slots(captured: map<string, Capture>, symbols: set<string>): set<nat>
    requires symbols <= captured.Keys
  {
    set a | a in symbols :: captured[a].slot
  }

  lemma {:induction false} ImageIsAsLarge(captured: map<string, Capture>, symbols: set<string>)
    requires symbols <= captured.Keys && SlotsExact(captured)
    ensures |Slots(captured, symbols)| == |symbols|
    decreases |symbols|
  {
    if symbols != {} {
      var a :| a in symbols;
      ImageIsAsLarge(captured, symbols - {a});
      assert Slots(captured, symbols) == Slots(captured, symbols - {a}) + {captured[a].slot};
    }
  }

  function UpTo(k: nat): (r: set<nat>)
    ensures |r| == k && forall n :: n in r <==> 1 <= n <= k
  {
    if k == 0 then {} else UpTo(k - 1) + {k}
  }

  lemma SubsetOfSameSize(a: set<nat>, b: set<nat>)
    requires a <= b && |a| == |b|
    ensures a == b
  {
    assert b == a + (b - a);
  }

  /** A call launches a probe exactly when it is enabled and wet, a slot and an open symbol are left, the
      recorded probe is dead or expired, and the launch succeeds; only such a call or one beside a live
      probe spends slots. */
  lemma LaunchesExactlyWhenDead(calls: seq<Call>, call: Call)
    ensures var s := Run(calls);
      var (s', status) := MaybeAutoCapture(s, call);
      var open := exists c :: c in call.candidates && Open(c, s.captured, {});
      && Launches(s') == Launches(s) + (if status.StartedProbe? then 1 else 0)
      && (status.StartedProbe? <==>
            call.enabled && !call.dryRun && |s.captured| < 5 && open && !ProbeAlive(s, call) && call.spawned.Some?)
      && (!status.StartedProbe? && !status.AttributedToProbe? ==> s'.captured == s.captured && s'.probe == s.probe)
  {
    RunKeeps(calls);
    var s := Run(calls);
    CallKeeps(s, call);
    if |s.captured| < CAP {
      ChosenExactly(call.candidates, s.captured, {});
      var all := Chosen(call.candidates, s.captured, {});
      assert all == [] <==> Eligible(s, call) == [];
      if all != [] { assert Open(all[0], s.captured, {}); }
    }
  }

  /** Exactly when each status is returned. */
  lemma StatusExactly(calls: seq<Call>, call: Call)
    ensures var s, status := Run(calls), MaybeAutoCapture(Run(calls), call).1;
      var room := call.enabled && |s.captured| < 5;
      var open := exists c :: c in call.candidates && Open(c, s.captured, {});
      var wanted := room && open && !call.dryRun;
      && (status == Disabled <==> !call.enabled)
      && (status == CapWasReached <==> call.enabled && |s.captured| >= 5)
      && (status == Idle <==> room && !open)
      && (status == DryRun <==> room && open && call.dryRun)
      && (status == AttributedToProbe <==> wanted && ProbeAlive(s, call))
      && (status == StartedProbe <==> wanted && !ProbeAlive(s, call) && call.spawned.Some?)
      && (status == LaunchFailure <==> wanted && !ProbeAlive(s, call) && call.spawned.None?)
  {
    var s := Run(calls);
    if |s.captured| < CAP {
      ChosenExactly(call.candidates, s.captured, {});
      var all := Chosen(call.candidates, s.captured, {});
      assert all == [] <==> Eligible(s, call) == [];
      if all != [] { assert Open(all[0], s.captured, {}); }
    }
  }

  /** What a spending call does to the slots: the open symbols, cut to the slots left, and nobody else. */
  lemma SpendsOnTheOpen(calls: seq<Call>, call: Call)
    requires var status := MaybeAutoCapture(Run(calls), call).1; status.StartedProbe? || status.AttributedToProbe?
    ensures var s := Run(calls);
      var s' := MaybeAutoCapture(s, call).0;
      && (forall a :: a in s'.captured <==> a in s.captured || Names(Eligible(s, call), a))
      && (forall a <- s.captured :: s'.captured[a] == s.captured[a])
      && (forall a <- s'.captured :: a !in s.captured ==> s'.probe.Some? && s'.captured[a].run == s'.probe.value.run)
  {
    RunKeeps(calls);
    var s := Run(calls);
    EligibleIsFresh(s, call);
    var chosen := Eligible(s, call);
    var base := if ProbeAlive(s, call) then s else Launch(s, call.spawned.value, call.now);
    AttributeIsFrame(base, chosen, base.probe.value.run);
  }

  lemma {:induction false} AttributeIsFrame(s: State, chosen: seq<Candidate>, run: int)
    requires Fresh(chosen, s.captured)
    ensures var r := Attribute(s, chosen, run);
      && r.probe == s.probe
      && (forall a :: a in r.captured <==> a in s.captured || Names(chosen, a))
      && (forall a <- s.captured :: r.captured[a] == s.captured[a])
      && (forall a <- r.captured :: a !in s.captured ==> r.captured[a].run == run)
  {
    if chosen != [] {
      AttributeIsFrame(s, chosen[..|chosen| - 1], run);
      NamesOfSnoc(chosen);
    }
  }

  lemma NamesOfSnoc(chosen: seq<Candidate>)
    requires chosen != []
    ensures var n := |chosen| - 1;
      forall a :: Names(chosen, a) <==> Names(chosen[..n], a) || a == chosen[n].symbol
  {
    var n := |chosen| - 1;
    forall a ensures Names(chosen, a) <==> Names(chosen[..n], a) || a == chosen[n].symbol {
      if Names(chosen[..n], a) {
        var i :| 0 <= i < n && chosen[..n][i].symbol == a;
        assert chosen[i].symbol == a;
      }
      if Names(chosen, a) && a != chosen[n].symbol {
        var i :| 0 <= i < |chosen| && chosen[i].symbol == a;
        assert chosen[..n][i].symbol == a;
      }
    }
  }

  // ----- When the recorded probe counts as alive -----

  /** The time of the last launch on the audit trail. */
  function LastLaunch(audit: seq<Audit>): Option<int> {
    if audit == [] then None
    else if audit[|audit| - 1].Started? then Some(audit[|audit| - 1].at)
    else LastLaunch(audit[..|audit| - 1])
  }

  lemma LastLaunchSnoc(audit: seq<Audit>, e: Audit)
    ensures LastLaunch(audit + [e]) == if e.Started? then Some(e.at) else LastLaunch(audit)
  {
    assert (audit + [e])[..|audit + [e]| - 1] == audit;
  }

  /** The probe on record is that of the last launch, and runs out 24 hours after it. */
  predicate OnRecord(s: State) {
    match LastLaunch(s.audit)
    case None => s.probe.None?
    case Some(at) => s.probe.Some? && s.probe.value.run == at && s.probe.value.expiresAt == at + 86_400
  }

  lemma {:induction false} AttributeOnRecord(s: State, chosen: seq<Candidate>, run: int)
    requires OnRecord(s)
    ensures OnRecord(Attribute(s, chosen, run))
  {
    if chosen != [] {
      var n := |chosen| - 1;
      AttributeOnRecord(s, chosen[..n], run);
      var s1 := Attribute(s, chosen[..n], run);
      LastLaunchSnoc(s1.audit, Attributed(chosen[n].symbol, |s1.captured| + 1, run));
    }
  }

  lemma UseOnRecord(s: State, chosen: seq<Candidate>, run: int, now: int)
    requires OnRecord(s)
    ensures OnRecord(Use(s, chosen, run, now))
  {
    AttributeOnRecord(s, chosen, run);
    LastLaunchSnoc(Attribute(s, chosen, run).audit, CapReached(now));
  }

  lemma {:induction false} RunOnRecord(calls: seq<Call>)
    ensures OnRecord(Run(calls))
  {
    if calls != [] {
      var n := |calls| - 1;
      RunOnRecord(calls[..n]);
      var s, call := Run(calls[..n]), calls[n];
      LastLaunchSnoc(s.audit, CapReached(call.now));
      LastLaunchSnoc(s.audit, LaunchFailed(call.now));
      if call.enabled && |s.captured| < CAP && Eligible(s, call) != [] && !call.dryRun {
        if ProbeAlive(s, call) {
          UseOnRecord(s, Eligible(s, call), s.probe.value.run, call.now);
        } else if call.spawned.Some? {
          LastLaunchSnoc(s.audit, Started(call.now, call.spawned.value));
          UseOnRecord(Launch(s, call.spawned.value, call.now), Eligible(s, call), call.now, call.now);
        }
      }
    }
  }

  /** After every sequence of calls: a probe counts as alive exactly if there was a launch, its process answers, and
      less than 24 hours have passed since the last launch on the audit trail. */
  lemma AliveExactly(calls: seq<Call>, call: Call)
    ensures var last := LastLaunch(Run(calls).audit);
      ProbeAlive(Run(calls), call) <==> last.Some? && call.pidAlive && call.now < last.value + 86_400
  {
    RunOnRecord(calls);
  }

  // ----- One probe at a time -----

  /** As long as the recorded process lives, launches are at least a probe's lifetime apart: the last
      launch is on record with its time. */
  predicate Alternating(audit: seq<Audit>) {
    forall i, j :: 0 <= i < j < |audit| && audit[i].Started? && audit[j].Started?
      ==> audit[j].at >= audit[i].at + PROBE_DURATION
  }

  predicate Remembers(s: State) {
    && Alternating(s.audit)
    && forall i :: 0 <= i < |s.audit| && s.audit[i].Started?
         ==> s.probe.Some? && s.audit[i].at + PROBE_DURATION <= s.probe.value.expiresAt
  }

  lemma {:induction false} AttributeRemembers(s: State, chosen: seq<Candidate>, run: int)
    requires Remembers(s)
    ensures Remembers(Attribute(s, chosen, run))
  {
    if chosen != [] { AttributeRemembers(s, chosen[..|chosen| - 1], run); }
  }

  lemma {:induction false} ProbesDoNotOverlap(calls: seq<Call>)
    requires forall i :: 0 <= i < |calls| ==> calls[i].pidAlive
    ensures Remembers(Run(calls))
  {
    if calls != [] {
      var n := |calls| - 1;
      ProbesDoNotOverlap(calls[..n]);
      var s, call := Run(calls[..n]), calls[n];
      if call.enabled && |s.captured| < CAP && Eligible(s, call) != [] && !call.dryRun {
        if ProbeAlive(s, call) {
          UseRemembers(s, Eligible(s, call), s.probe.value.run, call.now);
        } else if call.spawned.Some? {
          LaunchRemembers(s, call);
          UseRemembers(Launch(s, call.spawned.value, call.now), Eligible(s, call), call.now, call.now);
        }
      }
    }
  }

  lemma UseRemembers(s: State, chosen: seq<Candidate>, run: int, now: int)
    requires Remembers(s)
    ensures Remembers(Use(s, chosen, run, now))
  {
    AttributeRemembers(s, chosen, run);
  }

  lemma LaunchRemembers(s: State, call: Call)
    requires Remembers(s) && call.pidAlive && !ProbeAlive(s, call) && call.spawned.Some?
    ensures Remembers(Launch(s, call.spawned.value, call.now))
  {
  }
}
