/** Two paths into the audit table: the watchdog's direct write and the tail bridge that reads the event
    file from a stored cursor. The line parser, the timestamp format and the fate of every database call
    are inputs; a write or a bridge run is one atomic step. */
module AuditBridge {
  import opened Options

  // ----- Events and rows -----

  /** A canary event: its name, its own key and its timestamp, `None` where missing or of another type. */
  datatype Event = Event(name: Option<string>, key: Option<string>, ts: Option<real>)

  datatype Mapped = Mapped(eventType: string, severity: string)
  datatype Row = Row(eventType: string, severity: string, key: string, backfilled: bool)

  /** What the model leaves open: how a line parses and how a timestamp prints. */
  datatype Env = Env(parse: string -> seq<Event>, iso: real -> string)

  function MapCanaryToAudit(name: string): Option<Mapped> {
    if name == "ENGINE_CRASH" then Some(Mapped("engine_crash", "critical"))
    else if name == "NETWORK_OUTAGE" then Some(Mapped("network_outage", "warning"))
    else if name == "ENGINE_RECOVERED" then Some(Mapped("engine_recovered", "info"))
    else if name == "RESTART_CIRCUIT_BROKEN" then Some(Mapped("restart_circuit_broken", "critical"))
    else if name == "SNAPSHOT_STALL_ENGINE_ALIVE" then Some(Mapped("snapshot_stall_engine_alive", "warning"))
    else None
  }

  function DedupKey(eventType: string, ts: real, env: Env): string {
    "engine_watchdog|" + eventType + "|" + env.iso(ts)
  }

  /** The row the bridge writes for an event; `None` for an event it skips. */
  function BridgeRow(e: Event, env: Env): Option<Row> {
    if e.name.None? then None
    else
      match MapCanaryToAudit(e.name.value)
      case None => None
      case Some(m) =>
        if e.key.Some? && e.key.value != "" then Some(Row(m.eventType, m.severity, e.key.value, true))
        else if e.ts.None? then None
        else Some(Row(m.eventType, m.severity, DedupKey(m.eventType, e.ts.value, env), true))
  }

  function DirectRow(m: Mapped, ts: real, env: Env): Row {
    Row(m.eventType, m.severity, DedupKey(m.eventType, ts, env), false)
  }

  predicate HasKey(rows: seq<Row>, key: string) {
    exists i :: 0 <= i < |rows| && rows[i].key == key
  }

  function InsertIfAbsent(rows: seq<Row>, row: Row): seq<Row> {
    if HasKey(rows, row.key) then rows else rows + [row]
  }

  // ----- The file -----

  /** The complete lines so far and the line still open. */
  datatype Scan = Scan(done: seq<string>, open: string)

  function Feed(c: Scan, ch: char): Scan {
    if ch == '\n' then Scan(c.done + [c.open], "") else Scan(c.done, c.open + [ch])
  }

  function ScanOf(s: string): Scan {
    if s == "" then Scan([], "") else Feed(ScanOf(s[..|s| - 1]), s[|s| - 1])
  }

  function Lines(s: string): seq<string> {
    var c := ScanOf(s);
    if c.open == "" then c.done else c.done + [c.open]
  }

  function EventsOf(lines: seq<string>, env: Env): seq<Event> {
    if lines == [] then [] else env.parse(lines[0]) + EventsOf(lines[1..], env)
  }

  function Events(text: string, env: Env): seq<Event> { EventsOf(Lines(text), env) }

  predicate EndsLine(s: string) { s == "" || s[|s| - 1] == '\n' }

  predicate Blank(s: string) {
    forall i :: 0 <= i < |s| ==> s[i] == ' ' || s[i] == '\n' || s[i] == '\t' || s[i] == '\r'
  }

  // ----- One bridge run -----

  /** How one INSERT goes: it runs, it raises before reaching the server, or the server refuses it and
      aborts the transaction, so that every later one raises and the commit rolls back. */
  datatype Fate = Runs | Raises | Aborts

  datatype Tx = Tx(rows: seq<Row>, aborted: bool, inserted: nat, skipped: nat)

  function InsertOne(tx: Tx, e: Event, fate: Fate, env: Env): Tx {
    match BridgeRow(e, env)
    case None => tx.(skipped := tx.skipped + 1)
    case Some(row) =>
      if tx.aborted || fate.Raises? then tx.(skipped := tx.skipped + 1)
      else if fate.Aborts? then tx.(aborted := true, skipped := tx.skipped + 1)
      else if HasKey(tx.rows, row.key) then tx.(skipped := tx.skipped + 1)
      else tx.(rows := tx.rows + [row], inserted := tx.inserted + 1)
  }

  function FateAt(fates: seq<Fate>, i: nat): Fate { if i < |fates| then fates[i] else Runs }

  function InsertAll(rows: seq<Row>, events: seq<Event>, fates: seq<Fate>, env: Env): Tx {
    if events == [] then Tx(rows, false, 0, 0)
    else
      var n := |events| - 1;
      InsertOne(InsertAll(rows, events[..n], fates, env), events[n], FateAt(fates, n), env)
  }

  /** What the surroundings do to one run. */
  datatype Luck = Luck(readable: bool, driver: bool, connects: bool, tablePresent: bool, fates: seq<Fate>,
                       commits: bool, saves: bool)

  // ----- The state and its steps -----

  /** `cursor` is what a run would load. `stale` (not in the program) says that the file was replaced and
      no run has started over since. */
  datatype World = World(file: string, rows: seq<Row>, cursor: nat, stale: bool)

  function StartOf(w: World): nat { if w.cursor > |w.file| then 0 else w.cursor }

  function Chunk(w: World): string { w.file[StartOf(w)..] }

  /** A run gets as far as the INSERTs. */
  predicate Works(w: World, luck: Luck) {
    luck.readable && !Blank(Chunk(w)) && luck.driver && luck.connects && luck.tablePresent
  }

  /** 0 for success, 1 for a file or database error (an exception included), 2 for a missing driver. */
  function ExitCode(w: World, luck: Luck): int {
    if !luck.readable then 1
    else if Blank(Chunk(w)) then 0
    else if !luck.driver then 2
    else if luck.connects && luck.commits then 0 else 1
  }

  function BridgeRun(w: World, luck: Luck, env: Env): World {
    if !Works(w, luck) then w
    else
      var tx := InsertAll(w.rows, Events(Chunk(w), env), luck.fates, env);
      if !luck.commits then w
      else
        var rows := if tx.aborted then w.rows else tx.rows;
        if luck.saves then World(w.file, rows, |w.file|, w.stale && StartOf(w) > 0) else w.(rows := rows)
  }

  datatype Step =
    | Append(text: string)
    | Replace(text: string)
    | CursorLost
    | Direct(mapped: Mapped, ts: real, written: bool)
    | Bridge(luck: Luck)

  function Take(w: World, step: Step, env: Env): World {
    match step
    case Append(text) => w.(file := w.file + text)
    case Replace(text) => w.(file := text, stale := w.stale || w.cursor > 0)
    case CursorLost => w.(cursor := 0, stale := false)
    case Direct(m, ts, written) => if written then w.(rows := InsertIfAbsent(w.rows, DirectRow(m, ts, env))) else w
    case Bridge(luck) => BridgeRun(w, luck, env)
  }

  const START := World("", [], 0, false)

  function Trace(steps: seq<Step>, env: Env): World {
    if steps == [] then START else Take(Trace(steps[..|steps| - 1], env), steps[|steps| - 1], env)
  }

  // ----- Both paths agree on the key -----

  /** The types of the map hold no separator, so a derived key determines the type and the printed time. */
  lemma KeyDetermines(a: string, b: string, s: real, t: real, env: Env)
    requires '|' !in a && '|' !in b
    ensures DedupKey(a, s, env) == DedupKey(b, t, env) <==> a == b && env.iso(s) == env.iso(t)
  {
    var p := "engine_watchdog|";
    var x, y := a + "|" + env.iso(s), b + "|" + env.iso(t);
    if DedupKey(a, s, env) == DedupKey(b, t, env) {
      assert DedupKey(a, s, env)[|p|..] == x && DedupKey(b, t, env)[|p|..] == y;
      assert x[|a|] == '|' && y[|b|] == '|';
      assert forall i :: 0 <= i < |a| ==> x[i] == a[i];
      assert forall i :: 0 <= i < |b| ==> y[i] == b[i];
      assert |a| == |b|;
      assert a == x[..|a|] && b == y[..|b|];
      assert env.iso(s) == x[|a| + 1..] && env.iso(t) == y[|b| + 1..];
    }
  }

  lemma MappedTypesAreClean(name: string)
    requires MapCanaryToAudit(name).Some?
    ensures '|' !in MapCanaryToAudit(name).value.eventType
  {
    TypesAreClean();
  }

  lemma TypesAreClean()
    ensures '|' !in "engine_crash" && '|' !in "network_outage" && '|' !in "engine_recovered"
    ensures '|' !in "restart_circuit_broken" && '|' !in "snapshot_stall_engine_alive"
  {
  }

  function LowerChar(c: char): char { if 'A' <= c <= 'Z' then (c as int - 'A' as int + 'a' as int) as char else c }

  /** `t` is `s` in ASCII lower case. */
  predicate IsLower(t: string, s: string) {
    |t| == |s| && forall i :: 0 <= i < |s| ==> t[i] == LowerChar(s[i])
  }

  /** The events that are audited. */
  predicate Audited(name: string) {
    || name == "ENGINE_CRASH" || name == "NETWORK_OUTAGE" || name == "ENGINE_RECOVERED"
    || name == "RESTART_CIRCUIT_BROKEN" || name == "SNAPSHOT_STALL_ENGINE_ALIVE"
  }

  /** Which events are audited, and under which type: the lower-cased name. */
  lemma TypeExactly(name: string)
    ensures MapCanaryToAudit(name).Some? <==> Audited(name)
    ensures Audited(name) ==> IsLower(MapCanaryToAudit(name).value.eventType, name)
  {
    LowerOutages();
    LowerRecovery();
    LowerStall();
  }

  lemma LowerOutages()
    ensures IsLower("engine_crash", "ENGINE_CRASH") && IsLower("network_outage", "NETWORK_OUTAGE")
  {
  }

  lemma LowerRecovery()
    ensures IsLower("engine_recovered", "ENGINE_RECOVERED")
    ensures IsLower("restart_circuit_broken", "RESTART_CIRCUIT_BROKEN")
  {
  }

  lemma LowerStall()
    ensures IsLower("snapshot_stall_engine_alive", "SNAPSHOT_STALL_ENGINE_ALIVE")
  {
  }

  /** How severe they are: critical exactly for a crash or an open breaker, informational exactly for a recovery. */
  lemma SeverityExactly(name: string)
    requires Audited(name)
    ensures var severity := MapCanaryToAudit(name).value.severity;
      if name == "ENGINE_CRASH" || name == "RESTART_CIRCUIT_BROKEN" then severity == "critical"
      else if name == "ENGINE_RECOVERED" then severity == "info" else severity == "warning"
  {
  }

  /** An event becomes a row exactly if its name is audited and it carries a key or a timestamp; its own key is kept. */
  lemma RowExactly(e: Event, env: Env)
    ensures var row := BridgeRow(e, env);
      var keyed := e.key.Some? && e.key.value != "";
      && (row.Some? <==> e.name.Some? && Audited(e.name.value) && (keyed || e.ts.Some?))
      && (row.Some? && keyed ==> row.value.key == e.key.value)
      && (row.Some? && !keyed ==> row.value.key == DedupKey(row.value.eventType, e.ts.value, env))
      && (row.Some? ==> Mapped(row.value.eventType, row.value.severity) == MapCanaryToAudit(e.name.value).value)
  {
    if e.name.Some? { TypeExactly(e.name.value); }
  }

  /** Whichever path is first, the other adds nothing: the bridge derives for an event, from its own key or
      from its timestamp, the key under which the direct write stored it. */
  lemma PathsShareOneRow(rows: seq<Row>, name: string, ts: real, carries: bool, env: Env)
    requires MapCanaryToAudit(name).Some?
    ensures var m := MapCanaryToAudit(name).value;
      var direct := DirectRow(m, ts, env);
      var e := Event(Some(name), if carries then Some(direct.key) else None, Some(ts));
      var bridge := BridgeRow(e, env);
      && bridge.Some? && bridge.value.key == direct.key
      && InsertIfAbsent(InsertIfAbsent(rows, direct), bridge.value) == InsertIfAbsent(rows, direct)
      && InsertIfAbsent(InsertIfAbsent(rows, bridge.value), direct) == InsertIfAbsent(rows, bridge.value)
  {
    var m := MapCanaryToAudit(name).value;
    var direct := DirectRow(m, ts, env);
    assert direct.key != "";
    InsertGivesKey(rows, direct);
    InsertGivesKey(rows, direct.(backfilled := true));
  }

  lemma InsertGivesKey(rows: seq<Row>, row: Row)
    ensures HasKey(InsertIfAbsent(rows, row), row.key)
    ensures forall k :: HasKey(InsertIfAbsent(rows, row), k) <==> HasKey(rows, k) || k == row.key
  {
    var r := InsertIfAbsent(rows, row);
    if !HasKey(rows, row.key) {
      assert r[|rows|] == row;
      forall k | HasKey(rows, k) ensures HasKey(r, k) {
        var i :| 0 <= i < |rows| && rows[i].key == k;
        assert r[i].key == k;
      }
    }
  }

  // ----- No two rows share a key -----

  predicate Unique(rows: seq<Row>) {
    forall i, j :: 0 <= i < j < |rows| ==> rows[i].key != rows[j].key
  }

  lemma InsertKeepsUnique(rows: seq<Row>, row: Row)
    requires Unique(rows)
    ensures Unique(InsertIfAbsent(rows, row))
  {
  }

  predicate Extends(rows: seq<Row>, more: seq<Row>) { |rows| <= |more| && more[..|rows|] == rows }

  lemma ExtendsKeepsKeys(rows: seq<Row>, more: seq<Row>)
    requires Extends(rows, more)
    ensures forall k :: HasKey(rows, k) ==> HasKey(more, k)
  {
    forall k | HasKey(rows, k) ensures HasKey(more, k) {
      var i :| 0 <= i < |rows| && rows[i].key == k;
      assert more[..|rows|][i] == more[i];
    }
  }

  /** A run's INSERTs only add rows, keep the keys unique and account for every event read. */
  lemma {:induction false} InsertAllKeeps(rows: seq<Row>, events: seq<Event>, fates: seq<Fate>, env: Env)
    requires Unique(rows)
    ensures var tx := InsertAll(rows, events, fates, env);
      && Unique(tx.rows) && Extends(rows, tx.rows)
      && tx.inserted == |tx.rows| - |rows| && tx.inserted + tx.skipped == |events|
  {
    if events != [] {
      var n := |events| - 1;
      InsertAllKeeps(rows, events[..n], fates, env);
      var tx := InsertAll(rows, events[..n], fates, env);
      var row := BridgeRow(events[n], env);
      if row.Some? { InsertKeepsUnique(tx.rows, row.value); }
    }
  }

  lemma TakeKeepsUnique(w: World, step: Step, env: Env)
    requires Unique(w.rows)
    ensures Unique(Take(w, step, env).rows) && Extends(w.rows, Take(w, step, env).rows)
  {
    match step
    case Direct(m, ts, _) => InsertKeepsUnique(w.rows, DirectRow(m, ts, env));
    case Bridge(luck) => InsertAllKeeps(w.rows, Events(Chunk(w), env), luck.fates, env);
    case _ =>
  }

  /** Whatever happens, in whatever order, no two rows of the table share a key. */
  lemma {:induction false} KeysStayUnique(steps: seq<Step>, env: Env)
    ensures Unique(Trace(steps, env).rows)
  {
    if steps != [] {
      KeysStayUnique(steps[..|steps| - 1], env);
      TakeKeepsUnique(Trace(steps[..|steps| - 1], env), steps[|steps| - 1], env);
    }
  }

  // ----- Cutting the file at line ends -----

  lemma {:induction false} ScanOfConcat(a: string, b: string)
    requires EndsLine(a)
    ensures ScanOf(a).open == ""
    ensures ScanOf(a + b) == Scan(ScanOf(a).done + ScanOf(b).done, ScanOf(b).open)
    decreases |b|
  {
    if b == "" {
      assert a + b == a;
    } else {
      assert (a + b)[..|a + b| - 1] == a + b[..|b| - 1];
      ScanOfConcat(a, b[..|b| - 1]);
    }
  }

  lemma LinesOfConcat(a: string, b: string)
    requires EndsLine(a)
    ensures Lines(a + b) == Lines(a) + Lines(b)
  {
    ScanOfConcat(a, b);
  }

  lemma {:induction false} EventsOfConcat(p: seq<string>, q: seq<string>, env: Env)
    ensures EventsOf(p + q, env) == EventsOf(p, env) + EventsOf(q, env)
  {
    if p == [] {
      assert p + q == q;
    } else {
      assert (p + q)[1..] == p[1..] + q;
      EventsOfConcat(p[1..], q, env);
    }
  }

  /** A file read in two pieces, cut at a line end, yields the events of the whole. */
  lemma CutAtLineEnd(file: string, cut: nat, env: Env)
    requires cut <= |file| && EndsLine(file[..cut])
    ensures Events(file, env) == Events(file[..cut], env) + Events(file[cut..], env)
  {
    assert file == file[..cut] + file[cut..];
    LinesOfConcat(file[..cut], file[cut..]);
    EventsOfConcat(Lines(file[..cut]), Lines(file[cut..]), env);
  }

  // ----- Coverage -----

  predicate Stored(rows: seq<Row>, e: Event, env: Env) {
    BridgeRow(e, env).Some? ==> HasKey(rows, BridgeRow(e, env).value.key)
  }

  predicate Covered(rows: seq<Row>, events: seq<Event>, env: Env) {
    forall i :: 0 <= i < |events| ==> Stored(rows, events[i], env)
  }

  predicate NoneRaises(fates: seq<Fate>) { forall i :: 0 <= i < |fates| ==> fates[i].Runs? }

  /** Some INSERT for the key ran among the first `n`. */
  predicate Ran(events: seq<Event>, fates: seq<Fate>, n: nat, key: string, env: Env)
    requires n <= |events|
  {
    exists j :: 0 <= j < n && FateAt(fates, j).Runs? && BridgeRow(events[j], env).Some?
             && BridgeRow(events[j], env).value.key == key
  }

  /** Until the transaction is aborted, its keys are the old ones and those of the INSERTs that ran. */
  lemma {:induction false} KeysOfRun(rows: seq<Row>, events: seq<Event>, n: nat, fates: seq<Fate>, env: Env,
                                     key: string)
    requires n <= |events| && !InsertAll(rows, events[..n], fates, env).aborted
    ensures HasKey(InsertAll(rows, events[..n], fates, env).rows, key)
      <==> HasKey(rows, key) || Ran(events, fates, n, key, env)
  {
    if n > 0 {
      assert events[..n][..n - 1] == events[..n - 1];
      var tx := InsertAll(rows, events[..n - 1], fates, env);
      KeysOfRun(rows, events, n - 1, fates, env, key);
      var row := BridgeRow(events[n - 1], env);
      if row.Some? { InsertGivesKey(tx.rows, row.value); }
      RanStep(events, fates, n, key, env);
    }
  }

  lemma RanStep(events: seq<Event>, fates: seq<Fate>, n: nat, key: string, env: Env)
    requires 0 < n <= |events|
    ensures Ran(events, fates, n, key, env) <==>
      || Ran(events, fates, n - 1, key, env)
      || (FateAt(fates, n - 1).Runs? && BridgeRow(events[n - 1], env).Some?
          && BridgeRow(events[n - 1], env).value.key == key)
  {
    if Ran(events, fates, n - 1, key, env) {
      var j :| 0 <= j < n - 1 && FateAt(fates, j).Runs? && BridgeRow(events[j], env).Some?
             && BridgeRow(events[j], env).value.key == key;
      assert Ran(events, fates, n, key, env);
    }
  }

  /** The server refuses some INSERT that the run gets to. */
  predicate Refused(events: seq<Event>, fates: seq<Fate>, env: Env) {
    exists i :: 0 <= i < |events| && RefusedAt(events, i, fates, env)
  }

  predicate RefusedAt(events: seq<Event>, i: nat, fates: seq<Fate>, env: Env)
    requires i < |events|
  {
    BridgeRow(events[i], env).Some? && FateAt(fates, i).Aborts?
  }

  lemma RefusedSnoc(events: seq<Event>, fates: seq<Fate>, env: Env)
    requires events != []
    ensures var n := |events| - 1;
      Refused(events, fates, env) <==> Refused(events[..n], fates, env) || RefusedAt(events, n, fates, env)
  {
    var n := |events| - 1;
    var init := events[..n];
    assert forall i :: 0 <= i < n ==> RefusedAt(init, i, fates, env) == RefusedAt(events, i, fates, env);
    if Refused(init, fates, env) {
      var i :| 0 <= i < n && RefusedAt(init, i, fates, env);
      assert RefusedAt(events, i, fates, env);
    }
  }

  lemma {:induction false} AbortedExactly(rows: seq<Row>, events: seq<Event>, fates: seq<Fate>, env: Env)
    ensures InsertAll(rows, events, fates, env).aborted <==> Refused(events, fates, env)
  {
    if events != [] {
      AbortedExactly(rows, events[..|events| - 1], fates, env);
      RefusedSnoc(events, fates, env);
    }
  }

  /** Exactly which runs may move the cursor: after a committed run every event it read is stored if and
      only if each was stored before, or the server refused no INSERT of the run and one with its key ran. */
  lemma RunCoversExactly(w: World, luck: Luck, env: Env)
    requires Works(w, luck) && luck.commits
    ensures var events := Events(Chunk(w), env);
      Covered(BridgeRun(w, luck, env).rows, events, env) <==>
        forall i :: 0 <= i < |events| ==>
          || Stored(w.rows, events[i], env)
          || (!Refused(events, luck.fates, env)
              && Ran(events, luck.fates, |events|, BridgeRow(events[i], env).value.key, env))
  {
    AbortedExactly(w.rows, Events(Chunk(w), env), luck.fates, env);
    var events := Events(Chunk(w), env);
    assert events[..|events|] == events;
    var tx := InsertAll(w.rows, events, luck.fates, env);
    if !tx.aborted {
      forall i | 0 <= i < |events| && BridgeRow(events[i], env).Some?
        ensures HasKey(tx.rows, BridgeRow(events[i], env).value.key) <==>
          HasKey(w.rows, BridgeRow(events[i], env).value.key)
          || Ran(events, luck.fates, |events|, BridgeRow(events[i], env).value.key, env)
      {
        KeysOfRun(w.rows, events, |events|, luck.fates, env, BridgeRow(events[i], env).value.key);
      }
    }
  }

  lemma {:induction false} NothingAborts(rows: seq<Row>, events: seq<Event>, fates: seq<Fate>, env: Env)
    requires NoneRaises(fates)
    ensures !InsertAll(rows, events, fates, env).aborted && !Refused(events, fates, env)
  {
    if events != [] { NothingAborts(rows, events[..|events| - 1], fates, env); }
  }

  /** In particular a run in which no INSERT raises stores everything it read. */
  lemma CleanRunCovers(w: World, luck: Luck, env: Env)
    requires Works(w, luck) && luck.commits && NoneRaises(luck.fates)
    ensures Covered(BridgeRun(w, luck, env).rows, Events(Chunk(w), env), env)
  {
    var events := Events(Chunk(w), env);
    NothingAborts(w.rows, events, luck.fates, env);
    forall i | 0 <= i < |events| && BridgeRow(events[i], env).Some?
      ensures Ran(events, luck.fates, |events|, BridgeRow(events[i], env).value.key, env)
    {
      assert FateAt(luck.fates, i).Runs?;
    }
    RunCoversExactly(w, luck, env);
  }

  /** A step the coverage theorem allows: runs end on a line boundary and no INSERT of theirs raises. */
  predicate Orderly(w: World, step: Step) {
    step.Bridge? ==> EndsLine(w.file) && NoneRaises(step.luck.fates)
  }

  predicate OrderlyTrace(steps: seq<Step>, env: Env) {
    steps != [] ==>
      && OrderlyTrace(steps[..|steps| - 1], env)
      && Orderly(Trace(steps[..|steps| - 1], env), steps[|steps| - 1])
  }

  predicate UpToDate(w: World, env: Env) {
    && w.cursor <= |w.file| && EndsLine(w.file[..w.cursor])
    && Covered(w.rows, Events(w.file[..w.cursor], env), env)
  }

  predicate Inv(w: World, env: Env) {
    && Unique(w.rows)
    && (!w.stale ==> UpToDate(w, env))
  }

  lemma CoveredByMore(rows: seq<Row>, more: seq<Row>, events: seq<Event>, env: Env)
    requires Covered(rows, events, env) && Extends(rows, more)
    ensures Covered(more, events, env)
  {
    ExtendsKeepsKeys(rows, more);
  }

  /** A run that moves the cursor: what lies before the start was covered, what it read is now. */
  lemma AdvanceCovers(w: World, luck: Luck, env: Env)
    requires Works(w, luck) && luck.commits && NoneRaises(luck.fates) && Unique(w.rows)
    requires var cut := StartOf(w);
      EndsLine(w.file[..cut]) && (cut > 0 ==> Covered(w.rows, Events(w.file[..cut], env), env))
    ensures Covered(BridgeRun(w, luck, env).rows, Events(w.file, env), env)
  {
    var cut, rows := StartOf(w), BridgeRun(w, luck, env).rows;
    TakeKeepsUnique(w, Bridge(luck), env);
    if cut == 0 {
      assert w.file[..0] == "" && Events("", env) == [];
    } else {
      CoveredByMore(w.rows, rows, Events(w.file[..cut], env), env);
    }
    CleanRunCovers(w, luck, env);
    CutAtLineEnd(w.file, cut, env);
  }

  lemma BridgeKeeps(w: World, luck: Luck, env: Env)
    requires Inv(w, env) && Orderly(w, Bridge(luck))
    ensures Inv(BridgeRun(w, luck, env), env)
  {
    TakeKeepsUnique(w, Bridge(luck), env);
    if Works(w, luck) && luck.commits && luck.saves && !(w.stale && StartOf(w) > 0) {
      AdvanceCovers(w, luck, env);
      assert w.file[..|w.file|] == w.file;
    } else if !w.stale {
      CoveredByMore(w.rows, BridgeRun(w, luck, env).rows, Events(w.file[..w.cursor], env), env);
    }
  }

  lemma TakeKeeps(w: World, step: Step, env: Env)
    requires Inv(w, env) && Orderly(w, step)
    ensures Inv(Take(w, step, env), env)
  {
    var w' := Take(w, step, env);
    match step
    case Bridge(luck) => BridgeKeeps(w, luck, env);
    case Direct(_, _, _) =>
      TakeKeepsUnique(w, step, env);
      if !w.stale { CoveredByMore(w.rows, w'.rows, Events(w.file[..w.cursor], env), env); }
    case Append(text) =>
      if !w.stale { assert w'.file[..w.cursor] == w.file[..w.cursor]; }
    case _ =>
      assert w'.file[..0] == "" && Events("", env) == [];
  }

  /** A run that works, from any state between runs, catches up: if the file did not shrink under a cursor whose file
      is stale, or shrank below it so that the run starts over, then everything in it is stored, the cursor is at
      its end and the state is fresh again. */
  lemma RunCatchesUp(w: World, luck: Luck, env: Env)
    requires Inv(w, env) && Orderly(w, Bridge(luck)) && (w.stale ==> w.cursor > |w.file| || w.cursor == 0)
    requires luck.readable && luck.driver && luck.connects && luck.tablePresent && luck.commits && luck.saves
    requires !Blank(if w.cursor > |w.file| then w.file else w.file[w.cursor..])
    ensures var w' := BridgeRun(w, luck, env);
      && w'.cursor == |w.file| && !w'.stale && w'.file == w.file
      && Covered(w'.rows, Events(w.file, env), env)
  {
    if w.cursor > |w.file| { assert w.file[0..] == w.file; }
    assert w.file[..0] == "";
    AdvanceCovers(w, luck, env);
  }

  predicate OneRow(rows: seq<Row>, key: string) {
    exists i :: 0 <= i < |rows| && rows[i].key == key && forall j :: 0 <= j < |rows| && rows[j].key == key ==> j == i
  }

  /** Direct writes, appends, rewinds and bridge runs in any order: whenever no INSERT has raised, runs ended
      on line boundaries and no replaced file is being read from its middle, every mappable event before
      the cursor has exactly one row. */
  lemma {:induction false} ExactlyOneRowEach(steps: seq<Step>, env: Env)
    requires OrderlyTrace(steps, env)
    ensures var w := Trace(steps, env);
      !w.stale ==>
        && w.cursor <= |w.file|
        && forall e <- Events(w.file[..w.cursor], env) | BridgeRow(e, env).Some? ::
             OneRow(w.rows, BridgeRow(e, env).value.key)
  {
    OrderlyKeeps(steps, env);
    var w := Trace(steps, env);
    if !w.stale {
      forall e <- Events(w.file[..w.cursor], env) | BridgeRow(e, env).Some?
        ensures OneRow(w.rows, BridgeRow(e, env).value.key)
      {
        assert Stored(w.rows, e, env);
        var i :| 0 <= i < |w.rows| && w.rows[i].key == BridgeRow(e, env).value.key;
      }
    }
  }

  lemma {:induction false} OrderlyKeeps(steps: seq<Step>, env: Env)
    requires OrderlyTrace(steps, env)
    ensures Inv(Trace(steps, env), env)
  {
    if steps == [] {
      assert Events(START.file[..0], env) == [];
    } else {
      OrderlyKeeps(steps[..|steps| - 1], env);
      TakeKeeps(Trace(steps[..|steps| - 1], env), steps[|steps| - 1], env);
    }
  }

  // ----- Replays, order, and what the docstring promises too much -----

  /** Reading stored events again adds nothing, so rewinding the cursor is safe. */
  lemma {:induction false} ReplayAddsNothing(rows: seq<Row>, events: seq<Event>, fates: seq<Fate>, env: Env)
    requires Covered(rows, events, env)
    ensures InsertAll(rows, events, fates, env).rows == rows
  {
    if events != [] {
      var n := |events| - 1;
      assert Covered(rows, events[..n], env);
      assert Stored(rows, events[n], env);
      ReplayAddsNothing(rows, events[..n], fates, env);
    }
  }

  /** A direct write and a bridge run in either order leave the same keys. */
  lemma OrderOfPathsIsIrrelevant(w: World, m: Mapped, ts: real, luck: Luck, env: Env)
    requires NoneRaises(luck.fates)
    ensures forall k ::
      HasKey(Take(Take(w, Direct(m, ts, true), env), Bridge(luck), env).rows, k)
      <==> HasKey(Take(Take(w, Bridge(luck), env), Direct(m, ts, true), env).rows, k)
  {
    var row := DirectRow(m, ts, env);
    var w1, w2 := Take(w, Direct(m, ts, true), env), Take(w, Bridge(luck), env);
    InsertGivesKey(w.rows, row);
    InsertGivesKey(w2.rows, row);
    var events := Events(Chunk(w), env);
    assert Chunk(w1) == Chunk(w) && events[..|events|] == events;
    NothingAborts(w.rows, events, luck.fates, env);
    NothingAborts(w1.rows, events, luck.fates, env);
    forall k
      ensures HasKey(Take(w1, Bridge(luck), env).rows, k) <==> HasKey(Take(w2, Direct(m, ts, true), env).rows, k)
    {
      KeysOfRun(w.rows, events, |events|, luck.fates, env, k);
      KeysOfRun(w1.rows, events, |events|, luck.fates, env, k);
    }
  }

  /** A failed INSERT does not hold the cursor back: the event is passed over, and no further run reads it
      while the file stays as it is. */
  lemma FailedInsertIsPassedOver(env: Env, e: Event, fate: Fate, again: seq<Luck>)
    requires BridgeRow(e, env).Some? && env.parse("x") == [e] && !fate.Runs?
    ensures var w := World("x\n", [], 0, false);
      var w1 := BridgeRun(w, Luck(true, true, true, true, [fate], true, true), env);
      w1.cursor == 2 && w1.rows == [] && Reruns(w1, again, env) == w1
  {
    var w := World("x\n", [], 0, false);
    var luck := Luck(true, true, true, true, [fate], true, true);
    assert Chunk(w) == w.file && Chunk(w)[0] == 'x';
    assert w.file[..1] == "x" && ("x")[..0] == "";
    assert ScanOf("x") == Feed(ScanOf(""), 'x') == Scan([], "x");
    assert ScanOf(w.file) == Feed(ScanOf("x"), '\n');
    assert Lines(w.file) == ["x"];
    assert EventsOf(["x"], env) == env.parse("x") + EventsOf([], env);
    assert Events(w.file, env) == [e];
    assert [e][..0] == [];
    assert InsertAll([], [e], [fate], env) == InsertOne(InsertAll([], [], [fate], env), e, fate, env);
    var w1 := BridgeRun(w, luck, env);
    assert w1 == World(w.file, [], 2, false);
    assert Chunk(w1) == "";
    NothingNewNothingDone(w1, again, env);
  }

  function Reruns(w: World, lucks: seq<Luck>, env: Env): World
    decreases |lucks|
  {
    if lucks == [] then w else Reruns(BridgeRun(w, lucks[0], env), lucks[1..], env)
  }

  lemma {:induction false} NothingNewNothingDone(w: World, lucks: seq<Luck>, env: Env)
    requires Chunk(w) == ""
    ensures Reruns(w, lucks, env) == w
    decreases |lucks|
  {
    if lucks != [] { NothingNewNothingDone(w, lucks[1..], env); }
  }

  /** A run that finds no driver or table, cannot connect or cannot commit leaves table and cursor alone. */
  lemma FailedRunsChangeNothing(w: World, luck: Luck, env: Env)
    requires !luck.readable || !luck.driver || !luck.connects || !luck.tablePresent || !luck.commits
    ensures BridgeRun(w, luck, env) == w
  {
  }
}
