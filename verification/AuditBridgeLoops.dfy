/** The audit table and the stored cursor as the two programs change them. */
module AuditBridgeLoops {
  import opened Options
  import opened AuditBridge

  class AuditStore {
    var file: string
    var rows: seq<Row>
    var cursor: nat
    ghost var stale: bool

    ghost function World(): World
      reads this
    {
      AuditBridge.World(file, rows, cursor, stale)
    }

    constructor ()
      ensures World() == START
    {
      file, rows, cursor, stale := "", [], 0, false;
    }

    /** The watchdog's best-effort write after a restart; any database problem only loses the row. */
    method DirectWrite(m: Mapped, ts: real, available: bool, env: Env) returns (inserted: bool)
      modifies this`rows
      ensures World() == Take(old(World()), Direct(m, ts, available), env)
      ensures inserted == (available && !HasKey(old(rows), DedupKey(m.eventType, ts, env)))
    {
      if !available { return false; }
      var row := DirectRow(m, ts, env);
      inserted := !HasKey(rows, row.key);
      if inserted { rows := rows + [row]; }
    }

    /** The INSERTs of one run, inside its transaction. */
    method InsertEvents(events: seq<Event>, fates: seq<Fate>, env: Env)
      returns (tentative: seq<Row>, aborted: bool, inserted: nat, skipped: nat)
      ensures InsertAll(rows, events, fates, env) == Tx(tentative, aborted, inserted, skipped)
      ensures inserted + skipped == |events|
    {
      tentative, aborted, inserted, skipped := rows, false, 0, 0;
      var i := 0;
      while i < |events|
        invariant 0 <= i <= |events|
        invariant InsertAll(rows, events[..i], fates, env) == Tx(tentative, aborted, inserted, skipped)
        invariant inserted + skipped == i
      {
        assert events[..i + 1][..i] == events[..i];
        var row := BridgeRow(events[i], env);
        if row.None? || aborted || FateAt(fates, i).Raises? {
          skipped := skipped + 1;
        } else if FateAt(fates, i).Aborts? {
          aborted, skipped := true, skipped + 1;
        } else if HasKey(tentative, row.value.key) {
          skipped := skipped + 1;
        } else {
          tentative, inserted := tentative + [row.value], inserted + 1;
        }
        i := i + 1;
      }
      assert events[..i] == events;
    }

    /** One run of the bridge, with its exit code. */
    method TailAndInsert(luck: Luck, env: Env) returns (code: int, inserted: nat, skipped: nat)
      modifies this
      ensures World() == BridgeRun(old(World()), luck, env)
      ensures var works := Works(old(World()), luck);
        inserted + skipped == if works then |Events(Chunk(old(World())), env)| else 0
      ensures code == ExitCode(old(World()), luck)
      ensures code != 0 ==> World() == old(World())
    {
      inserted, skipped := 0, 0;
      if !luck.readable { return 1, 0, 0; }
      var start := if cursor > |file| then 0 else cursor;
      var chunk := file[start..];
      if Blank(chunk) { return 0, 0, 0; }
      if !luck.driver { return 2, 0, 0; }
      if !luck.connects { return 1, 0, 0; }
      if !luck.tablePresent { return if luck.commits then 0 else 1, 0, 0; }
      var tentative, aborted;
      tentative, aborted, inserted, skipped := InsertEvents(Events(chunk, env), luck.fates, env);
      if !luck.commits { return 1, inserted, skipped; }
      if !aborted { rows := tentative; }
      if luck.saves {
        cursor := |file|;
        stale := stale && start > 0;
      }
      code := 0;
    }
  }
}
