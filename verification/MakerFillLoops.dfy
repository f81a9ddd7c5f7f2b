/** The simulation as the program runs it: scans over samples and a growing list of results. */
module MakerFillLoops {
  import opened Options
  import opened MakerPrice
  import opened MakerFill

  method BboAtOrBefore(samples: seq<Sample>, ts: int) returns (best: Option<Sample>)
    ensures best == LatestAt(samples, (s: Sample) => s.ts, ts)
  {
    best := None;
    var i := 0;
    while i < |samples|
      invariant 0 <= i <= |samples|
      invariant best == LatestAt(samples[..i], (s: Sample) => s.ts, ts)
    {
      assert samples[..i + 1][..i] == samples[..i];
      if samples[i].ts <= ts && (best.None? || samples[i].ts > best.value.ts) { best := Some(samples[i]); }
      i := i + 1;
    }
    assert samples[..i] == samples;
  }

  /** The replay loop: stops at the first sample that crosses. */
  method ReplayFill(samples: seq<Sample>, sell: bool, limit: real, start: int, end: int) returns (fill: Option<Fill>)
    ensures fill == FirstCross(samples, sell, limit, start, end)
    ensures fill.Some? <==>
      exists i :: 0 <= i < |samples| && InReplay(samples[i], start, end) && Crosses(samples[i], sell, limit)
  {
    FillExactly(samples, sell, limit, start, end);
    var i := 0;
    while i < |samples|
      invariant 0 <= i <= |samples|
      invariant FirstCross(samples, sell, limit, start, end) == FirstCross(samples[i..], sell, limit, start, end)
    {
      var s := samples[i];
      if start <= s.ts <= end {
        if sell {
          if s.bid >= limit - TOLERANCE { return Some(Fill(limit, s.ts)); }
        } else {
          if s.ask <= limit + TOLERANCE { return Some(Fill(limit, s.ts)); }
        }
      }
      i := i + 1;
    }
    fill := None;
  }

  method SimulateCellAgainstFill(cell: Cell, seed: Seed, w: Window, tick: real, depth: Option<seq<Depth>>, u: Tuning)
    returns (r: Result)
    ensures r == SimulateFill(cell, seed, w, tick, depth, u)
  {
    if seed.reason !in cell.allowed { return Skipped(FamilyMismatch); }
    var bbo := BboAtOrBefore(w.before + w.replay, seed.ts);
    if bbo.None? { return Skipped(NoBbo); }
    var limit := LimitOf(cell, seed, bbo.value, tick);
    if limit.None? { return Skipped(SkipReason(bbo.value, tick, cell.guardBps)); }
    var fill := ReplayFill(w.replay, seed.sell, limit.value, seed.ts, seed.ts + cell.timeoutMs * 1000);
    var factor := SeedFactor(seed, depth);
    var proxy := if fill.Some? then 1.0 else 0.0;
    r := Result(Eligible, limit, fill, factor, ApplyQueueAdjustment(proxy, factor, u.weight, u.rejection));
  }

  method SimulateCell(cell: Cell, seeds: seq<Seed>, d: Data, u: Tuning) returns (o: Outcome)
    ensures o == MakerFill.SimulateCell(cell, seeds, d, u)
    ensures o.attempts == o.eligible + o.spreadGuard + o.noBbo + o.tickMissing + o.familyMismatch + o.crossedBook
    ensures 0.0 <= o.adjustedRate <= o.fillRate <= 1.0
  {
    var results: seq<Result> := [];
    var i := 0;
    while i < |seeds|
      invariant 0 <= i <= |seeds| && results == SimulateAll(cell, seeds[..i], d, u)
    {
      assert seeds[..i + 1][..i] == seeds[..i];
      var seed := seeds[i];
      var r: Result;
      if seed.order !in d.windows {
        r := Skipped(NoBbo);
      } else if seed.symbol !in d.tickSizes {
        r := Skipped(TickMissing);
      } else {
        var depth := if seed.order in d.depths then Some(d.depths[seed.order]) else None;
        r := SimulateCellAgainstFill(cell, seed, d.windows[seed.order], d.tickSizes[seed.symbol], depth, u);
      }
      results := results + [r];
      i := i + 1;
    }
    assert seeds[..i] == seeds;
    OutcomeAddsUp(cell, seeds, d, u);
    o := Summarise(results);
  }
}
