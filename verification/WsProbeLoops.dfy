/** The probe as the program runs it: counters updated in place by the nested loops. */
module WsProbeLoops {
  import opened WsProbe

  class ResilientProbe {
    var uptime: real
    ghost var intervals: seq<Interval>
    var attempts: nat
    var successes: nat
    var failures: nat
    var backoffs: seq<int>
    var restarts: nat
    var elapsed: real
    var ratio: Ratio

    ghost function Tally(): Tally
      reads this
    {
      WsProbe.Tally(attempts, successes, failures, backoffs)
    }

    ghost function Stats(): Stats
      reads this
    {
      WsProbe.Stats(uptime, intervals, Tally(), restarts, elapsed, ratio)
    }

    constructor ()
      ensures Stats() == NO_STATS
    {
      uptime, intervals, attempts, successes, failures := 0.0, [], 0, 0, 0;
      backoffs, restarts, elapsed, ratio := [], 0, 0.0, Ratio(0.0, 0.0);
    }

    method EndSegment(connOn: real, now: real)
      modifies this`uptime, this`intervals
      ensures Stats() == WsProbe.EndSegment(old(Stats()), connOn, now)
    {
      uptime := uptime + (now - connOn);
      intervals := intervals + [Interval(connOn, now)];
    }

    /** Up to six attempts, each after its wait. */
    method TryReconnect(t: Turn) returns (end: End)
      modifies this`attempts, this`successes, this`failures, this`backoffs
      ensures var r := WsProbe.TryReconnect(old(Tally()), t, 1); end == r.end && Tally() == r.tally
    {
      var k := 1;
      while true
        invariant 1 <= k <= MAX_ATTEMPTS
        invariant WsProbe.TryReconnect(old(Tally()), t, 1) == WsProbe.TryReconnect(Tally(), t, k)
        decreases MAX_ATTEMPTS - k
      {
        if t.cut.InReconnect? && t.cut.failed == k - 1 {
          if t.cut.counted { NoteAttempt(k); }
          return CutOff(t.cut.at);
        }
        ghost var before := Tally();
        NoteAttempt(k);
        if k - 1 < |t.attempts| && t.attempts[k - 1].Connected? {
          successes := successes + 1;
          assert Tally() == Success(before, k);
          return Up(t.attempts[k - 1].at);
        }
        failures := failures + 1;
        assert Tally() == Refusal(before, k);
        if k >= MAX_ATTEMPTS { return GivenUp; }
        k := k + 1;
      }
    }

    method NoteAttempt(k: nat)
      modifies this`attempts, this`backoffs
      ensures Tally() == Waited(old(Tally()), k)
    {
      attempts := attempts + 1;
      backoffs := backoffs + [BackoffForAttempt(k)];
    }

    /** The handler of an interrupt that hits after the segment was added. */
    method AddAgain(connOn: real, at: real) returns (next: Next)
      modifies this`uptime
      ensures next == Leave(Interrupted) && Stats() == Added(old(Stats()), connOn, at)
    {
      uptime := uptime + (at - connOn);
      return Leave(Interrupted);
    }

    method Drop(link: Link, t: Turn, a: Args) returns (next: Next)
      modifies this`uptime, this`intervals, this`attempts, this`successes, this`failures, this`backoffs
      ensures Shows(WsProbe.Drop(old(Stats()), link, t, a), Stats(), next)
    {
      EndSegment(link.connOn, t.now);
      if t.cut.Closing? {
        next := AddAgain(link.connOn, t.cut.at);
        return;
      }
      if !a.enableReconnect { return Leave(Exhausted); }
      var end := TryReconnect(t);
      match end
      case GivenUp => next := Leave(Exhausted);
      case CutOff(at) => next := AddAgain(link.connOn, at);
      case Up(at) =>
        if t.cut.Reconnected? {
          intervals := intervals + [Interval(at, t.cut.at)];
          next := AddAgain(link.connOn, t.cut.at);
        } else {
          next := Stay(Link(at, at + a.pingInterval, link.nextCheckpoint));
        }
    }

    /** A checkpoint shows the running segment in `uptime` while it is written, then takes it out again;
        `cut` when an interrupt hits in between. */
    method Checkpoint(link: Link, t: Turn, start: real) returns (cut: bool)
      modifies this`uptime, this`intervals, this`elapsed, this`ratio
      ensures cut == t.cut.InCheckpoint?
      ensures var s := Checkpointed(old(Stats()), link, start, t.now);
        Stats() == if cut then WsProbe.EndSegment(Added(s, link.connOn, t.now), link.connOn, t.cut.at) else s
    {
      elapsed := t.now - start;
      var saved := uptime;
      uptime := saved + (t.now - link.connOn);
      ratio := Ratio(uptime, elapsed);
      if t.cut.InCheckpoint? {
        EndSegment(link.connOn, t.cut.at);
        return true;
      }
      uptime := saved;
      return false;
    }

    /** The deadline is reached: the segment is added, then the connection is closed. */
    method Complete(link: Link, t: Turn) returns (next: Next)
      modifies this`uptime, this`intervals
      ensures Shows(WsProbe.Complete(old(Stats()), link, t), Stats(), next)
    {
      if t.cut.Waiting? {
        EndSegment(link.connOn, t.cut.at);
        return Leave(Interrupted);
      }
      EndSegment(link.connOn, t.now);
      if t.cut.Closing? {
        next := AddAgain(link.connOn, t.cut.at);
      } else {
        next := Leave(Completed);
      }
    }

    method TakeTurn(link: Link, t: Turn, start: real, deadline: real, a: Args) returns (next: Next)
      modifies this
      ensures Shows(WsProbe.TakeTurn(old(Stats()), link, t, start, deadline, a), Stats(), next)
    {
      var now := link;
      if t.now >= deadline {
        next := Complete(link, t);
        return;
      }
      if t.now >= link.nextCheckpoint {
        var cut := Checkpoint(link, t, start);
        if cut { return Leave(Interrupted); }
        now := link.(nextCheckpoint := t.now + a.checkpointInterval);
      }
      next := PingAndReceive(now, t, a);
    }

    method PingAndReceive(link: Link, t: Turn, a: Args) returns (next: Next)
      modifies this`uptime, this`intervals, this`attempts, this`successes, this`failures, this`backoffs
      ensures Shows(WsProbe.PingAndReceive(old(Stats()), link, t, a), Stats(), next)
    {
      if t.cut.Waiting? {
        EndSegment(link.connOn, t.cut.at);
        return Leave(Interrupted);
      }
      var now := link;
      if t.now >= link.nextPing {
        if !t.pingOk {
          next := Drop(link, t, a);
          return;
        }
        now := link.(nextPing := t.now + a.pingInterval);
      }
      if t.recv.Broken? {
        DropIgnoresPing(Stats(), link, now, t, a);
        next := Drop(now, t, a);
      } else {
        next := Stay(now);
      }
    }

    method RunSession(sess: Session, seconds: int, a: Args) returns (outcome: Outcome)
      modifies this
      ensures var r := WsProbe.RunSession(old(Stats()), sess, seconds, a); outcome == r.outcome && Stats() == r.stats
    {
      if sess.first.Refused? { return Exhausted; }
      var link := OpenLink(sess, a);
      var deadline := DeadlineOf(sess, seconds);
      var i := 0;
      while i < |sess.turns|
        invariant 0 <= i <= |sess.turns|
        invariant Turns(old(Stats()), OpenLink(sess, a), sess.turns[..i], sess.start, deadline, a) == On(Stats(), link)
      {
        assert sess.turns[..i + 1][..i] == sess.turns[..i];
        var next := TakeTurn(link, sess.turns[i], sess.start, deadline, a);
        if next.Leave? {
          OverStaysOver(old(Stats()), OpenLink(sess, a), sess.turns, i + 1, sess.start, deadline, a);
          return next.outcome;
        }
        link := next.link;
        i := i + 1;
      }
      assert sess.turns[..i] == sess.turns;
      EndSegment(link.connOn, sess.stop);
      return Interrupted;
    }

    method Run(origin: real, sessions: seq<Session>, end: real, a: Args)
      requires Stats() == NO_STATS
      modifies this
      ensures Stats() == Probe(origin, sessions, end, a)
    {
      var i := 0;
      var stopped := false;
      while i < |sessions| && !stopped
        invariant 0 <= i <= |sessions|
        invariant RunSessions(NO_STATS, origin, sessions, a)
               == if stopped then Stats() else RunSessions(Stats(), origin, sessions[i..], a)
        decreases |sessions| - i, !stopped
      {
        assert sessions[i..][0] == sessions[i] && sessions[i..][1..] == sessions[i + 1..];
        var seconds := SecondsLeft(origin, sessions[i], a);
        if seconds.None? {
          stopped := true;
        } else {
          var outcome := RunSession(sessions[i], seconds.value, a);
          if outcome == Exhausted {
            restarts := restarts + 1;
            if restarts > a.maxRestart { stopped := true; } else { i := i + 1; }
          } else {
            stopped := true;
          }
        }
      }
      elapsed := end - origin;
      ratio := Ratio(uptime, elapsed);
    }
  }

  /** What a turn tells the session loop. */
  datatype Next = Stay(link: Link) | Leave(outcome: Outcome)

  ghost predicate Shows(r: Progress, s: Stats, next: Next) {
    && r.stats == s
    && match next
       case Stay(link) => r == On(s, link)
       case Leave(outcome) => r.Over? && r.outcome == outcome
  }

  /** The next ping plays no part once the connection is lost. */
  lemma DropIgnoresPing(s: Stats, link: Link, now: Link, t: Turn, a: Args)
    requires link.connOn == now.connOn && link.nextCheckpoint == now.nextCheckpoint
    ensures WsProbe.Drop(s, link, t, a) == WsProbe.Drop(s, now, t, a)
  {
  }

  lemma {:induction false} OverStaysOver(s: Stats, link: Link, turns: seq<Turn>, n: nat, start: real, deadline: real,
                                         a: Args)
    requires n <= |turns| && Turns(s, link, turns[..n], start, deadline, a).Over?
    ensures Turns(s, link, turns, start, deadline, a) == Turns(s, link, turns[..n], start, deadline, a)
    decreases |turns|
  {
    if n < |turns| {
      assert turns[..|turns| - 1][..n] == turns[..n];
      OverStaysOver(s, link, turns[..|turns| - 1], n, start, deadline, a);
    } else {
      assert turns[..n] == turns;
    }
  }
}
