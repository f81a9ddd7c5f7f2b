/** The resilient websocket probe: sessions with reconnects inside a restart loop, the uptime it
    reports, and the verdict. Clock readings, connection attempts and interrupts are inputs. */
module WsProbe {
  import opened Options
  import opened RealArithmetic

  const MAX_ATTEMPTS := 6
  const BACKOFF_CAP := 60

  function BackoffForAttempt(attempt: int): int {
    match attempt
    case 1 => 1 case 2 => 2 case 3 => 4 case 4 => 8 case 5 => 16 case 6 => 32
    case _ => if attempt < 1 then 0 else BACKOFF_CAP
  }

  datatype Args = Args(duration: int, pingInterval: real, checkpointInterval: real, enableReconnect: bool,
                       maxRestart: int, minDuration: real, minRatio: real)

  // ----- What happens to the probe -----

  datatype Recv = TimedOut | Message | Broken
  /** One connection attempt: it failed, or the connection was up at the given time. */
  datatype Attempt = Refused | Connected(at: real)

  /** Where a KeyboardInterrupt hits the turn: with the segment still open (`Waiting`), while a checkpoint is
      written, while a connection whose segment was already added is closed, at a reconnect after `failed`
      refusals, or between the success of a reconnect and its use. */
  datatype Cut = NoCut | Waiting(at: real) | InCheckpoint(at: real) | Closing(at: real)
    | InReconnect(at: real, failed: nat, counted: bool) | Reconnected(at: real)

  /** One turn of the session loop. Attempts that are not listed are refused; `gaveUp` is the time
      after the last of them. A cut whose place the turn does not reach does not happen. */
  datatype Turn = Turn(now: real, pingOk: bool, recv: Recv, attempts: seq<Attempt>, gaveUp: real, cut: Cut)

  /** One session: when it starts, its first connection, its turns, and the interrupt that ends a
      session whose turns run out. */
  datatype Session = Session(start: real, first: Attempt, turns: seq<Turn>, stop: real)

  // ----- State -----

  /** Reconnect attempts, how they ended, and the waits before them. */
  datatype Tally = Tally(attempts: nat, successes: nat, failures: nat, backoffs: seq<int>)

  /** A stretch of time during which one connection was up. */
  datatype Interval = Interval(from: real, to: real)

  /** `intervals` records the connections; the code keeps only `uptime`. */
  datatype Stats = Stats(uptime: real, intervals: seq<Interval>, tally: Tally, restarts: nat, elapsed: real,
                         ratio: Ratio)

  /** A quotient, 0 when there is nothing to divide by. */
  datatype Ratio = Ratio(part: real, whole: real) {
    function Value(): real { if whole > 0.0 then part / whole else 0.0 }
  }

  datatype Link = Link(connOn: real, nextPing: real, nextCheckpoint: real)
  datatype Outcome = Completed | Exhausted | Interrupted
  datatype Progress = On(stats: Stats, link: Link) | Over(stats: Stats, outcome: Outcome, at: real)

  const NO_STATS := Stats(0.0, [], Tally(0, 0, 0, []), 0, 0.0, Ratio(0.0, 0.0))

  /** The code adds a segment to the uptime. */
  function Added(s: Stats, connOn: real, now: real): Stats { s.(uptime := s.uptime + (now - connOn)) }

  /** A connection was up. */
  function Recorded(s: Stats, from: real, to: real): Stats { s.(intervals := s.intervals + [Interval(from, to)]) }

  /** The connection up since `connOn` is lost or let go at `now`, and the code adds it. */
  function EndSegment(s: Stats, connOn: real, now: real): Stats { Added(Recorded(s, connOn, now), connOn, now) }

  /** How a reconnect ends. */
  datatype End = Up(at: real) | GivenUp | CutOff(at: real)
  datatype Reconnect = Reconnect(tally: Tally, end: End)

  function Waited(y: Tally, k: nat): Tally {
    y.(attempts := y.attempts + 1, backoffs := y.backoffs + [BackoffForAttempt(k)])
  }

  function Refusal(y: Tally, k: nat): Tally {
    Waited(y, k).(failures := y.failures + 1)
  }

  function Success(y: Tally, k: nat): Tally {
    Waited(y, k).(successes := y.successes + 1)
  }

  predicate Accepts(t: Turn, k: nat)
    requires k >= 1
  {
    k - 1 < |t.attempts| && t.attempts[k - 1].Connected?
  }

  /** `_try_reconnect` from its k-th attempt on. */
  function TryReconnect(y: Tally, t: Turn, k: nat): Reconnect
    requires 1 <= k <= MAX_ATTEMPTS
    decreases MAX_ATTEMPTS - k
  {
    if t.cut.InReconnect? && t.cut.failed == k - 1 then
      Reconnect(if t.cut.counted then Waited(y, k) else y, CutOff(t.cut.at))
    else if Accepts(t, k) then Reconnect(Success(y, k), Up(t.attempts[k - 1].at))
    else if k >= MAX_ATTEMPTS then Reconnect(Refusal(y, k), GivenUp)
    else TryReconnect(Refusal(y, k), t, k + 1)
  }

  /** After a reconnect: a success that is cut before its use is handled by the session, which adds the time
      since the old `connOn`. */
  function Resume(s: Stats, link: Link, t: Turn, end: End, a: Args): Progress {
    match end
    case Up(at) =>
      if t.cut.Reconnected? then Over(Added(Recorded(s, at, t.cut.at), link.connOn, t.cut.at), Interrupted, t.cut.at)
      else On(s, Link(at, at + a.pingInterval, link.nextCheckpoint))
    case GivenUp => Over(s, Exhausted, t.gaveUp)
    case CutOff(at) => Over(Added(s, link.connOn, at), Interrupted, at)
  }

  /** The connection is lost: its segment is added, it is closed, and reconnected. An interrupt from here on is
      handled by the session, which adds the time since `connOn` again. */
  function Drop(s: Stats, link: Link, t: Turn, a: Args): Progress {
    var s1 := EndSegment(s, link.connOn, t.now);
    if t.cut.Closing? then Over(Added(s1, link.connOn, t.cut.at), Interrupted, t.cut.at)
    else if !a.enableReconnect then Over(s1, Exhausted, t.now)
    else
      var r := TryReconnect(s1.tally, t, 1);
      Resume(s1.(tally := r.tally), link, t, r.end, a)
  }

  /** What a checkpoint leaves behind: fresh elapsed time and ratio, and the old uptime. */
  function Checkpointed(s: Stats, link: Link, start: real, now: real): Stats {
    s.(elapsed := now - start, ratio := Ratio(s.uptime + (now - link.connOn), now - start))
  }

  /** The ping fails, or the receive does. */
  predicate Loses(link: Link, t: Turn) { (t.now >= link.nextPing && !t.pingOk) || t.recv.Broken? }

  /** The rest of a turn: the ping when due, then one receive. */
  function PingAndReceive(s: Stats, link: Link, t: Turn, a: Args): Progress {
    if t.cut.Waiting? then Over(EndSegment(s, link.connOn, t.cut.at), Interrupted, t.cut.at)
    else if Loses(link, t) then Drop(s, link, t, a)
    else On(s, if t.now >= link.nextPing then link.(nextPing := t.now + a.pingInterval) else link)
  }

  /** The deadline is reached: the segment is added and the connection closed. */
  function Complete(s: Stats, link: Link, t: Turn): Progress {
    if t.cut.Waiting? then Over(EndSegment(s, link.connOn, t.cut.at), Interrupted, t.cut.at)
    else
      var s1 := EndSegment(s, link.connOn, t.now);
      if t.cut.Closing? then Over(Added(s1, link.connOn, t.cut.at), Interrupted, t.cut.at)
      else Over(s1, Completed, t.now)
  }

  function TakeTurn(s: Stats, link: Link, t: Turn, start: real, deadline: real, a: Args): Progress {
    if t.now >= deadline then Complete(s, link, t)
    else if t.now < link.nextCheckpoint then PingAndReceive(s, link, t, a)
    else if t.cut.InCheckpoint? then
      // The temporary uptime was not restored when the handler adds the segment.
      var s1 := Added(Checkpointed(s, link, start, t.now), link.connOn, t.now);
      Over(EndSegment(s1, link.connOn, t.cut.at), Interrupted, t.cut.at)
    else
      PingAndReceive(Checkpointed(s, link, start, t.now), link.(nextCheckpoint := t.now + a.checkpointInterval), t, a)
  }

  function Turns(s: Stats, link: Link, turns: seq<Turn>, sessionStart: real, deadline: real, a: Args): Progress {
    if turns == [] then On(s, link)
    else
      match Turns(s, link, turns[..|turns| - 1], sessionStart, deadline, a)
      case Over(s', o, at) => Over(s', o, at)
      case On(s', link') => TakeTurn(s', link', turns[|turns| - 1], sessionStart, deadline, a)
  }

  function OpenLink(sess: Session, a: Args): Link
    requires sess.first.Connected?
  {
    Link(sess.first.at, sess.first.at + a.pingInterval, sess.start + a.checkpointInterval)
  }

  function DeadlineOf(sess: Session, seconds: int): real { sess.start + seconds as real }

  function RunSession(s: Stats, sess: Session, seconds: int, a: Args): (r: Progress)
    ensures r.Over?
  {
    if sess.first.Refused? then Over(s, Exhausted, sess.start)
    else
      match Turns(s, OpenLink(sess, a), sess.turns, sess.start, DeadlineOf(sess, seconds), a)
      case Over(s', o, at) => Over(s', o, at)
      case On(s', link') => Over(EndSegment(s', link'.connOn, sess.stop), Interrupted, sess.stop)
  }

  /** What is left of the target when a session starts, in whole seconds; no session starts without any. */
  function SecondsLeft(origin: real, sess: Session, a: Args): Option<int> {
    var remaining := a.duration as real - (sess.start - origin);
    if remaining <= 0.0 then None else Some(remaining.Floor)
  }

  /** The statistics with which the next session starts, if there is to be one. */
  function Restarted(r: Progress, a: Args): Option<Stats> {
    if r.Over? && r.outcome.Exhausted? && r.stats.restarts + 1 <= a.maxRestart
    then Some(r.stats.(restarts := r.stats.restarts + 1)) else None
  }

  /** The restart loop. A run whose listed sessions are used up stops there. */
  function RunSessions(s: Stats, origin: real, sessions: seq<Session>, a: Args): Stats
    decreases |sessions|
  {
    if sessions == [] || SecondsLeft(origin, sessions[0], a).None? then s
    else
      var r := RunSession(s, sessions[0], SecondsLeft(origin, sessions[0], a).value, a);
      match Restarted(r, a)
      case Some(s1) => RunSessions(s1, origin, sessions[1..], a)
      case None => if r.outcome.Exhausted? then r.stats.(restarts := r.stats.restarts + 1) else r.stats
  }

  function Finish(s: Stats, origin: real, end: real): Stats {
    s.(elapsed := end - origin, ratio := Ratio(s.uptime, end - origin))
  }

  function Probe(origin: real, sessions: seq<Session>, end: real, a: Args): Stats {
    Finish(RunSessions(NO_STATS, origin, sessions, a), origin, end)
  }

  // ----- A clock that never goes back -----

  predicate AttemptsWithin(attempts: seq<Attempt>, from: real, to: real) {
    forall k :: 0 <= k < |attempts| && attempts[k].Connected? ==> from <= attempts[k].at <= to
  }

  predicate Ordered(t: Turn, from: real) {
    && from <= t.now <= t.gaveUp
    && AttemptsWithin(t.attempts, t.now, if t.cut.Reconnected? then t.cut.at else t.gaveUp)
    && (t.cut.NoCut? || t.now <= t.cut.at <= t.gaveUp)
  }

  /** When the k-th turn of a session may begin. */
  function TurnFrom(sess: Session, k: nat): real
    requires k <= |sess.turns|
  {
    if k > 0 then sess.turns[k - 1].gaveUp else if sess.first.Connected? then sess.first.at else sess.start
  }

  predicate OrderedSession(sess: Session, from: real, to: real) {
    && from <= sess.start <= TurnFrom(sess, 0) <= sess.stop <= to
    && TurnFrom(sess, |sess.turns|) <= sess.stop
    && forall k :: 0 <= k < |sess.turns| ==> Ordered(sess.turns[k], TurnFrom(sess, k))
  }

  predicate OrderedRun(origin: real, sessions: seq<Session>, end: real)
    decreases |sessions|
  {
    if sessions == [] then origin <= end
    else OrderedSession(sessions[0], origin, end) && OrderedRun(sessions[0].stop, sessions[1..], end)
  }

  // ----- Time online -----

  /** The time during which some connection was up. */
  function Online(intervals: seq<Interval>): real {
    if intervals == [] then 0.0
    else
      var n := |intervals| - 1;
      Online(intervals[..n]) + (intervals[n].to - intervals[n].from)
  }

  /** The intervals follow each other between two times. */
  predicate Successive(intervals: seq<Interval>, origin: real, end: real) {
    if intervals == [] then origin <= end
    else
      var n := |intervals| - 1;
      Successive(intervals[..n], origin, intervals[n].from) && intervals[n].from <= intervals[n].to <= end
  }

  lemma {:induction false} SuccessiveFits(intervals: seq<Interval>, origin: real, end: real)
    requires Successive(intervals, origin, end)
    ensures 0.0 <= Online(intervals) <= end - origin
  {
    if intervals != [] {
      var n := |intervals| - 1;
      SuccessiveFits(intervals[..n], origin, intervals[n].from);
    }
  }

  /** Successive intervals are disjoint. */
  lemma {:induction false} SuccessiveAreDisjoint(intervals: seq<Interval>, origin: real, end: real, i: nat, j: nat)
    requires Successive(intervals, origin, end) && i < j < |intervals|
    ensures origin <= intervals[i].from <= intervals[i].to <= intervals[j].from <= intervals[j].to <= end
  {
    var n := |intervals| - 1;
    var init := intervals[..n];
    if j < n {
      SuccessiveAreDisjoint(init, origin, intervals[n].from, i, j);
    } else {
      WithinBounds(init, origin, intervals[n].from, i);
    }
  }

  lemma {:induction false} WithinBounds(intervals: seq<Interval>, origin: real, end: real, i: nat)
    requires Successive(intervals, origin, end) && i < |intervals|
    ensures origin <= intervals[i].from <= intervals[i].to <= end
  {
    var n := |intervals| - 1;
    SuccessiveStarts(intervals[..n], origin, intervals[n].from);
    if i < n { WithinBounds(intervals[..n], origin, intervals[n].from, i); }
  }

  lemma {:induction false} SuccessiveStarts(intervals: seq<Interval>, origin: real, end: real)
    requires Successive(intervals, origin, end)
    ensures origin <= end
  {
    if intervals != [] {
      var n := |intervals| - 1;
      SuccessiveStarts(intervals[..n], origin, intervals[n].from);
    }
  }

  lemma SuccessiveLater(intervals: seq<Interval>, origin: real, end: real, later: real)
    requires Successive(intervals, origin, end) && end <= later
    ensures Successive(intervals, origin, later)
  {
  }

  lemma RecordedFollows(s: Stats, from: real, to: real, origin: real)
    requires Successive(s.intervals, origin, from) && from <= to
    ensures Successive(Recorded(s, from, to).intervals, origin, to)
    ensures Online(Recorded(s, from, to).intervals) == Online(s.intervals) + (to - from)
  {
    var r := Recorded(s, from, to).intervals;
    assert r[..|r| - 1] == s.intervals;
  }

  /** The connections of a step fit the clock: so far, and up to the one that is still up. */
  ghost predicate Fits(r: Progress, origin: real, latest: real) {
    match r
    case On(s, link) => Successive(s.intervals, origin, link.connOn) && link.connOn <= latest
    case Over(s, _, at) => Successive(s.intervals, origin, at) && at <= latest
  }

  /** A reconnect ends in the time its turn allows. */
  lemma {:induction false} ReconnectInTime(y: Tally, t: Turn, k: nat, from: real)
    requires 1 <= k <= MAX_ATTEMPTS && Ordered(t, from)
    ensures var e := TryReconnect(y, t, k).end;
      !e.GivenUp? ==> t.now <= e.at <= t.gaveUp && (e.Up? && t.cut.Reconnected? ==> e.at <= t.cut.at)
    decreases MAX_ATTEMPTS - k
  {
    if k < MAX_ATTEMPTS { ReconnectInTime(Refusal(y, k), t, k + 1, from); }
  }

  lemma DropFits(s: Stats, link: Link, t: Turn, a: Args, origin: real)
    requires Successive(s.intervals, origin, link.connOn) && Ordered(t, link.connOn)
    ensures Fits(Drop(s, link, t, a), origin, t.gaveUp)
  {
    RecordedFollows(s, link.connOn, t.now, origin);
    var s1 := EndSegment(s, link.connOn, t.now);
    if t.cut.Closing? {
      SuccessiveLater(s1.intervals, origin, t.now, t.cut.at);
    } else if a.enableReconnect {
      ReconnectInTime(s1.tally, t, 1, link.connOn);
      ResumeFits(s1, link, t, TryReconnect(s1.tally, t, 1), a, origin);
    }
  }

  lemma ResumeFits(s: Stats, link: Link, t: Turn, r: Reconnect, a: Args, origin: real)
    requires Successive(s.intervals, origin, t.now) && Ordered(t, link.connOn)
    requires !r.end.GivenUp? ==> t.now <= r.end.at <= t.gaveUp
    requires r.end.Up? && t.cut.Reconnected? ==> r.end.at <= t.cut.at
    ensures Fits(Resume(s.(tally := r.tally), link, t, r.end, a), origin, t.gaveUp)
  {
    match r.end
    case Up(at) =>
      SuccessiveLater(s.intervals, origin, t.now, at);
      if t.cut.Reconnected? { RecordedFollows(s.(tally := r.tally), at, t.cut.at, origin); }
    case GivenUp => SuccessiveLater(s.intervals, origin, t.now, t.gaveUp);
    case CutOff(at) => SuccessiveLater(s.intervals, origin, t.now, at);
  }

  lemma ReceiveFits(s: Stats, link: Link, t: Turn, a: Args, origin: real)
    requires Successive(s.intervals, origin, link.connOn) && Ordered(t, link.connOn)
    ensures Fits(PingAndReceive(s, link, t, a), origin, t.gaveUp)
  {
    if t.cut.Waiting? {
      RecordedFollows(s, link.connOn, t.cut.at, origin);
    } else if Loses(link, t) {
      DropFits(s, link, t, a, origin);
    }
  }

  lemma CompleteFits(s: Stats, link: Link, t: Turn, origin: real)
    requires Successive(s.intervals, origin, link.connOn) && Ordered(t, link.connOn)
    ensures Fits(Complete(s, link, t), origin, t.gaveUp)
  {
    if t.cut.Waiting? {
      RecordedFollows(s, link.connOn, t.cut.at, origin);
    } else {
      RecordedFollows(s, link.connOn, t.now, origin);
      if t.cut.Closing? {
        SuccessiveLater(EndSegment(s, link.connOn, t.now).intervals, origin, t.now, t.cut.at);
      }
    }
  }

  lemma TurnFits(s: Stats, link: Link, t: Turn, start: real, deadline: real, a: Args, origin: real)
    requires Successive(s.intervals, origin, link.connOn) && Ordered(t, link.connOn)
    ensures Fits(TakeTurn(s, link, t, start, deadline, a), origin, t.gaveUp)
  {
    if t.now >= deadline {
      CompleteFits(s, link, t, origin);
    } else if t.now < link.nextCheckpoint {
      ReceiveFits(s, link, t, a, origin);
    } else if t.cut.InCheckpoint? {
      RecordedFollows(Added(Checkpointed(s, link, start, t.now), link.connOn, t.now), link.connOn, t.cut.at, origin);
    } else {
      var link' := link.(nextCheckpoint := t.now + a.checkpointInterval);
      ReceiveFits(Checkpointed(s, link, start, t.now), link', t, a, origin);
    }
  }

  lemma {:induction false} TurnsFit(s: Stats, sess: Session, n: nat, deadline: real, a: Args, origin: real, end: real)
    requires n <= |sess.turns| && sess.first.Connected? && OrderedSession(sess, origin, end)
    requires Successive(s.intervals, origin, sess.first.at)
    ensures var r := Turns(s, OpenLink(sess, a), sess.turns[..n], sess.start, deadline, a);
      Fits(r, origin, if r.On? then TurnFrom(sess, n) else sess.stop)
  {
    if n > 0 {
      TurnsFit(s, sess, n - 1, deadline, a, origin, end);
      assert sess.turns[..n][..n - 1] == sess.turns[..n - 1];
      GaveUpBeforeStop(sess, n - 1, origin, end);
      var r := Turns(s, OpenLink(sess, a), sess.turns[..n - 1], sess.start, deadline, a);
      if r.On? {
        assert Ordered(sess.turns[n - 1], TurnFrom(sess, n - 1));
        TurnFits(r.stats, r.link, sess.turns[n - 1], sess.start, deadline, a, origin);
      }
    }
  }

  lemma {:induction false} GaveUpBeforeStop(sess: Session, k: nat, from: real, to: real)
    requires k < |sess.turns| && OrderedSession(sess, from, to)
    ensures sess.turns[k].gaveUp <= sess.stop
    decreases |sess.turns| - k
  {
    if k + 1 < |sess.turns| {
      GaveUpBeforeStop(sess, k + 1, from, to);
      assert Ordered(sess.turns[k + 1], TurnFrom(sess, k + 1));
    }
  }

  lemma SessionFits(s: Stats, sess: Session, seconds: int, a: Args, origin: real, from: real, end: real)
    requires origin <= from && OrderedSession(sess, from, end) && Successive(s.intervals, origin, from)
    ensures Successive(RunSession(s, sess, seconds, a).stats.intervals, origin, sess.stop)
  {
    if sess.first.Refused? {
      SuccessiveLater(s.intervals, origin, from, sess.stop);
    } else {
      SuccessiveLater(s.intervals, origin, from, sess.first.at);
      assert OrderedSession(sess, origin, end);
      TurnsFit(s, sess, |sess.turns|, DeadlineOf(sess, seconds), a, origin, end);
      assert sess.turns[..|sess.turns|] == sess.turns;
      var r := Turns(s, OpenLink(sess, a), sess.turns, sess.start, DeadlineOf(sess, seconds), a);
      match r
      case On(s', link') => RecordedFollows(s', link'.connOn, sess.stop, origin);
      case Over(s', _, at) => SuccessiveLater(s'.intervals, origin, at, sess.stop);
    }
  }

  /** What the restart loop does with one session. */
  lemma SessionThenRest(s: Stats, origin: real, sessions: seq<Session>, a: Args)
    requires sessions != [] && SecondsLeft(origin, sessions[0], a).Some?
    ensures var r := RunSession(s, sessions[0], SecondsLeft(origin, sessions[0], a).value, a);
      RunSessions(s, origin, sessions, a).intervals ==
        match Restarted(r, a)
        case Some(s1) => RunSessions(s1, origin, sessions[1..], a).intervals
        case None => r.stats.intervals
    ensures var r := RunSession(s, sessions[0], SecondsLeft(origin, sessions[0], a).value, a);
      Restarted(r, a).Some? ==> Restarted(r, a).value.intervals == r.stats.intervals
  {
  }

  lemma {:induction false} SessionsFit(s: Stats, origin: real, from: real, sessions: seq<Session>, end: real, a: Args)
    requires origin <= from && OrderedRun(from, sessions, end) && Successive(s.intervals, origin, from)
    ensures Successive(RunSessions(s, origin, sessions, a).intervals, origin, end)
    decreases |sessions|
  {
    if sessions == [] || SecondsLeft(origin, sessions[0], a).None? {
      OrderedRunEnds(from, sessions, end);
      SuccessiveLater(s.intervals, origin, from, end);
    } else {
      var seconds := SecondsLeft(origin, sessions[0], a).value;
      SessionFits(s, sessions[0], seconds, a, origin, from, end);
      SessionThenRest(s, origin, sessions, a);
      var r := RunSession(s, sessions[0], seconds, a);
      var next := Restarted(r, a);
      if next.Some? {
        SessionsFit(next.value, origin, sessions[0].stop, sessions[1..], end, a);
      } else {
        SuccessiveLater(r.stats.intervals, origin, sessions[0].stop, end);
      }
    }
  }

  lemma {:induction false} OrderedRunEnds(from: real, sessions: seq<Session>, end: real)
    requires OrderedRun(from, sessions, end)
    ensures from <= end
    decreases |sessions|
  {
  }

  // ----- What is counted twice -----

  /** When a reconnect of the turn succeeds, from the k-th attempt on. */
  function FirstUp(t: Turn, k: nat): Option<real>
    requires k >= 1
    decreases MAX_ATTEMPTS - k
  {
    if k > MAX_ATTEMPTS then None
    else if Accepts(t, k) then Some(t.attempts[k - 1].at)
    else FirstUp(t, k + 1)
  }

  predicate AllRefused(t: Turn, from: nat, to: nat)
    requires from >= 1
  {
    forall k :: from <= k <= to ==> !Accepts(t, k)
  }

  /** The segment a turn counts twice, read off the turn, the connection and the options alone: an interrupt
      while the lost or finished connection is closed, or in the reconnect after it, adds again everything
      since it was opened (a success not yet used, everything up to that success); one inside a due
      checkpoint adds the segment up to the checkpoint again. */
  function CountedTwice(link: Link, t: Turn, deadline: real, a: Args): real {
    if t.now >= deadline then if t.cut.Closing? then t.cut.at - link.connOn else 0.0
    else if t.cut.InCheckpoint? then if t.now >= link.nextCheckpoint then t.now - link.connOn else 0.0
    else if Loses(link, t) then TwiceOnLoss(link.connOn, t, a)
    else 0.0
  }

  /** The part of it that a lost connection can cost. */
  function TwiceOnLoss(connOn: real, t: Turn, a: Args): real {
    if t.cut.Closing? then t.cut.at - connOn
    else if !a.enableReconnect then 0.0
    else if t.cut.InReconnect? then
      if t.cut.failed < MAX_ATTEMPTS && AllRefused(t, 1, t.cut.failed) then t.cut.at - connOn else 0.0
    else if t.cut.Reconnected? && FirstUp(t, 1).Some? then FirstUp(t, 1).value - connOn
    else 0.0
  }

  /** How far the reported uptime is above the time online. */
  function Excess(s: Stats): real { s.uptime - Online(s.intervals) }

  lemma ExcessOfEnd(s: Stats, connOn: real, now: real)
    ensures Excess(EndSegment(s, connOn, now)) == Excess(s)
    ensures Excess(Recorded(s, connOn, now)) == Excess(s) - (now - connOn)
  {
    var r := Recorded(s, connOn, now).intervals;
    assert r[..|r| - 1] == s.intervals;
  }

  lemma {:induction false} ReconnectEnds(y: Tally, t: Turn, k: nat)
    requires 1 <= k <= MAX_ATTEMPTS
    ensures var e := TryReconnect(y, t, k).end;
      && (e.CutOff? ==> t.cut.InReconnect? && e.at == t.cut.at)
      && (t.cut.InReconnect? && k - 1 <= t.cut.failed ==>
            (e.CutOff? <==> t.cut.failed < MAX_ATTEMPTS && AllRefused(t, k, t.cut.failed)))
      && (!t.cut.InReconnect? ==> (e.Up? <==> FirstUp(t, k).Some?) && (e.Up? ==> e.at == FirstUp(t, k).value))
    decreases MAX_ATTEMPTS - k
  {
    if t.cut.InReconnect? && t.cut.failed == k - 1 {
    } else if Accepts(t, k) {
    } else if k < MAX_ATTEMPTS {
      ReconnectEnds(Refusal(y, k), t, k + 1);
    }
  }

  lemma DropCounts(s: Stats, link: Link, t: Turn, a: Args)
    requires !t.cut.Waiting? && !t.cut.InCheckpoint?
    ensures Excess(Drop(s, link, t, a).stats) == Excess(s) + TwiceOnLoss(link.connOn, t, a)
  {
    ExcessOfEnd(s, link.connOn, t.now);
    if !t.cut.Closing? && a.enableReconnect {
      var s1 := EndSegment(s, link.connOn, t.now);
      ReconnectEnds(s1.tally, t, 1);
      var r := TryReconnect(s1.tally, t, 1);
      var s2 := s1.(tally := r.tally);
      if r.end.Up? { ExcessOfEnd(s2, r.end.at, if t.cut.Reconnected? then t.cut.at else r.end.at); }
    }
  }

  lemma DropInCheckpoint(s: Stats, link: Link, t: Turn, a: Args)
    requires t.cut.InCheckpoint?
    ensures Excess(Drop(s, link, t, a).stats) == Excess(s)
  {
    ExcessOfEnd(s, link.connOn, t.now);
    ReconnectEnds(s.tally, t, 1);
  }

  lemma ReceiveCounts(s: Stats, link: Link, t: Turn, deadline: real, a: Args)
    requires t.now < deadline && (t.cut.InCheckpoint? ==> t.now < link.nextCheckpoint)
    ensures Excess(PingAndReceive(s, link, t, a).stats) == Excess(s) + CountedTwice(link, t, deadline, a)
  {
    if t.cut.Waiting? {
      ExcessOfEnd(s, link.connOn, t.cut.at);
    } else if Loses(link, t) {
      if t.cut.InCheckpoint? { DropInCheckpoint(s, link, t, a); } else { DropCounts(s, link, t, a); }
    }
  }

  lemma CompleteCounts(s: Stats, link: Link, t: Turn, deadline: real, a: Args)
    requires t.now >= deadline
    ensures Excess(Complete(s, link, t).stats) == Excess(s) + CountedTwice(link, t, deadline, a)
  {
    if t.cut.Waiting? { ExcessOfEnd(s, link.connOn, t.cut.at); } else { ExcessOfEnd(s, link.connOn, t.now); }
  }

  lemma CheckpointCounts(s: Stats, link: Link, t: Turn, start: real, deadline: real, a: Args)
    requires t.cut.InCheckpoint? && link.nextCheckpoint <= t.now < deadline
    ensures Excess(TakeTurn(s, link, t, start, deadline, a).stats) == Excess(s) + CountedTwice(link, t, deadline, a)
  {
    ExcessOfEnd(Added(Checkpointed(s, link, start, t.now), link.connOn, t.now), link.connOn, t.cut.at);
  }

  lemma DueCounts(s: Stats, link: Link, t: Turn, start: real, deadline: real, a: Args)
    requires !t.cut.InCheckpoint? && t.now < deadline
    ensures var s1 := Checkpointed(s, link, start, t.now);
      var link' := link.(nextCheckpoint := t.now + a.checkpointInterval);
      Excess(PingAndReceive(s1, link', t, a).stats) == Excess(s) + CountedTwice(link, t, deadline, a)
  {
    var link' := link.(nextCheckpoint := t.now + a.checkpointInterval);
    ReceiveCounts(Checkpointed(s, link, start, t.now), link', t, deadline, a);
    assert CountedTwice(link', t, deadline, a) == CountedTwice(link, t, deadline, a);
  }

  /** Every turn raises uptime over the time online by exactly what it counts twice. */
  lemma TurnCounts(s: Stats, link: Link, t: Turn, start: real, deadline: real, a: Args)
    ensures Excess(TakeTurn(s, link, t, start, deadline, a).stats) == Excess(s) + CountedTwice(link, t, deadline, a)
  {
    if t.now >= deadline {
      CompleteCounts(s, link, t, deadline, a);
      assert TakeTurn(s, link, t, start, deadline, a) == Complete(s, link, t);
    } else if t.now < link.nextCheckpoint {
      ReceiveCounts(s, link, t, deadline, a);
      assert TakeTurn(s, link, t, start, deadline, a) == PingAndReceive(s, link, t, a);
    } else if t.cut.InCheckpoint? {
      CheckpointCounts(s, link, t, start, deadline, a);
    } else {
      DueCounts(s, link, t, start, deadline, a);
    }
  }

  /** What the k-th turn of a session counts twice; nothing if it is not reached. */
  function TwiceAt(s: Stats, link: Link, turns: seq<Turn>, k: nat, start: real, deadline: real, a: Args): real
    requires k < |turns|
  {
    match Turns(s, link, turns[..k], start, deadline, a)
    case On(_, link') => CountedTwice(link', turns[k], deadline, a)
    case Over(_, _, _) => 0.0
  }

  /** What the reached ones of the first `n` turns count twice. */
  function TurnsTwice(s: Stats, link: Link, turns: seq<Turn>, n: nat, start: real, deadline: real, a: Args): real
    requires n <= |turns|
  {
    if n == 0 then 0.0
    else
      TurnsTwice(s, link, turns, n - 1, start, deadline, a) + TwiceAt(s, link, turns, n - 1, start, deadline, a)
  }

  function SessionTwice(s: Stats, sess: Session, seconds: int, a: Args): real {
    if sess.first.Refused? then 0.0
    else TurnsTwice(s, OpenLink(sess, a), sess.turns, |sess.turns|, sess.start, DeadlineOf(sess, seconds), a)
  }

  /** What the reached turns of a run count twice. */
  function RunTwice(s: Stats, origin: real, sessions: seq<Session>, a: Args): real
    decreases |sessions|
  {
    if sessions == [] || SecondsLeft(origin, sessions[0], a).None? then 0.0
    else
      var seconds := SecondsLeft(origin, sessions[0], a).value;
      var next := Restarted(RunSession(s, sessions[0], seconds, a), a);
      SessionTwice(s, sessions[0], seconds, a)
      + if next.Some? then RunTwice(next.value, origin, sessions[1..], a) else 0.0
  }

  lemma {:induction false} TurnsCount(s: Stats, link: Link, turns: seq<Turn>, n: nat, start: real, deadline: real,
                                      a: Args)
    requires n <= |turns|
    ensures Excess(Turns(s, link, turns[..n], start, deadline, a).stats)
         == Excess(s) + TurnsTwice(s, link, turns, n, start, deadline, a)
  {
    if n > 0 {
      TurnsCount(s, link, turns, n - 1, start, deadline, a);
      assert turns[..n][..n - 1] == turns[..n - 1];
      var r := Turns(s, link, turns[..n - 1], start, deadline, a);
      if r.On? { TurnCounts(r.stats, r.link, turns[n - 1], start, deadline, a); }
    }
  }

  lemma SessionCounts(s: Stats, sess: Session, seconds: int, a: Args)
    ensures Excess(RunSession(s, sess, seconds, a).stats) == Excess(s) + SessionTwice(s, sess, seconds, a)
  {
    if sess.first.Connected? {
      TurnsCount(s, OpenLink(sess, a), sess.turns, |sess.turns|, sess.start, DeadlineOf(sess, seconds), a);
      assert sess.turns[..|sess.turns|] == sess.turns;
      var r := Turns(s, OpenLink(sess, a), sess.turns, sess.start, DeadlineOf(sess, seconds), a);
      if r.On? { ExcessOfEnd(r.stats, r.link.connOn, sess.stop); }
    }
  }

  lemma {:induction false} RunCounts(s: Stats, origin: real, sessions: seq<Session>, a: Args)
    ensures Excess(RunSessions(s, origin, sessions, a)) == Excess(s) + RunTwice(s, origin, sessions, a)
    decreases |sessions|
  {
    if sessions != [] && SecondsLeft(origin, sessions[0], a).Some? {
      var seconds := SecondsLeft(origin, sessions[0], a).value;
      SessionCounts(s, sessions[0], seconds, a);
      var next := Restarted(RunSession(s, sessions[0], seconds, a), a);
      if next.Some? { RunCounts(next.value, origin, sessions[1..], a); }
    }
  }

  // ----- No reached turn is cut so -----

  predicate SessionUncut(s: Stats, sess: Session, seconds: int, a: Args) {
    sess.first.Connected? ==>
      forall k :: 0 <= k < |sess.turns| ==>
        TwiceAt(s, OpenLink(sess, a), sess.turns, k, sess.start, DeadlineOf(sess, seconds), a) == 0.0
  }

  /** No turn that the run reaches counts anything twice. */
  predicate RunUncut(s: Stats, origin: real, sessions: seq<Session>, a: Args)
    decreases |sessions|
  {
    sessions != [] && SecondsLeft(origin, sessions[0], a).Some? ==>
      var seconds := SecondsLeft(origin, sessions[0], a).value;
      var next := Restarted(RunSession(s, sessions[0], seconds, a), a);
      && SessionUncut(s, sessions[0], seconds, a)
      && (next.Some? ==> RunUncut(next.value, origin, sessions[1..], a))
  }

  lemma {:induction false} FirstUpInTime(t: Turn, k: nat, from: real)
    requires k >= 1 && Ordered(t, from) && FirstUp(t, k).Some?
    ensures t.now <= FirstUp(t, k).value
    decreases MAX_ATTEMPTS - k
  {
    if !Accepts(t, k) { FirstUpInTime(t, k + 1, from); }
  }

  lemma TwiceIsNotNegative(link: Link, t: Turn, deadline: real, a: Args)
    requires Ordered(t, link.connOn)
    ensures CountedTwice(link, t, deadline, a) >= 0.0
  {
    if FirstUp(t, 1).Some? { FirstUpInTime(t, 1, link.connOn); }
  }

  lemma TwiceAtIsNotNegative(s: Stats, sess: Session, k: nat, deadline: real, a: Args, origin: real, end: real)
    requires k < |sess.turns| && sess.first.Connected? && OrderedSession(sess, origin, end)
    requires Successive(s.intervals, origin, sess.first.at)
    ensures TwiceAt(s, OpenLink(sess, a), sess.turns, k, sess.start, deadline, a) >= 0.0
  {
    TurnsFit(s, sess, k, deadline, a, origin, end);
    var r := Turns(s, OpenLink(sess, a), sess.turns[..k], sess.start, deadline, a);
    assert Ordered(sess.turns[k], TurnFrom(sess, k));
    if r.On? { TwiceIsNotNegative(r.link, sess.turns[k], deadline, a); }
  }

  /** A sum of numbers that are not negative is zero iff each is. */
  lemma {:induction false} SumIsZero(s: Stats, link: Link, turns: seq<Turn>, n: nat, start: real, deadline: real,
                                     a: Args)
    requires n <= |turns|
    requires forall k :: 0 <= k < n ==> TwiceAt(s, link, turns, k, start, deadline, a) >= 0.0
    ensures TurnsTwice(s, link, turns, n, start, deadline, a) >= 0.0
    ensures TurnsTwice(s, link, turns, n, start, deadline, a) == 0.0
      <==> forall k :: 0 <= k < n ==> TwiceAt(s, link, turns, k, start, deadline, a) == 0.0
  {
    if n > 0 { SumIsZero(s, link, turns, n - 1, start, deadline, a); }
  }

  lemma SessionTwiceZero(s: Stats, sess: Session, seconds: int, a: Args, origin: real, from: real, end: real)
    requires origin <= from && OrderedSession(sess, from, end) && Successive(s.intervals, origin, from)
    ensures SessionTwice(s, sess, seconds, a) >= 0.0
    ensures SessionTwice(s, sess, seconds, a) == 0.0 <==> SessionUncut(s, sess, seconds, a)
  {
    if sess.first.Connected? {
      SuccessiveLater(s.intervals, origin, from, sess.first.at);
      assert OrderedSession(sess, origin, end);
      var deadline := DeadlineOf(sess, seconds);
      forall k | 0 <= k < |sess.turns|
        ensures TwiceAt(s, OpenLink(sess, a), sess.turns, k, sess.start, deadline, a) >= 0.0
      {
        TwiceAtIsNotNegative(s, sess, k, deadline, a, origin, end);
      }
      SumIsZero(s, OpenLink(sess, a), sess.turns, |sess.turns|, sess.start, deadline, a);
    }
  }

  lemma {:induction false} RunTwiceZero(s: Stats, origin: real, from: real, sessions: seq<Session>, end: real, a: Args)
    requires origin <= from && OrderedRun(from, sessions, end) && Successive(s.intervals, origin, from)
    ensures RunTwice(s, origin, sessions, a) >= 0.0
    ensures RunTwice(s, origin, sessions, a) == 0.0 <==> RunUncut(s, origin, sessions, a)
    decreases |sessions|
  {
    if sessions != [] && SecondsLeft(origin, sessions[0], a).Some? {
      var seconds := SecondsLeft(origin, sessions[0], a).value;
      SessionTwiceZero(s, sessions[0], seconds, a, origin, from, end);
      SessionFits(s, sessions[0], seconds, a, origin, from, end);
      var next := Restarted(RunSession(s, sessions[0], seconds, a), a);
      if next.Some? { RunTwiceZero(next.value, origin, sessions[0].stop, sessions[1..], end, a); }
    }
  }

  /** Uptime against the connections of a run, and the condition for equality. */
  ghost predicate Exact(s: Stats, origin: real, end: real, twice: real, uncut: bool) {
    && Successive(s.intervals, origin, end)
    && 0.0 <= Online(s.intervals) <= end - origin
    && s.uptime == Online(s.intervals) + twice && twice >= 0.0
    && (s.uptime == Online(s.intervals) <==> uncut)
  }

  lemma ExactFrom(s: Stats, origin: real, end: real, twice: real, uncut: bool)
    requires Successive(s.intervals, origin, end) && Excess(s) == twice && twice >= 0.0 && (twice == 0.0 <==> uncut)
    ensures Exact(s, origin, end, twice, uncut)
  {
    SuccessiveFits(s.intervals, origin, end);
  }

  lemma SessionsExactly(s: Stats, origin: real, sessions: seq<Session>, end: real, a: Args)
    requires OrderedRun(origin, sessions, end) && s.intervals == [] && s.uptime == 0.0
    ensures Exact(RunSessions(s, origin, sessions, a), origin, end,
                  RunTwice(s, origin, sessions, a), RunUncut(s, origin, sessions, a))
  {
    SessionsFit(s, origin, origin, sessions, end, a);
    RunCounts(s, origin, sessions, a);
    RunTwiceZero(s, origin, origin, sessions, end, a);
    ExactFrom(RunSessions(s, origin, sessions, a), origin, end,
              RunTwice(s, origin, sessions, a), RunUncut(s, origin, sessions, a));
  }

  /** Over every run: the connections are disjoint intervals of the run, uptime exceeds the time they last by
      exactly what the reached turns count twice, and equals it if and only if no reached turn counts
      anything twice. */
  lemma UptimeExactly(origin: real, sessions: seq<Session>, end: real, a: Args)
    requires OrderedRun(origin, sessions, end)
    ensures Probe(origin, sessions, end, a).elapsed == end - origin
    ensures Exact(Probe(origin, sessions, end, a), origin, end,
                  RunTwice(NO_STATS, origin, sessions, a), RunUncut(NO_STATS, origin, sessions, a))
  {
    SessionsExactly(NO_STATS, origin, sessions, end, a);
    FinishKeeps(RunSessions(NO_STATS, origin, sessions, a), origin, end,
                RunTwice(NO_STATS, origin, sessions, a), RunUncut(NO_STATS, origin, sessions, a));
  }

  lemma FinishKeeps(s: Stats, origin: real, end: real, twice: real, uncut: bool)
    requires Exact(s, origin, end, twice, uncut)
    ensures Exact(Finish(s, origin, end), origin, end, twice, uncut)
  {
  }

  /** So on a run that counts nothing twice the reported ratio is a share of the elapsed time. */
  lemma UptimeIsTimeOnline(origin: real, sessions: seq<Session>, end: real, a: Args)
    requires OrderedRun(origin, sessions, end) && RunUncut(NO_STATS, origin, sessions, a)
    ensures var s := Probe(origin, sessions, end, a);
      s.uptime == Online(s.intervals) <= s.elapsed && 0.0 <= s.ratio.Value() <= 1.0
  {
    UptimeExactly(origin, sessions, end, a);
    RatioInUnit(Ratio(RunSessions(NO_STATS, origin, sessions, a).uptime, end - origin));
  }

  lemma RatioInUnit(q: Ratio)
    requires 0.0 <= q.part <= q.whole
    ensures 0.0 <= q.Value() <= 1.0 && q.Value() * q.whole == q.part
  {
    if q.whole > 0.0 {
      var v := q.part / q.whole;
      assert v * q.whole == q.part;
      assert (1.0 - v) * q.whole == q.whole - q.part;
    }
  }

  /** Two seconds of uptime in a run of one second. */
  lemma UptimeCanExceedElapsed(a: Args)
    requires a.enableReconnect && a.duration >= 10 && a.pingInterval > 1.0 && a.checkpointInterval > 1.0
    ensures
      var turn := Turn(1.0, true, Broken, [], 1.0, InReconnect(1.0, 0, false));
      var run := [Session(0.0, Connected(0.0), [turn], 1.0)];
      OrderedRun(0.0, run, 1.0) && Probe(0.0, run, 1.0, a).elapsed == 1.0 && Probe(0.0, run, 1.0, a).uptime == 2.0
  {
    var turn := Turn(1.0, true, Broken, [], 1.0, InReconnect(1.0, 0, false));
    var sess := Session(0.0, Connected(0.0), [turn], 1.0);
    var r := TakeTurn(NO_STATS, OpenLink(sess, a), turn, 0.0, DeadlineOf(sess, a.duration), a);
    assert r.Over? && r.outcome.Interrupted? && r.stats.uptime == 2.0;
    OneTurnRun(sess, turn, r, a);
  }

  /** A run of one session with one turn, which ends it. */
  lemma OneTurnRun(sess: Session, turn: Turn, r: Progress, a: Args)
    requires sess.start == 0.0 && sess.first.Connected? && sess.turns == [turn] && a.duration >= 1
    requires r == TakeTurn(NO_STATS, OpenLink(sess, a), turn, 0.0, DeadlineOf(sess, a.duration), a)
    requires r.Over? && !r.outcome.Exhausted?
    ensures RunSessions(NO_STATS, 0.0, [sess], a) == r.stats
  {
    assert (a.duration as real - 0.0).Floor == a.duration;
    assert [turn][..0] == [];
    assert Turns(NO_STATS, OpenLink(sess, a), [], 0.0, DeadlineOf(sess, a.duration), a)
        == On(NO_STATS, OpenLink(sess, a));
    assert Turns(NO_STATS, OpenLink(sess, a), [turn], 0.0, DeadlineOf(sess, a.duration), a) == r;
    assert RunSession(NO_STATS, sess, a.duration, a) == r;
  }

  // ----- Attempts and restarts -----

  /** `z` is `y` after `made` more attempts, all refused unless the last one succeeded. */
  ghost predicate Tried(y: Tally, z: Tally, made: int, end: End) {
    && made >= 0 && z.attempts == y.attempts + made
    && match end
       case Up(_) => made >= 1 && z.successes == y.successes + 1 && z.failures == y.failures + made - 1
       case GivenUp => z.successes == y.successes && z.failures == y.failures + made
       case CutOff(_) => z.successes == y.successes && z.failures <= y.failures + made
  }

  lemma {:induction false} ReconnectCounts(y: Tally, t: Turn, k: nat) returns (made: nat)
    requires 1 <= k <= MAX_ATTEMPTS
    ensures Tried(y, TryReconnect(y, t, k).tally, made, TryReconnect(y, t, k).end)
    ensures made <= MAX_ATTEMPTS - k + 1
    ensures TryReconnect(y, t, k).end.GivenUp? ==> made == MAX_ATTEMPTS - k + 1
    decreases MAX_ATTEMPTS - k
  {
    if t.cut.InReconnect? && t.cut.failed == k - 1 {
      made := if t.cut.counted then 1 else 0;
    } else if (k - 1 < |t.attempts| && t.attempts[k - 1].Connected?) || k >= MAX_ATTEMPTS {
      made := 1;
    } else {
      made := ReconnectCounts(Refusal(y, k), t, k + 1);
      made := made + 1;
    }
  }

  lemma {:induction false} ReconnectWaits(y: Tally, t: Turn, k: nat) returns (made: nat)
    requires 1 <= k <= MAX_ATTEMPTS
    ensures TryReconnect(y, t, k).tally.attempts == y.attempts + made
    ensures TryReconnect(y, t, k).tally.backoffs == WithWaits(y.backoffs, k, made)
    decreases MAX_ATTEMPTS - k
  {
    if t.cut.InReconnect? && t.cut.failed == k - 1 {
      made := if t.cut.counted then 1 else 0;
    } else if (k - 1 < |t.attempts| && t.attempts[k - 1].Connected?) || k >= MAX_ATTEMPTS {
      made := 1;
    } else {
      made := ReconnectWaits(Refusal(y, k), t, k + 1);
      made := made + 1;
    }
  }

  /** One reconnect makes at most six attempts, waiting 1, 2, 4, 8, 16, 32 seconds before them; it gives
      up only after six refusals, and all its attempts but a successful last one are refused. */
  lemma ReconnectIsBounded(y: Tally, t: Turn)
    ensures var r := TryReconnect(y, t, 1);
      var made := r.tally.attempts - y.attempts;
      && 0 <= made <= 6
      && Tried(y, r.tally, made, r.end)
      && r.tally.backoffs == y.backoffs + [1, 2, 4, 8, 16, 32][..made]
      && (r.end.GivenUp? ==> made == 6)
  {
    var made := ReconnectCounts(y, t, 1);
    var _ := ReconnectWaits(y, t, 1);
    WaitsAre(y.backoffs, made);
  }

  /** `waits` and the `n` waits from the k-th attempt on. */
  function WithWaits(waits: seq<int>, k: nat, n: nat): seq<int>
    decreases n
  {
    if n == 0 then waits else WithWaits(waits + [BackoffForAttempt(k)], k + 1, n - 1)
  }

  lemma {:induction false} WithWaitsAt(waits: seq<int>, k: nat, n: nat)
    ensures var r := WithWaits(waits, k, n);
      && |r| == |waits| + n && r[..|waits|] == waits
      && forall i :: |waits| <= i < |r| ==> r[i] == BackoffForAttempt(k + i - |waits|)
    decreases n
  {
    if n > 0 {
      var next := waits + [BackoffForAttempt(k)];
      WithWaitsAt(next, k + 1, n - 1);
      var r := WithWaits(next, k + 1, n - 1);
      assert r[..|waits|] == r[..|next|][..|waits|];
      assert r[|waits|] == r[..|next|][|waits|];
    }
  }

  lemma WaitsAre(waits: seq<int>, n: nat)
    requires n <= MAX_ATTEMPTS
    ensures WithWaits(waits, 1, n) == waits + [1, 2, 4, 8, 16, 32][..n]
  {
    WithWaitsAt(waits, 1, n);
    var r := WithWaits(waits, 1, n);
    assert r == r[..|waits|] + r[|waits|..];
    forall i | 0 <= i < n ensures r[|waits| + i] == [1, 2, 4, 8, 16, 32][i] {
      assert r[|waits| + i] == BackoffForAttempt(1 + i);
    }
  }

  lemma TurnNeverRestarts(s: Stats, link: Link, t: Turn, start: real, deadline: real, a: Args)
    ensures TakeTurn(s, link, t, start, deadline, a).stats.restarts == s.restarts
  {
  }

  lemma {:induction false} TurnsNeverRestart(s: Stats, link: Link, turns: seq<Turn>, start: real, deadline: real,
                                             a: Args)
    ensures Turns(s, link, turns, start, deadline, a).stats.restarts == s.restarts
  {
    if turns != [] {
      var init := turns[..|turns| - 1];
      TurnsNeverRestart(s, link, init, start, deadline, a);
      var r := Turns(s, link, init, start, deadline, a);
      if r.On? { TurnNeverRestarts(r.stats, r.link, turns[|turns| - 1], start, deadline, a); }
    }
  }

  lemma {:induction false} SessionsRestart(s: Stats, origin: real, sessions: seq<Session>, a: Args)
    requires s.restarts <= Budget(a)
    ensures s.restarts <= RunSessions(s, origin, sessions, a).restarts <= Budget(a) + 1
    decreases |sessions|
  {
    if sessions != [] && SecondsLeft(origin, sessions[0], a).Some? {
      var sess, seconds := sessions[0], SecondsLeft(origin, sessions[0], a).value;
      if sess.first.Connected? {
        TurnsNeverRestart(s, OpenLink(sess, a), sess.turns, sess.start, DeadlineOf(sess, seconds), a);
      }
      var r := RunSession(s, sess, seconds, a);
      assert r.stats.restarts == s.restarts;
      if Restarted(r, a).Some? { SessionsRestart(Restarted(r, a).value, origin, sessions[1..], a); }
    }
  }

  /** The restarts that are allowed; a negative limit allows none. */
  function Budget(a: Args): nat { if a.maxRestart < 0 then 0 else a.maxRestart }

  /** The restart counter overdraws its budget by at most one. */
  lemma RestartsAreBounded(origin: real, sessions: seq<Session>, end: real, a: Args)
    ensures Probe(origin, sessions, end, a).restarts <= Budget(a) + 1
  {
    SessionsRestart(NO_STATS, origin, sessions, a);
  }

  /** With time left, an exhausted session is followed by the next listed one exactly while fewer than the limit of
      restarts were made; either way the restart is counted. */
  lemma ExhaustedIsFollowed(s: Stats, origin: real, sessions: seq<Session>, a: Args)
    requires sessions != [] && SecondsLeft(origin, sessions[0], a).Some?
    requires RunSession(s, sessions[0], SecondsLeft(origin, sessions[0], a).value, a).outcome.Exhausted?
    ensures var r := RunSession(s, sessions[0], SecondsLeft(origin, sessions[0], a).value, a).stats;
      var counted := r.(restarts := r.restarts + 1);
      RunSessions(s, origin, sessions, a) ==
        if r.restarts < a.maxRestart then RunSessions(counted, origin, sessions[1..], a) else counted
  {
  }

  /** Every listed session starts within the duration and ends exhausted, whatever the restart limit. */
  predicate AllExhausted(s: Stats, origin: real, sessions: seq<Session>, a: Args)
    decreases |sessions|
  {
    sessions != [] ==>
      && SecondsLeft(origin, sessions[0], a).Some?
      && var r := RunSession(s, sessions[0], SecondsLeft(origin, sessions[0], a).value, a);
      && r.outcome.Exhausted?
      && AllExhausted(r.stats.(restarts := r.stats.restarts + 1), origin, sessions[1..], a)
  }

  lemma SessionNeverRestarts(s: Stats, sess: Session, seconds: int, a: Args)
    ensures RunSession(s, sess, seconds, a).stats.restarts == s.restarts
  {
    if sess.first.Connected? {
      TurnsNeverRestart(s, OpenLink(sess, a), sess.turns, sess.start, DeadlineOf(sess, seconds), a);
    }
  }

  lemma {:induction false} AllExhaustedRestart(s: Stats, origin: real, sessions: seq<Session>, a: Args)
    requires AllExhausted(s, origin, sessions, a) && s.restarts <= Budget(a)
    ensures RunSessions(s, origin, sessions, a).restarts
         == if s.restarts + |sessions| <= Budget(a) then s.restarts + |sessions| else Budget(a) + 1
    decreases |sessions|
  {
    if sessions != [] {
      var seconds := SecondsLeft(origin, sessions[0], a).value;
      SessionNeverRestarts(s, sessions[0], seconds, a);
      ExhaustedIsFollowed(s, origin, sessions, a);
      var r := RunSession(s, sessions[0], seconds, a).stats;
      if r.restarts < a.maxRestart {
        AllExhaustedRestart(r.(restarts := r.restarts + 1), origin, sessions[1..], a);
      }
    }
  }

  /** Every allowed restart takes place: if n listed sessions start within the duration and end exhausted, the counter
      ends at n, or one above the restarts the limit allows if that is less. */
  lemma RestartsExactly(origin: real, sessions: seq<Session>, end: real, a: Args)
    requires AllExhausted(NO_STATS, origin, sessions, a)
    ensures Probe(origin, sessions, end, a).restarts
         == if |sessions| < Budget(a) + 1 then |sessions| else Budget(a) + 1
  {
    AllExhaustedRestart(NO_STATS, origin, sessions, a);
  }

  /** One refused session reaches the bound, with a limit of zero and with a negative one. */
  lemma RestartBoundIsReached(a: Args)
    requires a.maxRestart <= 0 && a.duration >= 1
    ensures Probe(0.0, [Session(0.0, Refused, [], 0.0)], 0.0, a).restarts == Budget(a) + 1
  {
    var run := [Session(0.0, Refused, [], 0.0)];
    assert SecondsLeft(0.0, run[0], a).Some?;
    assert RunSession(NO_STATS, run[0], SecondsLeft(0.0, run[0], a).value, a) == Over(NO_STATS, Exhausted, 0.0);
  }

  // ----- When a session is complete -----

  lemma DropNeverCompletes(s: Stats, link: Link, t: Turn, a: Args)
    ensures var r := Drop(s, link, t, a); r.Over? ==> r.outcome != Completed
  {
  }

  /** A turn completes its session exactly when the deadline is reached and nothing interrupts, and goes on only
      before the deadline. */
  lemma TurnCompletesExactly(s: Stats, link: Link, t: Turn, start: real, deadline: real, a: Args)
    ensures var r := TakeTurn(s, link, t, start, deadline, a);
      && (r.Over? && r.outcome == Completed <==> t.now >= deadline && !t.cut.Waiting? && !t.cut.Closing?)
      && (r.Over? && r.outcome == Completed ==> r.at == t.now)
      && (r.On? ==> t.now < deadline)
  {
    var s1 := Checkpointed(s, link, start, t.now);
    DropNeverCompletes(s, link, t, a);
    DropNeverCompletes(s1, link.(nextCheckpoint := t.now + a.checkpointInterval), t, a);
  }

  lemma {:induction false} TurnsComplete(s: Stats, link: Link, turns: seq<Turn>, start: real, deadline: real, a: Args)
    ensures var r := Turns(s, link, turns, start, deadline, a);
      r.Over? && r.outcome == Completed ==> r.at >= deadline
  {
    if turns != [] {
      var n := |turns| - 1;
      TurnsComplete(s, link, turns[..n], start, deadline, a);
      var r := Turns(s, link, turns[..n], start, deadline, a);
      if r.On? { TurnCompletesExactly(r.stats, r.link, turns[n], start, deadline, a); }
    }
  }

  /** A session that completes has brought the run to within a second of its duration: the whole seconds left when it
      started have passed. */
  lemma CompletedMeansDuration(s: Stats, origin: real, sess: Session, a: Args)
    requires SecondsLeft(origin, sess, a).Some?
    requires RunSession(s, sess, SecondsLeft(origin, sess, a).value, a).outcome == Completed
    ensures RunSession(s, sess, SecondsLeft(origin, sess, a).value, a).at - origin > a.duration as real - 1.0
  {
    var seconds := SecondsLeft(origin, sess, a).value;
    TurnsComplete(s, OpenLink(sess, a), sess.turns, sess.start, DeadlineOf(sess, seconds), a);
  }

  // ----- The verdict -----

  datatype Verdict = FailTopicPoison | FailRestartBudget | FailReconnectInstability | FailConnection
    | FailReconnectExhausted | FailCanarySilent | PassC1ProofCandidate | FailSmokeCanarySilent | SmokePassNotC1Proof

  /** What `assess` reads besides the stats: poison events, fatal connection errors, live control topics. */
  datatype Signals = Signals(poisoned: bool, fatalError: bool, controlsAlive: nat)

  function Assess(s: Stats, g: Signals, a: Args): Verdict {
    var longEnough := s.elapsed >= a.minDuration && s.ratio.Value() >= a.minRatio;
    var eligible := longEnough && s.tally.failures < 3;
    if g.poisoned then FailTopicPoison
    else if s.restarts > a.maxRestart then FailRestartBudget
    else if longEnough && s.tally.failures >= 3 then FailReconnectInstability
    else if g.fatalError && s.elapsed < a.minDuration && !eligible then
      if !a.enableReconnect then FailConnection else FailReconnectExhausted
    else if eligible then
      if g.controlsAlive < 3 then FailCanarySilent else PassC1ProofCandidate
    else if g.controlsAlive == 0 then FailSmokeCanarySilent
    else SmokePassNotC1Proof
  }

  /** Exactly when each verdict is given. Poison comes first, then the restart budget; a run that was long and
      online enough is judged on its reconnects and control topics, any other one on fatal errors while it
      was short, and then on whether a control topic was seen at all. */
  lemma VerdictExactly(s: Stats, g: Signals, a: Args)
    ensures var v, unstable := Assess(s, g, a), s.tally.failures >= 3;
      var judged := !g.poisoned && s.restarts <= a.maxRestart;
      var proof := s.elapsed >= a.minDuration && s.ratio.Value() >= a.minRatio;
      var fatal := g.fatalError && s.elapsed < a.minDuration;
      && (v == FailTopicPoison <==> g.poisoned)
      && (v == FailRestartBudget <==> !g.poisoned && s.restarts > a.maxRestart)
      && (v == FailReconnectInstability <==> judged && proof && unstable)
      && (v == FailCanarySilent <==> judged && proof && !unstable && g.controlsAlive < 3)
      && (v == PassC1ProofCandidate <==> judged && proof && !unstable && g.controlsAlive >= 3)
      && (v == FailConnection <==> judged && fatal && !a.enableReconnect)
      && (v == FailReconnectExhausted <==> judged && fatal && a.enableReconnect)
      && (v == FailSmokeCanarySilent <==> judged && !proof && !fatal && g.controlsAlive == 0)
      && (v == SmokePassNotC1Proof <==> judged && !proof && !fatal && g.controlsAlive > 0)
  {
  }

  /** PASS is exactly the six documented gates. */
  lemma PassIsAllGates(s: Stats, g: Signals, a: Args)
    ensures Assess(s, g, a) == PassC1ProofCandidate <==>
      && s.elapsed >= a.minDuration
      && s.ratio.Value() >= a.minRatio
      && s.tally.failures < 3
      && !g.poisoned
      && g.controlsAlive >= 3
      && s.restarts <= a.maxRestart
  {
  }

  predicate IsEnough(time: real, a: Args) { time >= a.minRatio * a.minDuration }

  /** A PASS certifies real time online: at least minRatio of at least minDuration, less what the run counted
      twice. */
  lemma PassCertifiesTimeOnline(origin: real, sessions: seq<Session>, end: real, s: Stats, g: Signals, a: Args)
    requires OrderedRun(origin, sessions, end) && a.minDuration > 0.0 && a.minRatio >= 0.0
    requires s == Probe(origin, sessions, end, a) && Assess(s, g, a) == PassC1ProofCandidate
    ensures IsEnough(Online(s.intervals) + RunTwice(NO_STATS, origin, sessions, a), a)
  {
    UptimeExactly(origin, sessions, end, a);
    PassMeansTime(s, g, a);
  }

  /** So in full on every run that counted nothing twice. */
  lemma UncutPassCertifiesInFull(origin: real, sessions: seq<Session>, end: real, s: Stats, g: Signals, a: Args)
    requires OrderedRun(origin, sessions, end) && a.minDuration > 0.0 && a.minRatio >= 0.0
    requires s == Probe(origin, sessions, end, a) && Assess(s, g, a) == PassC1ProofCandidate
    requires RunUncut(NO_STATS, origin, sessions, a)
    ensures IsEnough(Online(s.intervals), a)
  {
    RunTwiceZero(NO_STATS, origin, origin, sessions, end, a);
    PassCertifiesTimeOnline(origin, sessions, end, s, g, a);
  }

  lemma PassMeansTime(s: Stats, g: Signals, a: Args)
    requires Assess(s, g, a) == PassC1ProofCandidate && a.minDuration > 0.0 && a.minRatio >= 0.0
    requires s.ratio == Ratio(s.uptime, s.elapsed)
    ensures s.uptime >= a.minRatio * a.minDuration
  {
    PassIsAllGates(s, g, a);
    assert s.ratio.Value() * s.elapsed == s.uptime;
    ProductGrows(s.ratio.Value(), s.elapsed, a.minRatio, a.minDuration);
  }

  /** A PASS that does not: the connection was up for four of ten seconds, half were required, and the last close
      was interrupted. */
  lemma PassWithoutTheTime(a: Args, g: Signals)
    requires a.duration == 10 && a.minDuration == 10.0 && a.minRatio == 0.5 && a.maxRestart >= 0
    requires !g.poisoned && g.controlsAlive >= 3
    ensures
      var turn := Turn(10.0, true, TimedOut, [], 10.0, Closing(10.0));
      var run := [Session(0.0, Connected(6.0), [turn], 10.0)];
      var s := Probe(0.0, run, 10.0, a);
      OrderedRun(0.0, run, 10.0) && Online(s.intervals) == 4.0 && Assess(s, g, a) == PassC1ProofCandidate
  {
    var turn := Turn(10.0, true, TimedOut, [], 10.0, Closing(10.0));
    var sess := Session(0.0, Connected(6.0), [turn], 10.0);
    OneTurnIsOrdered(sess, turn, 10.0);
    ClosedTooLate(sess, turn, a);
    PassAtEight(Finish(RunSessions(NO_STATS, 0.0, [sess], a), 0.0, 10.0), a, g);
  }

  lemma OneTurnIsOrdered(sess: Session, turn: Turn, end: real)
    requires sess.first.Connected? && sess.turns == [turn] && 0.0 <= sess.start <= sess.first.at
    requires Ordered(turn, sess.first.at) && turn.gaveUp <= sess.stop <= end
    ensures OrderedRun(0.0, [sess], end)
  {
    assert [sess][1..] == [];
    assert TurnFrom(sess, 0) == sess.first.at && TurnFrom(sess, 1) == turn.gaveUp;
  }

  lemma ClosedTooLate(sess: Session, turn: Turn, a: Args)
    requires sess.start == 0.0 && sess.first == Connected(6.0) && sess.turns == [turn] && a.duration == 10
    requires turn.now == 10.0 && turn.cut == Closing(10.0)
    ensures var s := RunSessions(NO_STATS, 0.0, [sess], a);
      s.uptime == 8.0 && Online(s.intervals) == 4.0 && s.restarts == 0 && s.tally.failures == 0
  {
    var link, deadline := OpenLink(sess, a), DeadlineOf(sess, a.duration);
    LastCloseCut(NO_STATS, link, turn, deadline, a);
    OneTurnRun(sess, turn, TakeTurn(NO_STATS, link, turn, 0.0, deadline, a), a);
  }

  lemma LastCloseCut(s: Stats, link: Link, t: Turn, deadline: real, a: Args)
    requires t.now >= deadline && t.cut.Closing?
    ensures var r := TakeTurn(s, link, t, 0.0, deadline, a);
      && r.Over? && r.outcome.Interrupted? && r.stats.restarts == s.restarts && r.stats.tally == s.tally
      && r.stats.uptime == s.uptime + (t.now - link.connOn) + (t.cut.at - link.connOn)
      && Online(r.stats.intervals) == Online(s.intervals) + (t.now - link.connOn)
  {
    ExcessOfEnd(s, link.connOn, t.now);
  }

  lemma PassAtEight(s: Stats, a: Args, g: Signals)
    requires s.uptime == 8.0 && s.elapsed == 10.0 && s.ratio == Ratio(8.0, 10.0)
    requires s.restarts == 0 && s.tally.failures == 0
    requires a.minDuration == 10.0 && a.minRatio == 0.5 && a.maxRestart >= 0 && !g.poisoned && g.controlsAlive >= 3
    ensures Assess(s, g, a) == PassC1ProofCandidate
  {
    PassIsAllGates(s, g, a);
  }
}
