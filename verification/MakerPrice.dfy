/** The price of a passive close order and the queue adjustment of its fill probability. */
module MakerPrice {
  import opened Options
  import opened RealArithmetic

  const MAX_TICKS := 0xFFFF_FFFF

  /** The touch and the tick size; values that are missing or not positive count as absent. */
  datatype Book = Book(bid: Option<real>, ask: Option<real>, tick: Option<real>)

  function Positive(x: Option<real>): Option<real> { if x.Some? && x.value > 0.0 then x else None }

  function Ceil(x: real): int { -((-x).Floor) }
  function Max(a: int, b: int): int { if a < b then b else a }

  function SpreadBps(bid: real, ask: real): real
    requires 0.0 < bid && 0.0 < ask
  {
    (ask - bid) / ((bid + ask) * 0.5) * 10000.0
  }

  function Steps(ticks: int, tick: real): real { ticks as real * tick }

  function PostOnlyPrice(buy: bool, book: Book, bufferTicks: int): Option<real> {
    var bid, ask := Positive(book.bid), Positive(book.ask);
    if Positive(book.tick).None? then None
    else if bid.Some? && ask.Some? && ask.value <= bid.value then None
    else
      var buffer := Steps(bufferTicks, book.tick.value);
      var crossBuffer := if bufferTicks == 0 then book.tick.value else buffer;
      if buy then
        if bid.Some? then Positive(Some(bid.value - buffer))
        else if ask.Some? then Positive(Some(ask.value - crossBuffer))
        else None
      else
        if ask.Some? then Positive(Some(ask.value + buffer))
        else if bid.Some? then Positive(Some(bid.value + crossBuffer))
        else None
  }

  /** The price for closing a position: a long one is sold, a short one is bought back. */
  function CloseLimitPrice(long: bool, book: Book, bufferTicks: int, guardBps: real): Option<real> {
    var bid, ask := Positive(book.bid), Positive(book.ask);
    var buffer := Max(bufferTicks, 1);
    if bid.Some? && ask.Some? then
      if ask.value <= bid.value then None
      else if SpreadBps(bid.value, ask.value) > guardBps then None
      else if Positive(book.tick).Some? then
        var required := Ceil((ask.value - bid.value) * 0.5 / book.tick.value);
        if required > buffer then
          if required > MAX_TICKS then None else PostOnlyPrice(!long, book, required)
        else PostOnlyPrice(!long, book, buffer)
      else PostOnlyPrice(!long, book, buffer)
    else PostOnlyPrice(!long, book, buffer)
  }

  // ----- Passive pricing -----

  lemma CeilIsLeast(x: real)
    ensures x <= Ceil(x) as real < x + 1.0
  {
    var f := (-x).Floor;
    assert f as real <= -x < f as real + 1.0;
  }

  lemma RoundedProduct(q: real, n: int, tick: real, distance: real)
    requires tick > 0.0 && q <= n as real < q + 1.0 && q * tick == distance
    ensures distance <= Steps(n, tick) < distance + tick
  {
    var m := n as real;
    ProductSign(m - q, tick);
    var left := q + 1.0 - m;
    ProductSign(left, tick);
    var p := m * tick;
    assert Steps(n, tick) == p;
    assert left * tick == distance + tick - p;
    assert left * tick > 0.0;
  }

  /** Whole ticks covering a distance, with less than one tick to spare. */
  lemma TicksCover(distance: real, tick: real)
    requires tick > 0.0
    ensures distance <= Steps(Ceil(distance / tick), tick) < distance + tick
  {
    var q := distance / tick;
    assert q * tick == distance;
    CeilIsLeast(q);
    RoundedProduct(q, Ceil(q), tick, distance);
  }

  lemma MoreTicksMoreDistance(m: int, n: int, tick: real)
    requires m <= n && tick > 0.0
    ensures Steps(m, tick) <= Steps(n, tick)
  {
    assert (n - m) as real * tick >= 0.0;
    assert Steps(n, tick) == Steps(m, tick) + (n - m) as real * tick;
  }

  predicate TwoSided(book: Book) {
    Positive(book.bid).Some? && Positive(book.ask).Some? && Positive(book.tick).Some? && book.bid.value < book.ask.value
  }

  /** How far beyond its own touch a close order is placed. */
  function Distance(book: Book, bufferTicks: int): real
    requires TwoSided(book)
  {
    Steps(Max(Max(bufferTicks, 1), Ceil((book.ask.value - book.bid.value) * 0.5 / book.tick.value)), book.tick.value)
  }

  /** Exactly when there is a price and which: a two-sided book within the guard and the tick limit is priced
      at the distance beyond its touch, if that is positive; a one-sided book one buffer away from the side
      it has; anything else not at all. */
  lemma PriceExactly(long: bool, book: Book, bufferTicks: int, guardBps: real)
    requires bufferTicks <= MAX_TICKS
    ensures var bid, ask := Positive(book.bid), Positive(book.ask);
      CloseLimitPrice(long, book, bufferTicks, guardBps) ==
        if Positive(book.tick).None? || (bid.None? && ask.None?) then None
        else if bid.Some? && ask.Some? then
          if !TwoSided(book) || SpreadBps(bid.value, ask.value) > guardBps
             || Ceil((ask.value - bid.value) * 0.5 / book.tick.value) > MAX_TICKS then None
          else if long then Some(ask.value + Distance(book, bufferTicks))
          else Positive(Some(bid.value - Distance(book, bufferTicks)))
        else
          var touch := if bid.Some? then bid.value else ask.value;
          var buffer := Steps(Max(bufferTicks, 1), book.tick.value);
          if long then Some(touch + buffer) else Positive(Some(touch - buffer))
  {
    if Positive(book.tick).Some? {
      MoreTicksMoreDistance(0, Max(bufferTicks, 1), book.tick.value);
      if TwoSided(book) {
        var required := Ceil((book.ask.value - book.bid.value) * 0.5 / book.tick.value);
        MoreTicksMoreDistance(0, Max(Max(bufferTicks, 1), required), book.tick.value);
      }
    }
  }

  /** A price is positive and never crosses: it lies at least one tick away from every side the book has on
      the order's own side of the market. With both sides it is at least half the spread beyond its touch,
      and no further than it has to be: either the buffer, or less than one tick more than half the spread. */
  lemma ClosePriceIsPassive(long: bool, book: Book, bufferTicks: int, guardBps: real)
    requires CloseLimitPrice(long, book, bufferTicks, guardBps).Some?
    ensures var p := CloseLimitPrice(long, book, bufferTicks, guardBps).value;
      var bid, ask := Positive(book.bid), Positive(book.ask);
      && p > 0.0 && Positive(book.tick).Some?
      && (long && bid.Some? ==> p >= bid.value + book.tick.value)
      && (long && ask.Some? ==> p >= ask.value + book.tick.value)
      && (!long && bid.Some? ==> p <= bid.value - book.tick.value)
      && (!long && ask.Some? ==> p <= ask.value - book.tick.value)
      && (bid.Some? && ask.Some? ==>
            var beyond := if long then p - ask.value else bid.value - p;
            var half := (ask.value - bid.value) * 0.5;
            && beyond >= half
            && beyond >= Steps(Max(bufferTicks, 1), book.tick.value)
            && (beyond < half + book.tick.value || beyond == Steps(Max(bufferTicks, 1), book.tick.value)))
  {
    var buffer := Max(bufferTicks, 1);
    assert Steps(1, book.tick.value) == book.tick.value;
    MoreTicksMoreDistance(1, buffer, book.tick.value);
    if TwoSided(book) {
      var half := (book.ask.value - book.bid.value) * 0.5;
      var required := Ceil(half / book.tick.value);
      TicksCover(half, book.tick.value);
      MoreTicksMoreDistance(buffer, Max(buffer, required), book.tick.value);
      MoreTicksMoreDistance(required, Max(buffer, required), book.tick.value);
    }
  }

  /** The helper on its own, for any number of ticks that is not negative: beyond its own touch by exactly that many,
      and with only the other side known by as many but at least one, so never across. */
  lemma PostOnlyIsPassive(buy: bool, book: Book, ticks: int)
    requires ticks >= 0 && PostOnlyPrice(buy, book, ticks).Some?
    ensures var p := PostOnlyPrice(buy, book, ticks).value;
      var bid, ask := Positive(book.bid), Positive(book.ask);
      var own, other := if buy then bid else ask, if buy then ask else bid;
      var away := Steps(if own.None? && ticks == 0 then 1 else ticks, book.tick.value);
      && p > 0.0 && (own.Some? || other.Some?) && (bid.Some? && ask.Some? ==> bid.value < ask.value)
      && p == (if own.Some? then own.value else other.value) + (if buy then -away else away)
      && (buy && ask.Some? ==> p < ask.value) && (!buy && bid.Some? ==> p > bid.value)
  {
    MoreTicksMoreDistance(0, ticks, book.tick.value);
    if ticks > 0 { MoreTicksMoreDistance(1, ticks, book.tick.value); }
    assert Steps(1, book.tick.value) == book.tick.value;
  }

  // ----- Queue adjustment -----

  function QueueFactor(qty: real, depth: Option<real>): Option<real> {
    if qty <= 0.0 || depth.None? || depth.value <= 0.0 then None
    else Some(Clamp(qty / (qty + depth.value)))
  }

  function Clamp(x: real): real { if x < 0.0 then 0.0 else if x > 1.0 then 1.0 else x }

  function Times(x: real, y: real): real { x * y }

  function ApplyQueueAdjustment(proxy: real, factor: Option<real>, weight: real, rejection: real): real {
    if proxy <= 0.0 then 0.0
    else
      var queue := if factor.None? then 1.0 else Clamp(1.0 - Times(Clamp(weight), Clamp(factor.value)));
      Times(Times(Clamp(proxy), 1.0 - Clamp(rejection)), queue)
  }

  lemma TimesInUnit(x: real, y: real)
    requires 0.0 <= x && 0.0 <= y <= 1.0
    ensures 0.0 <= Times(x, y) <= x
  {
    assert x * (1.0 - y) >= 0.0;
  }

  lemma TimesGrows(x: real, y: real, z: real)
    requires 0.0 <= x && y <= z
    ensures Times(x, y) <= Times(x, z) && Times(y, x) <= Times(z, x)
  {
    assert x * (z - y) >= 0.0;
  }

  /** The share of the queue that is one's own: strictly between 0 and 1, so the clamp does nothing, larger for
      a larger order, smaller in a deeper book, and one half when both are equal. */
  lemma QueueFactorMeaning(qty: real, depth: real, qty': real, depth': real)
    requires 0.0 < qty <= qty' && 0.0 < depth' <= depth
    ensures var f, f' := QueueFactor(qty, Some(depth)), QueueFactor(qty', Some(depth'));
      && f.Some? && f'.Some? && 0.0 < f.value < 1.0
      && f.value == qty / (qty + depth)
      && f.value <= f'.value
      && (f.value == 0.5 <==> qty == depth)
  {
    var r, r' := qty / (qty + depth), qty' / (qty' + depth');
    Share(qty, depth);
    Share(qty', depth');
    OrderedShares(qty, depth, qty', depth', r, r');
  }

  lemma Share(q: real, d: real)
    requires q > 0.0 && d > 0.0
    ensures var r := q / (q + d); r * (q + d) == q && 0.0 < r < 1.0 && (r == 0.5 <==> q == d)
  {
    var r := q / (q + d);
    assert r * (q + d) == q;
    ProductSign(r, q + d);
    ProductSign(1.0 - r, q + d);
    assert (1.0 - r) * (q + d) == d;
    ProductSign(r - 0.5, q + d);
    ProductSign(0.5 - r, q + d);
    assert (r - 0.5) * (q + d) == (q - d) * 0.5 && (0.5 - r) * (q + d) == (d - q) * 0.5;
  }

  lemma OrderedShares(q: real, d: real, q': real, d': real, r: real, r': real)
    requires 0.0 < q <= q' && 0.0 < d' <= d
    requires r * (q + d) == q && r' * (q' + d') == q'
    ensures r <= r'
  {
    var n, n' := q + d, q' + d';
    assert n * n' > 0.0;
    assert r' * n' * n == q' * n && r * n * n' == q * n';
    assert (r' - r) * (n * n') == q' * n - q * n';
    assert q' * n - q * n' == q' * d - q * d';
    assert q' * d >= q * d && q * d >= q * d';
    ProductSign(r' - r, n * n');
  }

  /** The adjusted probability stays between 0 and the probability it adjusts, and never grows with the
      queue factor. */
  lemma AdjustmentOnlyLowers(proxy: real, factor: Option<real>, factor': Option<real>, weight: real, rejection: real)
    requires 0.0 <= proxy <= 1.0
    requires factor'.Some? ==> factor.None? || factor.value <= factor'.value
    requires factor.Some? ==> factor'.Some?
    ensures var r := ApplyQueueAdjustment(proxy, factor, weight, rejection);
      var r' := ApplyQueueAdjustment(proxy, factor', weight, rejection);
      0.0 <= r' <= r <= proxy
  {
    var base := Times(Clamp(proxy), 1.0 - Clamp(rejection));
    var w := Clamp(weight);
    TimesInUnit(Clamp(proxy), 1.0 - Clamp(rejection));
    var c := if factor.Some? then Clamp(factor.value) else 0.0;
    var c' := if factor'.Some? then Clamp(factor'.value) else 0.0;
    TimesInUnit(w, c);
    TimesInUnit(w, c');
    TimesGrows(w, c, c');
    var queue := if factor.None? then 1.0 else Clamp(1.0 - Times(w, c));
    var queue' := if factor'.None? then 1.0 else Clamp(1.0 - Times(w, c'));
    TimesInUnit(base, queue);
    TimesInUnit(base, queue');
    TimesGrows(base, queue', queue);
  }

  predicate InUnit(x: real) { 0.0 <= x <= 1.0 }

  /** Inputs outside [0, 1] count as the nearest one within. */
  lemma OutOfRangeCountsAsNearest(proxy: real, factor: Option<real>, weight: real, rejection: real)
    ensures ApplyQueueAdjustment(proxy, factor, weight, rejection)
      == ApplyQueueAdjustment(Clamp(proxy), if factor.Some? then Some(Clamp(factor.value)) else None,
                              Clamp(weight), Clamp(rejection))
  {
  }

  /** What is left of a probability without the queue. */
  function Kept(proxy: real, rejection: real): real { Times(proxy, 1.0 - rejection) }

  lemma KeptInUnit(proxy: real, rejection: real)
    requires InUnit(proxy) && InUnit(rejection)
    ensures 0.0 <= Kept(proxy, rejection) <= proxy
    ensures Kept(proxy, rejection) > 0.0 <==> proxy > 0.0 && rejection < 1.0
  {
    TimesInUnit(proxy, 1.0 - rejection);
    if proxy > 0.0 { ProductSign(1.0 - rejection, proxy); }
  }

  /** A share taken off a number. */
  lemma TakenOff(base: real, share: real)
    ensures Times(base, 1.0 - share) == base - Times(share, base)
  {
  }

  lemma WithoutQueue(proxy: real, weight: real, rejection: real)
    requires InUnit(proxy) && InUnit(rejection)
    ensures ApplyQueueAdjustment(proxy, None, weight, rejection) == Kept(proxy, rejection)
    ensures ApplyQueueAdjustment(proxy, None, weight, 0.0) == proxy
  {
  }

  lemma WithQueue(proxy: real, factor: real, weight: real, rejection: real)
    requires InUnit(proxy) && InUnit(factor) && InUnit(weight) && InUnit(rejection)
    ensures ApplyQueueAdjustment(proxy, Some(factor), weight, rejection)
         == Kept(proxy, rejection) - Times(Times(weight, factor), Kept(proxy, rejection))
  {
    TimesInUnit(weight, factor);
    TakenOff(Kept(proxy, rejection), Times(weight, factor));
  }

  /** Without a factor and a base rejection the adjustment does nothing, and a base rejection leaves its complement of
      the result without it. */
  lemma RejectionExactly(proxy: real, factor: Option<real>, weight: real, rejection: real)
    requires InUnit(proxy) && InUnit(weight) && InUnit(rejection) && (factor.Some? ==> InUnit(factor.value))
    ensures ApplyQueueAdjustment(proxy, None, weight, 0.0) == proxy
    ensures ApplyQueueAdjustment(proxy, factor, weight, rejection)
         == Times(1.0 - rejection, ApplyQueueAdjustment(proxy, factor, weight, 0.0))
  {
    WithoutQueue(proxy, weight, rejection);
    if factor.Some? {
      WithQueue(proxy, factor.value, weight, rejection);
      WithQueue(proxy, factor.value, weight, 0.0);
      Redistribute(proxy, 1.0 - rejection, Times(weight, factor.value));
    }
  }

  lemma Redistribute(x: real, y: real, share: real)
    ensures Times(x, y) - Times(share, Times(x, y)) == Times(y, x - Times(share, x))
  {
  }

  /** A factor takes off exactly weight times factor of the result without it, and so lowers it strictly exactly when
      there is anything to lower. For inputs outside [0, 1] see above. */
  lemma QueueExactly(proxy: real, factor: real, weight: real, rejection: real)
    requires InUnit(proxy) && InUnit(factor) && InUnit(weight) && InUnit(rejection)
    ensures var without, with := ApplyQueueAdjustment(proxy, None, weight, rejection),
                                 ApplyQueueAdjustment(proxy, Some(factor), weight, rejection);
      && without - with == Times(Times(weight, factor), without)
      && (with < without <==> proxy > 0.0 && factor > 0.0 && weight > 0.0 && rejection < 1.0)
  {
    var base, share := Kept(proxy, rejection), Times(weight, factor);
    WithoutQueue(proxy, weight, rejection);
    WithQueue(proxy, factor, weight, rejection);
    KeptInUnit(proxy, rejection);
    PositiveTimes(weight, factor);
    PositiveTimes(share, base);
  }

  lemma PositiveTimes(x: real, y: real)
    requires x >= 0.0 && y >= 0.0
    ensures Times(x, y) >= 0.0 && (Times(x, y) > 0.0 <==> x > 0.0 && y > 0.0)
  {
    if y > 0.0 { ProductSign(x, y); }
  }
}
