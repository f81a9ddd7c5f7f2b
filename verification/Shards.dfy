/** Deterministic sharding of a test collection: the worker that selects a shard and the independent
    verifier of all shards. A node id is its UTF-8 bytes. */
module Shards {
  type Byte = b: int | 0 <= b < 256
  type NodeId = seq<Byte>

  /** What a collection or a JSON list can hold where a node id is expected. */
  datatype Raw = NotText | NotUtf8 | Text(bytes: NodeId)

  const TESTS_PREFIX: NodeId := [116, 101, 115, 116, 115, 47]   // tests/
  const PY_SUFFIX: NodeId := [46, 112, 121]                     // .py
  const COLON: Byte := 58
  const NEWLINE: Byte := 10
  const CONTROLS: set<Byte> := {0, 10, 13}
  const MAX_NODEID_BYTES := 8192

  // ----- Node ids and their order -----

  predicate SeparatorAt(id: NodeId, i: nat) {
    i + 2 <= |id| && id[i] == COLON && id[i + 1] == COLON
  }

  /** A ".py" path before the first "::", and a test name after it. */
  predicate NamesATest(id: NodeId) {
    exists i :: 0 <= i < |id| && SeparatorAt(id, i) && (forall j :: 0 <= j < i ==> !SeparatorAt(id, j))
      && i >= 3 && id[i - 3..i] == PY_SUFFIX && i + 2 < |id|
  }

  predicate ValidId(id: NodeId) {
    (forall b <- id :: b !in CONTROLS) && TESTS_PREFIX <= id && NamesATest(id)
  }

  predicate Less(a: NodeId, b: NodeId) {
    b != [] && (a == [] || a[0] < b[0] || (a[0] == b[0] && Less(a[1..], b[1..])))
  }

  lemma {:induction false} LessIsStrict(a: NodeId, b: NodeId)
    ensures !(Less(a, b) && Less(b, a)) && !Less(a, a)
  {
    if a != [] {
      LessIsStrict(a[1..], if b != [] then b[1..] else []);
    }
  }

  lemma {:induction false} LessIsTransitive(a: NodeId, b: NodeId, c: NodeId)
    requires Less(a, b) && Less(b, c)
    ensures Less(a, c)
  {
    if a != [] && a[0] == b[0] && b[0] == c[0] { LessIsTransitive(a[1..], b[1..], c[1..]); }
  }

  lemma {:induction false} LessIsTotal(a: NodeId, b: NodeId)
    ensures a == b || Less(a, b) || Less(b, a)
  {
    if a != [] && b != [] && a[0] == b[0] {
      LessIsTotal(a[1..], b[1..]);
      assert a == [a[0]] + a[1..] && b == [b[0]] + b[1..];
    }
  }

  /** Sorted by bytes and free of duplicates. */
  ghost predicate Canonical(f: seq<NodeId>) {
    forall i, j :: 0 <= i < j < |f| ==> Less(f[i], f[j])
  }

  function Elements(f: seq<NodeId>): set<NodeId> { set x | x in f }

  lemma {:induction false} CanonicalIsUnique(f: seq<NodeId>, g: seq<NodeId>)
    requires Canonical(f) && Canonical(g) && Elements(f) == Elements(g)
    ensures f == g
  {
    assert f != [] ==> f[0] in Elements(f);
    assert g != [] ==> g[0] in Elements(g);
    if f != [] && g != [] {
      assert f[0] in Elements(g) && g[0] in Elements(f);
      var i :| 0 <= i < |g| && g[i] == f[0];
      var j :| 0 <= j < |f| && f[j] == g[0];
      LessIsStrict(f[0], g[0]);
      assert f[0] == g[0];
      TailElements(f);
      TailElements(g);
      CanonicalIsUnique(f[1..], g[1..]);
      assert f == [f[0]] + f[1..] && g == [g[0]] + g[1..];
    }
  }

  lemma TailElements(f: seq<NodeId>)
    requires Canonical(f) && f != []
    ensures Elements(f[1..]) == Elements(f) - {f[0]}
  {
    assert f == [f[0]] + f[1..];
    forall x <- f[1..] ensures x != f[0] {
      var k :| 0 <= k < |f[1..]| && f[1..][k] == x;
      assert Less(f[0], f[k + 1]);
      LessIsStrict(f[0], x);
    }
  }

  lemma {:induction false} CanonicalSize(f: seq<NodeId>)
    requires Canonical(f)
    ensures |Elements(f)| == |f|
  {
    if f != [] {
      TailElements(f);
      CanonicalSize(f[1..]);
      assert f[0] in Elements(f);
    }
  }

  // ----- Sorting -----

  /** Library sort, as an insertion: equal ids stay side by side. */
  function Insert(x: NodeId, f: seq<NodeId>): seq<NodeId> {
    if f == [] || !Less(f[0], x) then [x] + f else [f[0]] + Insert(x, f[1..])
  }

  function Sorted(ids: seq<NodeId>): seq<NodeId> {
    if ids == [] then [] else Insert(ids[0], Sorted(ids[1..]))
  }

  lemma {:induction false} InsertKeeps(x: NodeId, f: seq<NodeId>)
    ensures Elements(Insert(x, f)) == Elements(f) + {x} && |Insert(x, f)| == |f| + 1
    ensures Canonical(f) && x !in f ==> Canonical(Insert(x, f))
    ensures Insert(x, f) != [] && (Insert(x, f)[0] == x || (f != [] && Insert(x, f)[0] == f[0]))
  {
    if f == [] {
    } else if !Less(f[0], x) {
      if Canonical(f) && x !in f {
        forall j | 0 <= j < |f| ensures Less(x, f[j]) {
          LessIsTotal(x, f[0]);
          if j > 0 { LessIsTransitive(x, f[0], f[j]); }
        }
      }
    } else {
      InsertKeeps(x, f[1..]);
      var rest := Insert(x, f[1..]);
      assert forall y :: y in f <==> y == f[0] || y in f[1..];
      assert Elements(Insert(x, f)) == {f[0]} + Elements(rest);
      if Canonical(f) && x !in f {
        forall j | 0 <= j < |rest| ensures Less(f[0], rest[j]) {
          assert rest[j] in Elements(rest);
          if rest[j] != x { var k :| 0 <= k < |f[1..]| && f[1..][k] == rest[j]; assert f[k + 1] == rest[j]; }
        }
      }
    }
  }

  ghost predicate Distinct(ids: seq<NodeId>) {
    forall i, j :: 0 <= i < j < |ids| ==> ids[i] != ids[j]
  }

  lemma {:induction false} SortedIsCanonical(ids: seq<NodeId>)
    ensures Elements(Sorted(ids)) == Elements(ids) && |Sorted(ids)| == |ids|
    ensures Distinct(ids) ==> Canonical(Sorted(ids))
  {
    if ids != [] {
      SortedIsCanonical(ids[1..]);
      InsertKeeps(ids[0], Sorted(ids[1..]));
      assert forall y :: y in ids <==> y == ids[0] || y in ids[1..];
      if Distinct(ids) {
        assert ids[0] !in ids[1..];
        assert ids[0] !in Elements(Sorted(ids[1..]));
      }
    }
  }

  lemma CanonicalIsDistinct(f: seq<NodeId>)
    requires Canonical(f)
    ensures Distinct(f)
  {
    forall i, j | 0 <= i < j < |f| ensures f[i] != f[j] { LessIsStrict(f[i], f[j]); }
  }

  /** The verifier's test "equals its own sort, and has no duplicates" is exactly canonicity. */
  lemma SortedTest(ids: seq<NodeId>)
    ensures ids == Sorted(ids) && Distinct(ids) <==> Canonical(ids)
  {
    SortedIsCanonical(ids);
    if Canonical(ids) {
      CanonicalIsDistinct(ids);
      CanonicalIsUnique(ids, Sorted(ids));
    }
  }

  // ----- Shards -----

  /** The selector's comprehension: positions congruent to `index`. */
  function Shard(f: seq<NodeId>, index: nat, count: nat): seq<NodeId>
    requires count > 0
  {
    if f == [] then []
    else Shard(f[..|f| - 1], index, count) + if (|f| - 1) % count == index then [f[|f| - 1]] else []
  }

  /** The verifier's slice `f[index::count]`. */
  function Stride(f: seq<NodeId>, index: nat, count: nat): seq<NodeId>
    requires count > 0
    decreases |f| - index
  {
    if index >= |f| then [] else [f[index]] + Stride(f, index + count, count)
  }

  /** How many elements shard `index` has: the quotient, plus one for the first `remainder` shards. */
  function ShardSize(n: nat, index: nat, count: nat): nat
    requires count > 0
  {
    n / count + if index < n % count then 1 else 0
  }

  lemma AtLeast(x: int, y: int)
    requires x >= 1 && y >= 0
    ensures x * y >= y
  {
    assert (x - 1) * y >= 0;
  }

  lemma QuotientIs(n: int, q: int, r: int, count: int)
    requires count > 0 && n == q * count + r && 0 <= r < count
    ensures n / count == q && n % count == r
  {
    var q', r' := n / count, n % count;
    assert n == q' * count + r';
    assert (q - q') * count == r' - r && (q' - q) * count == r - r';
    if q > q' {
      AtLeast(q - q', count);
    } else if q < q' {
      AtLeast(q' - q, count);
    }
  }

  lemma DivideOneMore(n: nat, count: nat)
    requires count > 0
    ensures (n + 1) / count == n / count + (if n % count == count - 1 then 1 else 0)
    ensures (n + 1) % count == (if n % count == count - 1 then 0 else n % count + 1)
  {
    var q, r := n / count, n % count;
    assert n == q * count + r;
    if r == count - 1 {
      assert (q + 1) * count == q * count + count;
      QuotientIs(n + 1, q + 1, 0, count);
    } else {
      QuotientIs(n + 1, q, r + 1, count);
    }
  }

  lemma Shifted(d: nat, count: nat)
    requires count > 0
    ensures d >= count ==> (d - count) % count == d % count
    ensures d < count ==> d % count == d
  {
    var q, r := d / count, d % count;
    assert d == q * count + r;
    if d >= count {
      assert (q - 1) * count == q * count - count;
      QuotientIs(d - count, q - 1, r, count);
    } else {
      QuotientIs(d, 0, d, count);
    }
  }

  lemma Congruent(n: nat, index: nat, count: nat)
    requires index < count
    ensures n % count == index <==> n >= index && (n - index) % count == 0
  {
    var q, r := n / count, n % count;
    assert n == q * count + r;
    if n >= index {
      if r >= index {
        QuotientIs(n - index, q, r - index, count);
      } else {
        assert (q - 1) * count == q * count - count;
        QuotientIs(n - index, q - 1, r - index + count, count);
      }
    } else {
      QuotientIs(n, 0, n, count);
    }
  }

  lemma {:induction false} ShardIsBalanced(f: seq<NodeId>, index: nat, count: nat)
    requires index < count
    ensures |Shard(f, index, count)| == ShardSize(|f|, index, count)
  {
    if f == [] {
      QuotientIs(0, 0, 0, count);
    } else {
      ShardIsBalanced(f[..|f| - 1], index, count);
      DivideOneMore(|f| - 1, count);
    }
  }

  /** The slice from `from` on takes the n-th entry. */
  predicate Takes(n: nat, from: nat, count: nat)
    requires count > 0
  {
    n >= from && (n - from) % count == 0
  }

  lemma TakesLater(n: nat, from: nat, count: nat)
    requires count > 0 && from < n
    ensures Takes(n, from, count) <==> Takes(n, from + count, count)
  {
    Shifted(n - from, count);
  }

  lemma TakesFirst(from: nat, count: nat)
    requires count > 0
    ensures Takes(from, from, count)
  {
    QuotientIs(0, 0, 0, count);
  }

  lemma {:induction false} StrideSnoc(f: seq<NodeId>, x: NodeId, from: nat, count: nat)
    requires count > 0
    ensures Stride(f + [x], from, count)
      == Stride(f, from, count) + if Takes(|f|, from, count) then [x] else []
    decreases |f| + 1 - from
  {
    if from < |f| {
      StrideSnoc(f, x, from + count, count);
      TakesLater(|f|, from, count);
      assert (f + [x])[from] == f[from];
    } else if from == |f| {
      TakesFirst(from, count);
    }
  }

  lemma ShardSnoc(f: seq<NodeId>, x: NodeId, index: nat, count: nat)
    requires index < count
    ensures Shard(f + [x], index, count) == Shard(f, index, count) + if |f| % count == index then [x] else []
  {
    assert (f + [x])[..|f + [x]| - 1] == f;
  }

  /** The two programs cut the same shards. */
  lemma {:induction false} StrideIsShard(f: seq<NodeId>, index: nat, count: nat)
    requires index < count
    ensures Stride(f, index, count) == Shard(f, index, count)
  {
    if f != [] {
      var init, x := f[..|f| - 1], f[|f| - 1];
      assert init + [x] == f;
      StrideIsShard(init, index, count);
      StrideSnoc(init, x, index, count);
      ShardSnoc(init, x, index, count);
      Congruent(|init|, index, count);
    }
  }

  lemma {:induction false} ShardMembers(f: seq<NodeId>, index: nat, count: nat, x: NodeId)
    requires index < count
    ensures x in Shard(f, index, count) <==> exists p :: 0 <= p < |f| && f[p] == x && p % count == index
  {
    if f != [] {
      var init := f[..|f| - 1];
      ShardMembers(init, index, count, x);
      if x in Shard(init, index, count) {
        var p :| 0 <= p < |init| && init[p] == x && p % count == index;
        assert f[p] == x;
      }
      if exists p :: 0 <= p < |f| && f[p] == x && p % count == index {
        var p :| 0 <= p < |f| && f[p] == x && p % count == index;
        if p < |init| { assert init[p] == x; }
      }
    }
  }

  lemma {:induction false} ShardIsCanonical(f: seq<NodeId>, index: nat, count: nat)
    requires Canonical(f) && index < count
    ensures Canonical(Shard(f, index, count))
  {
    if f != [] {
      var init, last := f[..|f| - 1], f[|f| - 1];
      ShardIsCanonical(init, index, count);
      forall x <- Shard(init, index, count) ensures Less(x, last) {
        ShardMembers(init, index, count, x);
      }
    }
  }

  /** Shards of a canonical list are canonical, disjoint and cover it. */
  lemma ShardsPartition(f: seq<NodeId>, count: nat, i: nat, x: NodeId)
    requires Canonical(f) && i < count
    ensures Canonical(Shard(f, i, count))
    ensures x in Shard(f, i, count) ==> x in f
    ensures forall j :: 0 <= j < count && x in Shard(f, i, count) && x in Shard(f, j, count) ==> i == j
    ensures x in f ==> exists j :: 0 <= j < count && x in Shard(f, j, count)
  {
    ShardIsCanonical(f, i, count);
    CanonicalIsDistinct(f);
    ShardMembers(f, i, count, x);
    forall j | 0 <= j < count ensures x in Shard(f, i, count) && x in Shard(f, j, count) ==> i == j {
      ShardMembers(f, j, count, x);
    }
    if x in f {
      var p :| 0 <= p < |f| && f[p] == x;
      ShardMembers(f, p % count, count, x);
    }
  }

  // ----- Manifests -----

  function Join(f: seq<NodeId>): seq<Byte> {
    if f == [] then [] else if |f| == 1 then f[0] else f[0] + [NEWLINE] + Join(f[1..])
  }

  ghost predicate ValidIds(f: seq<NodeId>) {
    forall k :: 0 <= k < |f| ==> ValidId(f[k])
  }

  lemma NotShorter(a: NodeId, b: NodeId, r: seq<Byte>, s: seq<Byte>)
    requires NEWLINE !in b && a + r == b + s && (r == [] || r[0] == NEWLINE)
    ensures |a| >= |b|
  {
    assert |a| + |r| == |b| + |s|;
    assert r != [] ==> (a + r)[|a|] == NEWLINE;
  }

  lemma CutAtNewline(a: NodeId, b: NodeId, r: seq<Byte>, s: seq<Byte>)
    requires NEWLINE !in a && NEWLINE !in b && a + r == b + s
    requires (r == [] || r[0] == NEWLINE) && (s == [] || s[0] == NEWLINE)
    ensures a == b && r == s
  {
    NotShorter(a, b, r, s);
    NotShorter(b, a, s, r);
    assert a == (a + r)[..|a|] && b == (b + s)[..|b|];
    assert r == (a + r)[|a|..] && s == (b + s)[|b|..];
  }

  function Tail(f: seq<NodeId>): seq<Byte> {
    if |f| <= 1 then [] else [NEWLINE] + Join(f[1..])
  }

  ghost predicate Lines(f: seq<NodeId>) {
    forall k :: 0 <= k < |f| ==> f[k] != [] && NEWLINE !in f[k]
  }

  lemma ValidIdsAreLines(f: seq<NodeId>)
    requires ValidIds(f)
    ensures Lines(f)
  {
    forall k | 0 <= k < |f| ensures f[k] != [] && NEWLINE !in f[k] {
      assert ValidId(f[k]) && NEWLINE in CONTROLS;
    }
  }

  lemma JoinHead(f: seq<NodeId>)
    requires f != []
    ensures Join(f) == f[0] + Tail(f)
  {
    assert f[0] + [NEWLINE] + Join(f[1..]) == f[0] + ([NEWLINE] + Join(f[1..]));
  }

  lemma TailsAgree(f: seq<NodeId>, g: seq<NodeId>)
    requires f != [] && g != [] && Tail(f) == Tail(g)
    ensures Join(f[1..]) == Join(g[1..])
  {
    assert ([NEWLINE] + Join(f[1..]))[1..] == Join(f[1..]);
    assert ([NEWLINE] + Join(g[1..]))[1..] == Join(g[1..]);
  }

  lemma {:induction false} JoinedLines(f: seq<NodeId>, g: seq<NodeId>)
    requires Lines(f) && Lines(g) && Join(f) == Join(g)
    ensures f == g
  {
    if f != [] { JoinHead(f); }
    if g != [] { JoinHead(g); }
    if f != [] && g != [] {
      CutAtNewline(f[0], g[0], Tail(f), Tail(g));
      TailsAgree(f, g);
      JoinedLines(f[1..], g[1..]);
      assert f == [f[0]] + f[1..] && g == [g[0]] + g[1..];
    }
  }

  /** The newline-joined manifest payload determines the list of node ids. */
  lemma JoinIsInjective(f: seq<NodeId>, g: seq<NodeId>)
    requires ValidIds(f) && ValidIds(g) && Join(f) == Join(g)
    ensures f == g
  {
    ValidIdsAreLines(f);
    ValidIdsAreLines(g);
    JoinedLines(f, g);
  }
}
