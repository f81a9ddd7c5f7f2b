/** The two programs around the shards: a worker's selection and its evidence, and the verifier that
    accepts a full set of evidence. Up to the verifier's two size limits they accept exactly each other's
    output. */
module ShardEvidence {
  import opened Options
  import opened Shards

  type Digest = nat
  /** SHA-256 is a parameter: any function of the payload bytes. */
  type Hash = seq<Byte> -> Digest

  datatype Manifest = Malformed | Sha(digest: Digest)

  function ManifestOf(f: seq<NodeId>, h: Hash): Manifest { Sha(h(Join(f))) }

  datatype Selection = Selection(fullCount: int, selectedCount: int, fullManifest: Manifest,
                                 selectedManifest: Manifest, selected: seq<NodeId>)

  /** A field that should hold an integer; a boolean is none. */
  datatype Number = Int(value: int) | NotAnInt

  const MAX_EVIDENCE_BYTES := 8 * 1024 * 1024

  /** One evidence file: its size in bytes, and the fields of its object. */
  datatype Payload = Payload(bytes: nat, schemaOk: bool, sourceSha: string,
                             shardIndex: Number, shardCount: Number, minimumCount: Number,
                             fullCount: Number, selectedCount: Number, fullManifest: Manifest,
                             selectedManifest: Manifest, selected: seq<Raw>)

  predicate IsSourceSha(s: string) {
    |s| == 40 && forall c <- s :: '0' <= c <= '9' || 'a' <= c <= 'f'
  }

  function Bytes(r: Raw): NodeId { if r.Text? then r.bytes else [] }
  function Ids(raw: seq<Raw>): seq<NodeId> { seq(|raw|, k requires 0 <= k < |raw| => Bytes(raw[k])) }
  function Texts(ids: seq<NodeId>): seq<Raw> { seq(|ids|, k requires 0 <= k < |ids| => Text(ids[k])) }

  // ----- The worker -----

  predicate Collectable(raw: seq<Raw>) {
    forall k :: 0 <= k < |raw| ==> raw[k].Text? && ValidId(raw[k].bytes)
  }

  ghost predicate Selectable(raw: seq<Raw>, index: int, count: int, minimum: int) {
    && 0 <= index < count && minimum >= 0
    && Collectable(raw) && Distinct(Ids(raw)) && |raw| >= minimum
    && index < |raw|
  }

  function SelectionOf(f: seq<NodeId>, index: nat, count: nat, h: Hash): Selection
    requires index < count
  {
    var shard := Shard(f, index, count);
    Selection(|f|, |shard|, ManifestOf(f, h), ManifestOf(shard, h), shard)
  }

  /** None stands for the ValueError of the original. */
  method SelectNodeids(raw: seq<Raw>, index: int, count: int, minimum: int, h: Hash)
    returns (r: Option<Selection>)
    ensures r.Some? <==> Selectable(raw, index, count, minimum)
    ensures r.Some? ==> r.value == SelectionOf(Sorted(Ids(raw)), index, count, h)
  {
    if count <= 0 || index < 0 || index >= count || minimum < 0 { return None; }
    var validated: seq<NodeId> := [];
    for k := 0 to |raw|
      invariant Collectable(raw[..k]) && validated == Ids(raw[..k])
    {
      if !raw[k].Text? || !ValidId(raw[k].bytes) { return None; }
      validated := validated + [raw[k].bytes];
    }
    assert raw[..|raw|] == raw;
    if validated == [] || |validated| < minimum { return None; }
    var duplicate := exists i, j :: 0 <= i < j < |validated| && validated[i] == validated[j];
    if duplicate { return None; }
    var canonical := Sorted(validated);
    SortedIsCanonical(validated);
    ShardIsBalanced(canonical, index, count);
    ShardEmptyIff(|canonical|, index, count);
    var selected := Shard(canonical, index, count);
    if selected == [] { return None; }
    return Some(Selection(|canonical|, |selected|, ManifestOf(canonical, h), ManifestOf(selected, h), selected));
  }

  lemma ShardEmptyIff(n: nat, index: nat, count: nat)
    requires index < count
    ensures ShardSize(n, index, count) > 0 <==> index < n
  {
    var q, r := n / count, n % count;
    assert n == q * count + r;
    if n < count {
      QuotientIs(n, 0, n, count);
    } else {
      assert q == 0 ==> q * count == 0;
    }
  }

  /** What a worker writes, in a file of `bytes` bytes. */
  function Evidence(bytes: nat, sha: string, index: int, count: int, minimum: int, s: Selection): Payload {
    Payload(bytes, true, sha, Int(index), Int(count), Int(minimum), Int(s.fullCount), Int(s.selectedCount),
            s.fullManifest, s.selectedManifest, Texts(s.selected))
  }

  // ----- The verifier -----

  predicate ListedId(r: Raw) {
    r.Text? && ValidId(r.bytes) && |r.bytes| <= MAX_NODEID_BYTES
  }

  ghost predicate PayloadOk(p: Payload, index: int, sha: string, count: int, minimum: int, h: Hash) {
    && 0 < p.bytes <= MAX_EVIDENCE_BYTES
    && p.schemaOk && p.sourceSha == sha && IsSourceSha(sha)
    && p.shardIndex == Int(index) && p.shardCount == Int(count) && p.minimumCount == Int(minimum)
    && p.fullCount.Int? && p.fullCount.value >= minimum && p.fullCount.value > 0
    && p.selectedCount.Int? && p.selectedCount.value > 0
    && p.fullManifest.Sha?
    && (forall k :: 0 <= k < |p.selected| ==> ListedId(p.selected[k]))
    && Canonical(Ids(p.selected))
    && p.selectedCount == Int(|p.selected|)
    && p.selectedManifest == ManifestOf(Ids(p.selected), h)
  }

  method ValidatePayload(p: Payload, index: int, sha: string, count: int, minimum: int, h: Hash) returns (ok: bool)
    ensures ok <==> PayloadOk(p, index, sha, count, minimum, h)
  {
    if p.bytes <= 0 || p.bytes > MAX_EVIDENCE_BYTES { return false; }
    if !p.schemaOk || !IsSourceSha(p.sourceSha) || p.sourceSha != sha { return false; }
    if p.shardIndex.NotAnInt? || p.shardCount.NotAnInt? || p.minimumCount.NotAnInt? { return false; }
    if p.fullCount.NotAnInt? || p.selectedCount.NotAnInt? { return false; }
    if p.shardIndex.value != index || p.shardCount.value != count || p.minimumCount.value != minimum { return false; }
    if p.fullCount.value < p.minimumCount.value || p.fullCount.value <= 0 || p.selectedCount.value <= 0 {
      return false;
    }
    if p.fullManifest.Malformed? || p.selectedManifest.Malformed? { return false; }
    if exists k :: 0 <= k < |p.selected| && !ListedId(p.selected[k]) { return false; }
    var selected := Ids(p.selected);
    SortedTest(selected);
    var duplicate := exists i, j :: 0 <= i < j < |selected| && selected[i] == selected[j];
    if selected != Sorted(selected) || duplicate { return false; }
    return p.selectedCount.value == |selected| && p.selectedManifest == ManifestOf(selected, h);
  }

  function Union(payloads: seq<Payload>): set<NodeId> {
    if payloads == [] then {}
    else Union(payloads[..|payloads| - 1]) + Picked(payloads[|payloads| - 1])
  }

  function Picked(p: Payload): set<NodeId> { Elements(Ids(p.selected)) }

  ghost predicate DisjointAt(payloads: seq<Payload>, k: nat)
    requires k < |payloads|
  {
    Union(payloads[..k]) !! Picked(payloads[k])
  }

  ghost predicate DisjointLists(payloads: seq<Payload>) {
    forall k :: 0 <= k < |payloads| ==> DisjointAt(payloads, k)
  }

  /** The verifier's checks, one by one, on the payloads of all shard directories. */
  ghost predicate Consistent(payloads: seq<Payload>, sha: string, count: int, minimum: int, h: Hash,
                             full: seq<NodeId>) {
    && IsSourceSha(sha) && count > 0 && minimum >= 0 && |payloads| == count
    && (forall i :: 0 <= i < count ==> PayloadOk(payloads[i], i, sha, count, minimum, h))
    && (forall i :: 0 <= i < count ==> payloads[i].fullCount == payloads[0].fullCount)
    && (forall i :: 0 <= i < count ==> payloads[i].fullManifest == payloads[0].fullManifest)
    && (forall i :: 0 <= i < count ==>
          payloads[i].selectedCount == Int(ShardSize(payloads[0].fullCount.value, i, count)))
    && DisjointLists(payloads)
    && Canonical(full) && Elements(full) == Union(payloads)
    && Int(|full|) == payloads[0].fullCount && ManifestOf(full, h) == payloads[0].fullManifest
    && (forall i :: 0 <= i < count ==> Ids(payloads[i].selected) == Stride(full, i, count))
  }

  method SortUnion(union: set<NodeId>) returns (full: seq<NodeId>)
    ensures Canonical(full) && Elements(full) == union
  {
    full := [];
    var rest := union;
    while rest != {}
      invariant rest <= union && Canonical(full) && Elements(full) == union - rest
    {
      assert (forall y :: y !in rest) ==> rest == {};
      var x :| x in rest;
      InsertKeeps(x, full);
      full := Insert(x, full);
      rest := rest - {x};
    }
  }

  lemma FullIsUnique(payloads: seq<Payload>, sha: string, count: int, minimum: int, h: Hash, full: seq<NodeId>)
    requires Canonical(full) && Elements(full) == Union(payloads)
    ensures forall other :: Consistent(payloads, sha, count, minimum, h, other) ==> other == full
  {
    forall other | Consistent(payloads, sha, count, minimum, h, other) ensures other == full {
      CanonicalIsUnique(other, full);
    }
  }

  method CheckAll(payloads: seq<Payload>, sha: string, count: int, minimum: int, h: Hash) returns (ok: bool)
    requires |payloads| == count
    ensures ok <==> forall i :: 0 <= i < count ==> PayloadOk(payloads[i], i, sha, count, minimum, h)
  {
    for i := 0 to |payloads|
      invariant forall j :: 0 <= j < i ==> PayloadOk(payloads[j], j, sha, count, minimum, h)
    {
      var good := ValidatePayload(payloads[i], i, sha, count, minimum, h);
      if !good { return false; }
    }
    return true;
  }

  lemma UnionStep(payloads: seq<Payload>, i: nat)
    requires i < |payloads|
    ensures Union(payloads[..i + 1]) == Union(payloads[..i]) + Picked(payloads[i])
  {
    assert payloads[..i + 1][..i] == payloads[..i];
  }

  method GrowUnion(payloads: seq<Payload>) returns (ok: bool, union: set<NodeId>)
    ensures ok <==> DisjointLists(payloads)
    ensures ok ==> union == Union(payloads)
  {
    union := {};
    for i := 0 to |payloads|
      invariant union == Union(payloads[..i])
      invariant forall k :: 0 <= k < i ==> DisjointAt(payloads, k)
    {
      var selected := Picked(payloads[i]);
      assert DisjointAt(payloads, i) <==> union !! selected;
      if !(union !! selected) { return false, union; }
      UnionStep(payloads, i);
      union := union + selected;
    }
    assert payloads[..|payloads|] == payloads;
    return true, union;
  }

  /** None stands for ShardEvidenceError; Some carries the verified collection. */
  method VerifyShardArtifacts(payloads: seq<Payload>, sha: string, count: int, minimum: int, h: Hash)
    returns (r: Option<seq<NodeId>>)
    ensures r.Some? ==> Consistent(payloads, sha, count, minimum, h, r.value)
    ensures r.None? ==> forall full :: !Consistent(payloads, sha, count, minimum, h, full)
  {
    if !IsSourceSha(sha) || count <= 0 || minimum < 0 || |payloads| != count { return None; }
    var good := CheckAll(payloads, sha, count, minimum, h);
    if !good { return None; }
    var fullCount, fullManifest := payloads[0].fullCount, payloads[0].fullManifest;
    if exists i :: 0 <= i < count && payloads[i].fullCount != fullCount { return None; }
    if exists i :: 0 <= i < count && payloads[i].fullManifest != fullManifest { return None; }
    assert PayloadOk(payloads[0], 0, sha, count, minimum, h);
    assert forall i :: 0 <= i < count ==> PayloadOk(payloads[i], i, sha, count, minimum, h);
    if exists i :: 0 <= i < count && payloads[i].selectedCount.value != ShardSize(fullCount.value, i, count) {
      return None;
    }
    var disjoint, union := GrowUnion(payloads);
    if !disjoint { return None; }
    var full := SortUnion(union);
    FullIsUnique(payloads, sha, count, minimum, h, full);
    if |full| != fullCount.value || ManifestOf(full, h) != fullManifest { return None; }
    if exists i :: 0 <= i < count && Ids(payloads[i].selected) != Stride(full, i, count) { return None; }
    return Some(full);
  }

  // ----- They accept exactly each other's output -----

  /** The payloads are what `count` workers write about one canonical collection. */
  ghost predicate Honest(payloads: seq<Payload>, sha: string, count: int, minimum: int, h: Hash, full: seq<NodeId>) {
    && IsSourceSha(sha) && count > 0 && minimum >= 0
    && Canonical(full) && ValidIds(full) && |full| >= minimum && |full| >= count
    && |payloads| == count
    && forall i :: 0 <= i < count ==> WrittenBy(payloads[i], sha, i, count, minimum, h, full)
  }

  /** The file the i-th worker writes, whatever its size, which is not zero. */
  ghost predicate WrittenBy(p: Payload, sha: string, i: nat, count: nat, minimum: int, h: Hash, full: seq<NodeId>)
    requires i < count
  {
    p.bytes > 0 && p == Evidence(p.bytes, sha, i, count, minimum, SelectionOf(full, i, count, h))
  }

  /** Every evidence file fits the verifier's limit. */
  ghost predicate SmallFiles(payloads: seq<Payload>) {
    forall i :: 0 <= i < |payloads| ==> payloads[i].bytes <= MAX_EVIDENCE_BYTES
  }

  ghost predicate ShortIds(full: seq<NodeId>) {
    forall k :: 0 <= k < |full| ==> |full[k]| <= MAX_NODEID_BYTES
  }

  lemma IdsOfTexts(ids: seq<NodeId>)
    ensures Ids(Texts(ids)) == ids
  {
  }

  lemma TextsOfIds(raw: seq<Raw>)
    requires forall k :: 0 <= k < |raw| ==> raw[k].Text?
    ensures Texts(Ids(raw)) == raw
  {
  }

  lemma {:induction false} InUnion(payloads: seq<Payload>, x: NodeId)
    ensures x in Union(payloads) <==> exists i :: 0 <= i < |payloads| && x in Ids(payloads[i].selected)
  {
    if payloads != [] {
      var init := payloads[..|payloads| - 1];
      InUnion(init, x);
      assert forall i :: 0 <= i < |init| ==> init[i] == payloads[i];
      if exists i :: 0 <= i < |payloads| && x in Ids(payloads[i].selected) {
        var i :| 0 <= i < |payloads| && x in Ids(payloads[i].selected);
        if i < |init| { assert x in Ids(init[i].selected); }
      }
    }
  }

  lemma ListedIds(p: Payload, index: int, sha: string, count: int, minimum: int, h: Hash, x: NodeId)
    requires PayloadOk(p, index, sha, count, minimum, h) && x in Ids(p.selected)
    ensures ValidId(x) && |x| <= MAX_NODEID_BYTES
  {
    var j :| 0 <= j < |p.selected| && Ids(p.selected)[j] == x;
    assert ListedId(p.selected[j]);
  }

  lemma ConsistentIds(payloads: seq<Payload>, sha: string, count: int, minimum: int, h: Hash, full: seq<NodeId>)
    requires Consistent(payloads, sha, count, minimum, h, full)
    ensures ValidIds(full) && ShortIds(full)
  {
    forall k | 0 <= k < |full| ensures ValidId(full[k]) && |full[k]| <= MAX_NODEID_BYTES {
      assert full[k] in Elements(full);
      InUnion(payloads, full[k]);
      var i :| 0 <= i < count && full[k] in Ids(payloads[i].selected);
      ListedIds(payloads[i], i, sha, count, minimum, h, full[k]);
    }
  }

  lemma ConsistentShard(payloads: seq<Payload>, sha: string, count: int, minimum: int, h: Hash, full: seq<NodeId>,
                        i: nat)
    requires Consistent(payloads, sha, count, minimum, h, full) && i < count
    ensures WrittenBy(payloads[i], sha, i, count, minimum, h, full) && payloads[i].bytes <= MAX_EVIDENCE_BYTES
    ensures 0 < ShardSize(|full|, i, count)
  {
    assert PayloadOk(payloads[i], i, sha, count, minimum, h);
    StrideIsShard(full, i, count);
    assert forall k :: 0 <= k < |payloads[i].selected| ==> ListedId(payloads[i].selected[k]);
    TextsOfIds(payloads[i].selected);
  }

  /** Soundness: accepted evidence is the evidence of one sorted, duplicate-free list, shard by shard. */
  lemma AcceptedIsHonest(payloads: seq<Payload>, sha: string, count: int, minimum: int, h: Hash, full: seq<NodeId>)
    requires Consistent(payloads, sha, count, minimum, h, full)
    ensures Honest(payloads, sha, count, minimum, h, full) && ShortIds(full) && SmallFiles(payloads)
  {
    forall i | 0 <= i < count
      ensures WrittenBy(payloads[i], sha, i, count, minimum, h, full) && payloads[i].bytes <= MAX_EVIDENCE_BYTES
    {
      ConsistentShard(payloads, sha, count, minimum, h, full, i);
    }
    ConsistentIds(payloads, sha, count, minimum, h, full);
    ConsistentShard(payloads, sha, count, minimum, h, full, count - 1);
    ShardEmptyIff(|full|, count - 1, count);
    assert PayloadOk(payloads[0], 0, sha, count, minimum, h);
  }

  lemma HonestPayloadOk(p: Payload, i: nat, sha: string, count: nat, minimum: int, h: Hash, full: seq<NodeId>)
    requires IsSourceSha(sha) && i < count && minimum >= 0
    requires Canonical(full) && ValidIds(full) && ShortIds(full) && |full| >= minimum && |full| >= count
    requires WrittenBy(p, sha, i, count, minimum, h, full) && p.bytes <= MAX_EVIDENCE_BYTES
    ensures PayloadOk(p, i, sha, count, minimum, h) && Ids(p.selected) == Shard(full, i, count)
  {
    var shard := Shard(full, i, count);
    IdsOfTexts(shard);
    ShardIsCanonical(full, i, count);
    ShardIsBalanced(full, i, count);
    ShardEmptyIff(|full|, i, count);
    forall k | 0 <= k < |p.selected| ensures ListedId(p.selected[k]) {
      ShardMembers(full, i, count, shard[k]);
      var q :| 0 <= q < |full| && full[q] == shard[k];
      assert ValidId(full[q]) && |full[q]| <= MAX_NODEID_BYTES;
    }
  }

  lemma HonestUnion(payloads: seq<Payload>, count: nat, full: seq<NodeId>)
    requires Canonical(full) && count > 0 && |payloads| == count
    requires forall i :: 0 <= i < count ==> Ids(payloads[i].selected) == Shard(full, i, count)
    ensures Union(payloads) == Elements(full) && DisjointLists(payloads)
  {
    forall x ensures x in Union(payloads) <==> x in full {
      InUnion(payloads, x);
      ShardsPartition(full, count, 0, x);
      if x in Union(payloads) {
        var i :| 0 <= i < count && x in Ids(payloads[i].selected);
        ShardsPartition(full, count, i, x);
      }
      if x in full {
        var j :| 0 <= j < count && x in Shard(full, j, count);
        assert x in Ids(payloads[j].selected);
      }
    }
    forall k | 0 <= k < count ensures DisjointAt(payloads, k) {
      forall x ensures x !in Union(payloads[..k]) || x !in Ids(payloads[k].selected) {
        InUnion(payloads[..k], x);
        if x in Union(payloads[..k]) {
          var i :| 0 <= i < k && x in Ids(payloads[..k][i].selected);
          ShardsPartition(full, count, i, x);
        }
      }
    }
  }

  /** Completeness, exactly: honest evidence is accepted if and only if no node id is longer than 8192 bytes and
      no file than 8 MiB. The selector has no such limits, so the two programs differ there. */
  lemma HonestIsAccepted(payloads: seq<Payload>, sha: string, count: int, minimum: int, h: Hash, full: seq<NodeId>)
    requires Honest(payloads, sha, count, minimum, h, full)
    ensures ShortIds(full) && SmallFiles(payloads) <==> exists f :: Consistent(payloads, sha, count, minimum, h, f)
  {
    if ShortIds(full) && SmallFiles(payloads) {
      forall i | 0 <= i < count
        ensures PayloadOk(payloads[i], i, sha, count, minimum, h)
        ensures Ids(payloads[i].selected) == Shard(full, i, count) == Stride(full, i, count)
        ensures payloads[i].selectedCount == Int(ShardSize(|full|, i, count))
      {
        assert WrittenBy(payloads[i], sha, i, count, minimum, h, full);
        HonestPayloadOk(payloads[i], i, sha, count, minimum, h, full);
        StrideIsShard(full, i, count);
        ShardIsBalanced(full, i, count);
      }
      HonestUnion(payloads, count, full);
      assert Consistent(payloads, sha, count, minimum, h, full);
    } else if exists f :: Consistent(payloads, sha, count, minimum, h, f) {
      var f :| Consistent(payloads, sha, count, minimum, h, f);
      AcceptedIsHonest(payloads, sha, count, minimum, h, f);
      SameShardsSameList(full, f, count, payloads, sha, minimum, h);
    }
  }

  lemma SameShardsSameList(f: seq<NodeId>, g: seq<NodeId>, count: nat, payloads: seq<Payload>, sha: string,
                           minimum: int, h: Hash)
    requires Honest(payloads, sha, count, minimum, h, f) && Honest(payloads, sha, count, minimum, h, g)
    ensures f == g
  {
    forall i | 0 <= i < count
      ensures Ids(payloads[i].selected) == Shard(f, i, count) == Shard(g, i, count)
    {
      assert WrittenBy(payloads[i], sha, i, count, minimum, h, f);
      assert WrittenBy(payloads[i], sha, i, count, minimum, h, g);
      IdsOfTexts(Shard(f, i, count));
      IdsOfTexts(Shard(g, i, count));
    }
    HonestUnion(payloads, count, f);
    HonestUnion(payloads, count, g);
    CanonicalIsUnique(f, g);
  }

  /** Workers may see the collection in any order: equal collections give one canonical list. */
  lemma AnyOrderSameList(a: seq<Raw>, b: seq<Raw>)
    requires Distinct(Ids(a)) && Distinct(Ids(b)) && Elements(Ids(a)) == Elements(Ids(b))
    ensures Sorted(Ids(a)) == Sorted(Ids(b))
  {
    SortedIsCanonical(Ids(a));
    SortedIsCanonical(Ids(b));
    CanonicalIsUnique(Sorted(Ids(a)), Sorted(Ids(b)));
  }

  /** What `count` workers write, each from its own ordering of one valid collection, is honest evidence. */
  lemma WorkersAreHonest(orders: seq<seq<Raw>>, sha: string, minimum: int, h: Hash, payloads: seq<Payload>)
    requires orders != [] && IsSourceSha(sha) && |payloads| == |orders|
    requires forall i :: 0 <= i < |orders| ==> Selectable(orders[i], i, |orders|, minimum)
    requires forall i :: 0 <= i < |orders| ==> Elements(Ids(orders[i])) == Elements(Ids(orders[0]))
    requires forall i :: 0 <= i < |orders| ==>
      WrittenBy(payloads[i], sha, i, |orders|, minimum, h, Sorted(Ids(orders[i])))
    ensures Honest(payloads, sha, |orders|, minimum, h, Sorted(Ids(orders[0])))
  {
    var count, full := |orders|, Sorted(Ids(orders[0]));
    assert Selectable(orders[0], 0, count, minimum) && Selectable(orders[count - 1], count - 1, count, minimum);
    SortedIsCanonical(Ids(orders[0]));
    AnyOrderSameList(orders[0], orders[count - 1]);
    SortedIsCanonical(Ids(orders[count - 1]));
    forall k | 0 <= k < |full| ensures ValidId(full[k]) {
      assert full[k] in Elements(Ids(orders[0]));
      var j :| 0 <= j < |orders[0]| && Ids(orders[0])[j] == full[k];
      assert ValidId(orders[0][j].bytes);
    }
    forall i | 0 <= i < count
      ensures WrittenBy(payloads[i], sha, i, count, minimum, h, full)
    {
      assert Selectable(orders[i], i, count, minimum);
      AnyOrderSameList(orders[0], orders[i]);
    }
  }

  /** With a collision-free hash the full manifest alone pins down the collection. */
  lemma ManifestBinds(f: seq<NodeId>, g: seq<NodeId>, h: Hash)
    requires ValidIds(f) && ValidIds(g) && ManifestOf(f, h) == ManifestOf(g, h)
    requires forall x, y :: h(x) == h(y) ==> x == y
    ensures f == g
  {
    JoinIsInjective(f, g);
  }
}
