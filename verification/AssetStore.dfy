/** The bounded asset store: queued imports, lifecycle records and exact byte accounting (store.rs). */
module AssetStore {
  import opened Machine

  /** A 256-bit content hash. */
  type Hash = nat

  datatype Decoded = Decoded(bytes: nat, meshes: nat, textures: nat)

  datatype Diagnostic = AssetTooLarge | ResidentFull | DecodeFailed(code: nat, permitsProxy: bool)

  datatype State = Queued | Ready | ProxyReady | Rejected

  datatype Record = Record(
    state: State, sourceBytes: nat, decodedBytes: nat, meshCount: nat, diagnostic: Option<Diagnostic>,
    decoded: Option<Decoded>)

  datatype Import = Import(hash: Hash, source: seq<Byte>)

  datatype Limits = Limits(
    maxSourceBytes: NonZero64, maxAssets: NonZero32, maxPendingImports: NonZero32, maxPendingSourceBytes: NonZero64,
    maxAssetDecodedBytes: NonZero64, maxResidentCpuBytes: NonZero64)

  /** Hashing, decoding, the proxy asset and whether unsupported assets get it. */
  datatype Library = Library(
    contentHash: seq<Byte> -> Hash, decode: seq<Byte> -> Result<Decoded, Diagnostic>, proxy: Decoded,
    proxyAllowed: bool)

  datatype Admission = NowQueued | AlreadyKnown(state: State)

  datatype AssetError =
    | SourceSizeExceeded(actual: nat, limit: nat)
    | ContentHashMismatch(found: Hash)
    | RecordCapacityExceeded(capacity: nat)
    | ImportCapacityExceeded(capacity: nat)
    | PendingSourceBytesExceeded(actual: nat, limit: nat)

  datatype Outcome = Outcome(hash: Hash, state: State, meshCount: nat)

  datatype Eviction = Eviction(
    previousState: Option<State>, removedImports: nat, releasedSourceBytes: nat, releasedCpuBytes: nat,
    removedMeshes: nat, removedTextures: nat)

  // ----- exact totals -----

  function SourceBytes(i: Import): nat { |i.source| }

  function PendingTotal(pending: seq<Import>): nat { Sum(pending, SourceBytes) }

  function BytesAt(records: map<Hash, Record>, h: Hash): nat { if h in records then records[h].decodedBytes else 0 }

  /** Decoded bytes of all records. */
  ghost function ResidentTotal(records: map<Hash, Record>): nat {
    if records == map[] then 0
    else
      var h :| h in records;
      BytesAt(records, h) + ResidentTotal(records - {h})
  }

  /** The total does not depend on the order in which records are counted. */
  lemma {:induction false} ResidentWithout(records: map<Hash, Record>, h: Hash)
    ensures ResidentTotal(records) == BytesAt(records, h) + ResidentTotal(records - {h})
    decreases |records|
  {
    if h !in records {
      assert records - {h} == records;
    } else {
      var k :| k in records && ResidentTotal(records) == BytesAt(records, k) + ResidentTotal(records - {k});
      if k != h {
        ResidentWithout(records - {k}, h);
        ResidentWithout(records - {h}, k);
        assert (records - {k}) - {h} == (records - {h}) - {k};
        assert BytesAt(records - {k}, h) == BytesAt(records, h) && BytesAt(records - {h}, k) == BytesAt(records, k);
      }
    }
  }

  lemma {:induction false} ResidentUpdate(records: map<Hash, Record>, h: Hash, r: Record)
    ensures ResidentTotal(records[h := r]) + BytesAt(records, h) == ResidentTotal(records) + r.decodedBytes
  {
    ResidentWithout(records, h);
    ResidentWithout(records[h := r], h);
    assert records[h := r] - {h} == records - {h};
  }

  // ----- the queue and the records -----

  function HashesOf(pending: seq<Import>): seq<Hash> {
    seq(|pending|, i requires 0 <= i < |pending| => pending[i].hash)
  }

  /** How often each hash is queued. */
  function Bag(pending: seq<Import>): multiset<Hash> { multiset(HashesOf(pending)) }

  lemma BagSplit(front: seq<Import>, back: seq<Import>)
    ensures Bag(front + back) == Bag(front) + Bag(back)
  {
    assert HashesOf(front + back) == HashesOf(front) + HashesOf(back);
  }

  lemma BagPush(front: seq<Import>, i: Import)
    ensures Bag(front + [i]) == Bag(front) + multiset{i.hash}
  {
    assert HashesOf(front + [i]) == HashesOf(front) + [i.hash];
  }

  /** The number of queued imports a record stands for. */
  function Stands(records: map<Hash, Record>, h: Hash): nat {
    if h in records && records[h].state == Queued then 1 else 0
  }

  /** A hash is queued exactly once if its record is in state `Queued`, and otherwise not at all. */
  ghost predicate QueueMatches(pending: seq<Import>, records: map<Hash, Record>) {
    forall h: Hash :: Bag(pending)[h] == Stands(records, h)
  }

  /** A record is queued without content, ready with its exact content, or rejected without content. */
  predicate WellFormed(r: Record) {
    match r.state
    case Queued => r.decodedBytes == 0 && r.meshCount == 0 && r.decoded.None? && r.diagnostic.None?
    case Rejected => r.decodedBytes == 0 && r.meshCount == 0 && r.decoded.None? && r.diagnostic.Some?
    case _ => r.decoded.Some? && r.decodedBytes == r.decoded.value.bytes && r.meshCount == Sat32(r.decoded.value.meshes)
  }

  ghost predicate RecordsWellFormed(records: map<Hash, Record>) {
    forall h | h in records :: WellFormed(records[h])
  }

  /** The imports of one hash, and the others in order. */
  function Only(pending: seq<Import>, h: Hash): seq<Import> {
    if pending == [] then []
    else
      var n := |pending| - 1;
      if pending[n].hash == h then Only(pending[..n], h) + [pending[n]] else Only(pending[..n], h)
  }

  function Without(pending: seq<Import>, h: Hash): seq<Import> {
    if pending == [] then []
    else
      var n := |pending| - 1;
      if pending[n].hash == h then Without(pending[..n], h) else Without(pending[..n], h) + [pending[n]]
  }

  lemma {:induction false} PartitionTotals(pending: seq<Import>, h: Hash)
    ensures PendingTotal(pending) == PendingTotal(Without(pending, h)) + PendingTotal(Only(pending, h))
    ensures |pending| == |Without(pending, h)| + |Only(pending, h)|
  {
    if pending != [] {
      var n := |pending| - 1;
      var front, last := pending[..n], pending[n];
      PartitionTotals(front, h);
      assert pending == front + [last];
      SumPush(front, last, SourceBytes);
      if last.hash == h {
        SumPush(Only(front, h), last, SourceBytes);
      } else {
        SumPush(Without(front, h), last, SourceBytes);
      }
    }
  }

  lemma {:induction false} PartitionBag(pending: seq<Import>, h: Hash)
    ensures Bag(Without(pending, h)) == Bag(pending)[h := 0] && |Only(pending, h)| == Bag(pending)[h]
  {
    if pending == [] {
      assert HashesOf(pending) == [];
    } else {
      var n := |pending| - 1;
      var front, last := pending[..n], pending[n];
      PartitionBag(front, h);
      assert pending == front + [last];
      BagPush(front, last);
      if last.hash != h { BagPush(Without(front, h), last); }
    }
  }

  ghost predicate Queueable(i: Import, limits: Limits, library: Library) {
    |i.source| <= limits.maxSourceBytes && library.contentHash(i.source) == i.hash
  }

  /** Both recorded totals are the exact sums, every capacity holds, and queue and records agree. */
  ghost predicate Consistent(
    limits: Limits, library: Library, pending: seq<Import>, records: map<Hash, Record>, source: nat, resident: nat)
  {
    && source == PendingTotal(pending) <= limits.maxPendingSourceBytes
    && resident == ResidentTotal(records) <= limits.maxResidentCpuBytes
    && |records| <= limits.maxAssets && |pending| <= limits.maxPendingImports
    && QueueMatches(pending, records) && RecordsWellFormed(records)
    && AllQueueable(pending, limits, library)
  }

  ghost predicate AllQueueable(pending: seq<Import>, limits: Limits, library: Library) {
    forall i | 0 <= i < |pending| :: Queueable(pending[i], limits, library)
  }

  lemma FrontIsQueued(pending: seq<Import>, records: map<Hash, Record>)
    requires QueueMatches(pending, records) && pending != []
    ensures pending[0].hash in records && records[pending[0].hash].state == Queued
    ensures forall h: Hash :: Bag(pending[1..])[h] == (if h == pending[0].hash then 0 else Stands(records, h))
  {
    BagSplit([pending[0]], pending[1..]);
    assert [pending[0]] + pending[1..] == pending;
    BagPush([], pending[0]);
    assert [] + [pending[0]] == [pending[0]] && HashesOf([]) == [];
    assert Bag(pending)[pending[0].hash] >= 1;
  }

  function Rejection(r: Record, d: Diagnostic): Record {
    r.(state := Rejected, decodedBytes := 0, meshCount := 0, diagnostic := Some(d), decoded := None)
  }

  /** What processing an import makes of its record. */
  function Processed(limits: Limits, library: Library, r: Record, source: seq<Byte>, resident: nat): Record {
    var decoded := library.decode(source);
    if decoded.Err? && !(decoded.error.DecodeFailed? && decoded.error.permitsProxy && library.proxyAllowed) then
      Rejection(r, decoded.error)
    else
      var content := if decoded.Ok? then decoded.value else library.proxy;
      if content.bytes > limits.maxAssetDecodedBytes then Rejection(r, AssetTooLarge)
      else if Sat64(resident + content.bytes) > limits.maxResidentCpuBytes then Rejection(r, ResidentFull)
      else
        r.(state := if decoded.Ok? then Ready else ProxyReady, decodedBytes := content.bytes,
           meshCount := Sat32(content.meshes), diagnostic := if decoded.Ok? then None else Some(decoded.error),
           decoded := Some(content))
  }

  /** The sum fits its limit; the 64-bit maximum is no limit, because the sum saturates. */
  predicate Within(total: nat, limit: nat) { total <= limit || limit == U64_MAX }

  predicate Fits(limits: Limits, content: Decoded, resident: nat) {
    content.bytes <= limits.maxAssetDecodedBytes && Within(resident + content.bytes, limits.maxResidentCpuBytes)
  }

  /** The record carries exactly this content. */
  predicate Holds(r: Record, content: Decoded) {
    r.decoded == Some(content) && r.decodedBytes == content.bytes && r.meshCount == Min(content.meshes, 0xFFFF_FFFF)
  }

  /** A decoding failure for which the proxy may stand in. */
  predicate Substitutable(library: Library, d: Diagnostic) {
    d.DecodeFailed? && d.permitsProxy && library.proxyAllowed
  }

  /**
   * Ready exactly for decodable content that fits, a proxy exactly for permitted failures, otherwise rejected and
   * empty; the record then holds exactly that content, and the first reason it is not ready.
   */
  lemma ProcessedExactly(limits: Limits, library: Library, r: Record, source: seq<Byte>, resident: nat)
    ensures var after, decoded := Processed(limits, library, r, source, resident), library.decode(source);
      && WellFormed(after) && !after.state.Queued? && after.sourceBytes == r.sourceBytes
      && (after.state.Ready? <==> decoded.Ok? && Fits(limits, decoded.value, resident))
      && (after.state.ProxyReady? <==>
          decoded.Err? && Substitutable(library, decoded.error) && Fits(limits, library.proxy, resident))
      && (after.state.Ready? ==> after.diagnostic.None? && Holds(after, decoded.value))
      && (after.state.ProxyReady? ==> after.diagnostic == Some(decoded.error) && Holds(after, library.proxy))
      && (after.state.Rejected? ==>
          && after.decoded.None? && after.decodedBytes == after.meshCount == 0
          && after.diagnostic == Some(
               if decoded.Err? && !Substitutable(library, decoded.error) then decoded.error
               else if (if decoded.Ok? then decoded.value else library.proxy).bytes > limits.maxAssetDecodedBytes
               then AssetTooLarge else ResidentFull))
  {
  }

  /** Why an import is refused, in the order of the checks. */
  function Refusal(
    limits: Limits, library: Library, pending: seq<Import>, records: map<Hash, Record>, expected: Hash,
    source: seq<Byte>)
    : Option<AssetError>
  {
    var total := PendingTotal(pending) + |source|;
    if |source| > limits.maxSourceBytes then Some(SourceSizeExceeded(|source|, limits.maxSourceBytes))
    else if library.contentHash(source) != expected then Some(ContentHashMismatch(library.contentHash(source)))
    else if expected in records then None
    else if |records| >= limits.maxAssets then Some(RecordCapacityExceeded(limits.maxAssets))
    else if |pending| >= limits.maxPendingImports then Some(ImportCapacityExceeded(limits.maxPendingImports))
    else if !Within(total, limits.maxPendingSourceBytes) then
      Some(PendingSourceBytesExceeded(Sat64(total), limits.maxPendingSourceBytes))
    else None
  }

  /** A verified source within the size limit that is not known yet. */
  predicate NewSource(
    limits: Limits, library: Library, records: map<Hash, Record>, expected: Hash, source: seq<Byte>)
  {
    |source| <= limits.maxSourceBytes && library.contentHash(source) == expected && expected !in records
  }

  /** Exactly when an import is refused for each reason. */
  lemma {:induction false} RefusedExactly(
    limits: Limits, library: Library, pending: seq<Import>, records: map<Hash, Record>, expected: Hash,
    source: seq<Byte>)
    ensures var r := Refusal(limits, library, pending, records, expected, source);
      var unknown := NewSource(limits, library, records, expected, source);
      var found, total := library.contentHash(source), PendingTotal(pending) + |source|;
      && (r == Some(SourceSizeExceeded(|source|, limits.maxSourceBytes)) <==> |source| > limits.maxSourceBytes)
      && (r == Some(ContentHashMismatch(found)) <==> |source| <= limits.maxSourceBytes && found != expected)
      && (r == Some(RecordCapacityExceeded(limits.maxAssets)) <==> unknown && |records| >= limits.maxAssets)
      && (r == Some(ImportCapacityExceeded(limits.maxPendingImports)) <==>
          unknown && |records| < limits.maxAssets && |pending| >= limits.maxPendingImports)
      && (r == Some(PendingSourceBytesExceeded(Min(total, U64_MAX), limits.maxPendingSourceBytes)) <==>
          && unknown && |records| < limits.maxAssets && |pending| < limits.maxPendingImports
          && limits.maxPendingSourceBytes < Min(total, U64_MAX))
      && (r.None? <==>
          && |source| <= limits.maxSourceBytes && found == expected
          && (expected in records ||
              (|records| < limits.maxAssets && |pending| < limits.maxPendingImports
               && Min(total, U64_MAX) <= limits.maxPendingSourceBytes)))
  {
  }

  function Textures(r: Record): nat { if r.decoded.Some? then r.decoded.value.textures else 0 }

  class Store {
    const limits: Limits
    const library: Library
    var pending: seq<Import>
    var records: map<Hash, Record>
    var pendingSourceBytes: nat
    var residentCpuBytes: nat

    ghost predicate Valid() reads this {
      Consistent(limits, library, pending, records, pendingSourceBytes, residentCpuBytes)
    }

    constructor (limits: Limits, library: Library)
      ensures Valid() && pending == [] && records == map[] && this.limits == limits && this.library == library
    {
      this.limits, this.library := limits, library;
      pending, records, pendingSourceBytes, residentCpuBytes := [], map[], 0, 0;
    }

    /** Queues a new verified source once; a known hash and every refusal leave the store as it was. */
    method Enqueue(expected: Hash, source: seq<Byte>) returns (r: Result<Admission, AssetError>)
      requires Valid()
      modifies this
      ensures r.Err? <==> Refusal(limits, library, old(pending), old(records), expected, source).Some?
      ensures r.Err? ==> r.error == Refusal(limits, library, old(pending), old(records), expected, source).value
      ensures r.Ok? && expected in old(records) ==> r.value == AlreadyKnown(old(records)[expected].state)
      ensures r.Ok? && expected !in old(records) ==>
        r.value == NowQueued && pending == old(pending) + [Import(expected, source)]
        && records == old(records)[expected := Record(Queued, |source|, 0, 0, None, None)]
        && pendingSourceBytes == Sat64(PendingTotal(pending))
      ensures r.Err? || expected in old(records) ==>
        pending == old(pending) && records == old(records) && pendingSourceBytes == old(pendingSourceBytes)
      ensures residentCpuBytes == old(residentCpuBytes)
      ensures Valid() <==> PendingTotal(pending) <= U64_MAX
      ensures limits.maxPendingSourceBytes < U64_MAX ==> Valid()
    {
      if |source| > limits.maxSourceBytes { return Err(SourceSizeExceeded(|source|, limits.maxSourceBytes)); }
      var actual := library.contentHash(source);
      if actual != expected { return Err(ContentHashMismatch(actual)); }
      if expected in records { return Ok(AlreadyKnown(records[expected].state)); }
      if |records| >= limits.maxAssets { return Err(RecordCapacityExceeded(limits.maxAssets)); }
      if |pending| >= limits.maxPendingImports { return Err(ImportCapacityExceeded(limits.maxPendingImports)); }
      var projected := Sat64(pendingSourceBytes + |source|);
      if projected > limits.maxPendingSourceBytes {
        return Err(PendingSourceBytesExceeded(projected, limits.maxPendingSourceBytes));
      }
      SumPush(pending, Import(expected, source), SourceBytes);
      if pendingSourceBytes + |source| <= U64_MAX { EnqueueKeeps(limits, library, pending, records, expected, source); }
      records := records[expected := Record(Queued, |source|, 0, 0, None, None)];
      pending := pending + [Import(expected, source)];
      pendingSourceBytes := projected;
      return Ok(NowQueued);
    }

    /** Decodes the oldest import; its source is released, and its record becomes ready or rejected. */
    method ProcessNext() returns (r: Option<Outcome>)
      requires Valid()
      modifies this
      ensures r.None? <==> old(pending) == []
      ensures r.None? ==> pending == old(pending) && records == old(records)
      ensures r.Some? ==>
        var first := old(pending)[0];
        && first.hash in old(records)
        && pending == old(pending)[1..]
        && records == old(records)[first.hash :=
             Processed(limits, library, old(records)[first.hash], first.source, old(residentCpuBytes))]
        && r.value == Outcome(first.hash, records[first.hash].state, records[first.hash].meshCount)
        && pendingSourceBytes + |first.source| == old(pendingSourceBytes)
        && residentCpuBytes == Sat64(old(residentCpuBytes) + records[first.hash].decodedBytes)
      ensures residentCpuBytes == Sat64(ResidentTotal(records))
      ensures Valid() <==> ResidentTotal(records) <= U64_MAX
      ensures limits.maxResidentCpuBytes < U64_MAX ==> Valid()
    {
      if pending == [] { return None; }
      var first := pending[0];
      ProcessKeeps(limits, library, pending, records, pendingSourceBytes, residentCpuBytes);
      pending := pending[1..];
      pendingSourceBytes := SatSub(pendingSourceBytes, |first.source|);
      var record := Processed(limits, library, records[first.hash], first.source, residentCpuBytes);
      records := records[first.hash := record];
      residentCpuBytes := Sat64(residentCpuBytes + record.decodedBytes);
      return Some(Outcome(first.hash, record.state, record.meshCount));
    }

    /** Removes all state of one hash; the totals lose exactly what is reported, and no subtraction can fail. */
    method Evict(hash: Hash) returns (r: Eviction)
      requires Valid()
      modifies this
      ensures Valid()
      ensures pending == Without(old(pending), hash) && records == old(records) - {hash}
      ensures old(pendingSourceBytes) == pendingSourceBytes + r.releasedSourceBytes
      ensures old(residentCpuBytes) == residentCpuBytes + r.releasedCpuBytes
      ensures |old(pending)| == |pending| + r.removedImports && r.removedImports == old(Stands(records, hash))
      ensures r.previousState == (if hash in old(records) then Some(old(records)[hash].state) else None)
      ensures hash in old(records) ==>
        && r.removedMeshes == old(records)[hash].meshCount
        && r.removedTextures == Textures(old(records)[hash])
    {
      EvictKeeps(limits, library, pending, records, pendingSourceBytes, residentCpuBytes, hash);
      if hash !in records {
        AllKept(pending, hash);
        assert records - {hash} == records;
        return Eviction(None, 0, 0, 0, 0, 0);
      }
      var stored := records[hash];
      var kept, removed, released := Retain(pending, hash);
      records, pending := records - {hash}, kept;
      pendingSourceBytes, residentCpuBytes := pendingSourceBytes - released, residentCpuBytes - stored.decodedBytes;
      return Eviction(Some(stored.state), removed, released, stored.decodedBytes, stored.meshCount,
                      Textures(stored));
    }
  }

  /** Keeps the imports of other hashes, counting what is dropped. */
  method Retain(pending: seq<Import>, hash: Hash) returns (kept: seq<Import>, removed: nat, released: nat)
    ensures kept == Without(pending, hash)
    ensures removed + |kept| == |pending| && released + PendingTotal(kept) == PendingTotal(pending)
    ensures removed == |Only(pending, hash)| && released == PendingTotal(Only(pending, hash))
  {
    kept, removed, released := [], 0, 0;
    for i := 0 to |pending|
      invariant kept == Without(pending[..i], hash)
      invariant removed == |Only(pending[..i], hash)| && released == PendingTotal(Only(pending[..i], hash))
    {
      assert pending[..i + 1][..i] == pending[..i];
      if pending[i].hash == hash {
        SumPush(Only(pending[..i], hash), pending[i], SourceBytes);
        removed, released := removed + 1, released + |pending[i].source|;
      } else {
        kept := kept + [pending[i]];
      }
    }
    assert pending[..|pending|] == pending;
    PartitionTotals(pending, hash);
  }

  lemma {:induction false} AllKept(pending: seq<Import>, h: Hash)
    requires Only(pending, h) == []
    ensures Without(pending, h) == pending
  {
    if pending != [] {
      AllKept(pending[..|pending| - 1], h);
    }
  }

  lemma {:induction false} WithoutIsSubset(pending: seq<Import>, h: Hash, k: nat)
    requires k < |Without(pending, h)|
    ensures Without(pending, h)[k] in pending
  {
    var n := |pending| - 1;
    if k < |Without(pending[..n], h)| { WithoutIsSubset(pending[..n], h, k); }
  }

  lemma {:induction false} EnqueueKeeps(
    limits: Limits, library: Library, pending: seq<Import>, records: map<Hash, Record>, h: Hash, source: seq<Byte>)
    requires Consistent(limits, library, pending, records, PendingTotal(pending), ResidentTotal(records))
    requires Queueable(Import(h, source), limits, library) && h !in records
    requires |records| < limits.maxAssets && |pending| < limits.maxPendingImports
    requires PendingTotal(pending) + |source| <= limits.maxPendingSourceBytes
    ensures Consistent(limits, library, pending + [Import(h, source)],
              records[h := Record(Queued, |source|, 0, 0, None, None)], PendingTotal(pending) + |source|,
              ResidentTotal(records))
  {
    var r := Record(Queued, |source|, 0, 0, None, None);
    SumPush(pending, Import(h, source), SourceBytes);
    ResidentUpdate(records, h, r);
    QueueGrows(pending, records, Import(h, source), r);
    assert records[h := r].Keys == records.Keys + {h};
  }

  lemma {:induction false} QueueGrows(pending: seq<Import>, records: map<Hash, Record>, i: Import, r: Record)
    requires QueueMatches(pending, records) && i.hash !in records && r.state == Queued
    ensures QueueMatches(pending + [i], records[i.hash := r])
  {
    BagPush(pending, i);
    forall h: Hash ensures Bag(pending + [i])[h] == Stands(records[i.hash := r], h) {
      assert Bag(pending)[h] == Stands(records, h);
    }
  }

  /** Processing stays exact exactly while the decoded bytes fit 64 bits, which any smaller limit guarantees. */
  lemma {:induction false} ProcessKeeps(
    limits: Limits, library: Library, pending: seq<Import>, records: map<Hash, Record>, source: nat, resident: nat)
    requires Consistent(limits, library, pending, records, source, resident) && pending != []
    ensures pending[0].hash in records && |pending[0].source| <= source
    ensures var h := pending[0].hash;
      var r := Processed(limits, library, records[h], pending[0].source, resident);
      && ResidentTotal(records[h := r]) == resident + r.decodedBytes
      && (resident + r.decodedBytes <= U64_MAX <==>
          Consistent(limits, library, pending[1..], records[h := r], source - |pending[0].source|,
            Sat64(resident + r.decodedBytes)))
      && (limits.maxResidentCpuBytes < U64_MAX ==> resident + r.decodedBytes <= U64_MAX)
  {
    var h := pending[0].hash;
    FrontIsQueued(pending, records);
    ProcessedExactly(limits, library, records[h], pending[0].source, resident);
    ResidentUpdate(records, h, Processed(limits, library, records[h], pending[0].source, resident));
    ProcessQueue(limits, library, pending, records,
      Processed(limits, library, records[h], pending[0].source, resident));
  }

  /** Taking the front import out of the queue and settling its record. */
  lemma {:induction false} ProcessQueue(
    limits: Limits, library: Library, pending: seq<Import>, records: map<Hash, Record>, r: Record)
    requires QueueMatches(pending, records) && RecordsWellFormed(records) && pending != []
    requires AllQueueable(pending, limits, library) && WellFormed(r) && !r.state.Queued?
    requires pending[0].hash in records
    ensures var after := records[pending[0].hash := r];
      && QueueMatches(pending[1..], after) && RecordsWellFormed(after) && AllQueueable(pending[1..], limits, library)
      && |after| == |records|
  {
    FrontIsQueued(pending, records);
    var after := records[pending[0].hash := r];
    assert after.Keys == records.Keys;
    forall h: Hash ensures Bag(pending[1..])[h] == Stands(after, h) {
      assert Bag(pending[1..])[h] == (if h == pending[0].hash then 0 else Stands(records, h));
    }
  }

  lemma {:induction false} EvictKeeps(
    limits: Limits, library: Library, pending: seq<Import>, records: map<Hash, Record>, source: nat, resident: nat,
    h: Hash)
    requires Consistent(limits, library, pending, records, source, resident)
    ensures PendingTotal(Only(pending, h)) <= source && BytesAt(records, h) <= resident
    ensures |Only(pending, h)| == Stands(records, h)
    ensures Consistent(limits, library, Without(pending, h), records - {h}, source - PendingTotal(Only(pending, h)),
              resident - BytesAt(records, h))
  {
    PartitionTotals(pending, h);
    PartitionBag(pending, h);
    ResidentWithout(records, h);
    assert (records - {h}).Keys == records.Keys - {h};
    var rest := Without(pending, h);
    forall i | 0 <= i < |rest| ensures Queueable(rest[i], limits, library) { WithoutIsSubset(pending, h, i); }
  }
}
