/**
 * The recorded world: an authoritative world, and the hash-chained log it can be replayed from (replay log.rs,
 * recorded.rs).
 */
module ReplayLog {
  import opened Machine
  import opened Ordering

  datatype Patch<C> = Patch(key: nat, transaction: nat, content: C)

  datatype Entry<C> = Entry(
    sequence: nat, patch: Patch<C>, frame: nat, previousRevision: nat, newRevision: nat,
    previousScene: nat, newScene: nat, previousEntry: nat, hash: nat)

  /**
   * The scene `S`, the content `C` of a patch, and how the one changes by the other; hashing and encoding. All of
   * it is deterministic. `valid` is patch validation alone, `encodes` says that a valid patch has a canonical
   * encoding within its limits, and `step` is everything the world checks for a new key.
   */
  datatype Platform<!S, !C> = Platform(
    initialScene: S,
    valid: Patch<C> -> bool,
    encodes: Patch<C> -> bool,
    step: (S, nat, Patch<C>) -> Option<S>,
    changed: (S, nat, Patch<C>) -> set<nat>,
    sceneHash: S -> nat,
    entryHash: Entry<C> -> nat,
    size: Patch<C> -> nat)

  datatype Bounds = Bounds(
    maxRecords: NonZero32, maxPending: NonZero32, maxEntries: NonZero32, maxEntryBytes: NonZero32,
    maxLogBytes: NonZero32)

  const HEADER_BYTES: nat := 8
  const ENVELOPE_BYTES: nat := 170

  /** A scene with its revision, its accepted idempotency keys and the identities awaiting extraction. */
  datatype World<S, C> = World(scene: S, revision: nat, records: map<nat, Patch<C>>, pending: set<nat>)

  function Empty<S, C>(p: Platform<S, C>): World<S, C> { World(p.initialScene, 0, map[], {}) }

  /** Applying a patch whose key is new. */
  function WorldApply<S, C>(p: Platform<S, C>, b: Bounds, w: World<S, C>, patch: Patch<C>): Option<World<S, C>> {
    var scene := p.step(w.scene, w.revision, patch);
    var pending := w.pending + p.changed(w.scene, w.revision, patch);
    if |w.records| >= b.maxRecords || scene.None? || |pending| > b.maxPending then None
    else Some(World(scene.value, w.revision + 1, w.records[patch.key := patch], pending))
  }

  function Last<C>(log: seq<Entry<C>>): Entry<C>
    requires log != []
  {
    log[|log| - 1]
  }

  function LastHash<C>(log: seq<Entry<C>>): nat { if log == [] then 0 else Last(log).hash }

  function Front<C>(log: seq<Entry<C>>): seq<Entry<C>>
    requires log != []
  {
    log[..|log| - 1]
  }

  function EntryBytes<S, C>(p: Platform<S, C>, patch: Patch<C>): nat { ENVELOPE_BYTES + p.size(patch) }

  function LogBytes<S, C>(p: Platform<S, C>, log: seq<Entry<C>>): nat {
    if log == [] then HEADER_BYTES else LogBytes(p, Front(log)) + EntryBytes(p, Last(log).patch)
  }

  /** The scene a log leads to. */
  function SceneOf<S, C>(p: Platform<S, C>, log: seq<Entry<C>>): S {
    if log == [] then p.initialScene
    else
      var next := p.step(SceneOf(p, Front(log)), |log| - 1, Last(log).patch);
      if next.Some? then next.value else p.initialScene
  }

  function RecordsOf<C>(log: seq<Entry<C>>): map<nat, Patch<C>> {
    if log == [] then map[] else RecordsOf(Front(log))[Last(log).patch.key := Last(log).patch]
  }

  /** Every identity any entry of the log changed. */
  function Touched<S, C>(p: Platform<S, C>, log: seq<Entry<C>>): set<nat> {
    if log == [] then {}
    else Touched(p, Front(log)) + p.changed(SceneOf(p, Front(log)), |log| - 1, Last(log).patch)
  }

  /** The entry recorded for an accepted patch. */
  function MakeEntry<S, C>(p: Platform<S, C>, log: seq<Entry<C>>, patch: Patch<C>, frame: nat, newScene: S): Entry<C> {
    var e := Entry(|log| + 1, patch, frame, |log|, |log| + 1, p.sceneHash(SceneOf(p, log)), p.sceneHash(newScene),
                   LastHash(log), 0);
    e.(hash := p.entryHash(e))
  }

  /** A log some recorded world could have written, within its bounds. */
  ghost predicate Genuine<S, C>(p: Platform<S, C>, b: Bounds, log: seq<Entry<C>>) {
    log == [] ||
    (var front, e := Front(log), Last(log);
     && Genuine(p, b, front)
     && e.patch.key !in RecordsOf(front)
     && p.step(SceneOf(p, front), |front|, e.patch).Some?
     && e == MakeEntry(p, front, e.patch, e.frame, p.step(SceneOf(p, front), |front|, e.patch).value)
     && |log| <= b.maxRecords && |log| <= b.maxEntries
     && EntryBytes(p, e.patch) <= b.maxEntryBytes && LogBytes(p, log) <= b.maxLogBytes)
  }

  lemma {:induction false} GenuineFacts<S, C>(p: Platform<S, C>, b: Bounds, log: seq<Entry<C>>)
    requires Genuine(p, b, log)
    ensures |RecordsOf(log)| == |log| && |log| <= b.maxRecords && |log| <= b.maxEntries
    ensures LogBytes(p, log) <= Max(b.maxLogBytes, HEADER_BYTES)
  {
    if log != [] {
      GenuineFacts(p, b, Front(log));
      assert RecordsOf(log).Keys == RecordsOf(Front(log)).Keys + {Last(log).patch.key};
    }
  }

  /** Any prefix of a genuine log is genuine and touches no more. */
  lemma {:induction false} GenuineTake<S, C>(p: Platform<S, C>, b: Bounds, log: seq<Entry<C>>, n: nat)
    requires Genuine(p, b, log) && n <= |log|
    ensures Genuine(p, b, log[..n]) && Touched(p, log[..n]) <= Touched(p, log)
      && LogBytes(p, log[..n]) <= LogBytes(p, log)
    decreases |log|
  {
    if n < |log| {
      GenuineTake(p, b, Front(log), n);
      assert Front(log)[..n] == log[..n];
    } else {
      assert log[..n] == log;
    }
  }

  // ----- loading -----

  /** `verify_next`: sequence, revisions and both hash chains continue. */
  predicate VerifyNext<S, C>(p: Platform<S, C>, log: seq<Entry<C>>, e: Entry<C>) {
    && e.sequence == |log| + 1
    && e.previousRevision == (if log == [] then 0 else Last(log).newRevision)
    && e.newRevision == e.previousRevision + 1
    && e.previousEntry == LastHash(log)
    && (log != [] ==> Last(log).newScene == e.previousScene)
    && e.hash == p.entryHash(e.(hash := 0))
  }

  /** A stream loads without an unverified tail. */
  predicate Loads<S, C>(p: Platform<S, C>, b: Bounds, entries: seq<Entry<C>>) {
    LogBytes(p, entries) <= b.maxLogBytes && LoadsEntries(p, b, entries)
  }

  predicate LoadsEntries<S, C>(p: Platform<S, C>, b: Bounds, entries: seq<Entry<C>>) {
    entries == [] ||
    (LoadsEntries(p, b, Front(entries)) && EntryBytes(p, Last(entries).patch) <= b.maxEntryBytes
     && |entries| <= b.maxEntries && VerifyNext(p, Front(entries), Last(entries)))
  }

  lemma {:induction false} GenuineLoads<S, C>(p: Platform<S, C>, b: Bounds, log: seq<Entry<C>>)
    requires Genuine(p, b, log) && HEADER_BYTES <= b.maxLogBytes
    ensures Loads(p, b, log)
  {
    GenuineFacts(p, b, log);
    GenuineVerifies(p, b, log);
  }

  lemma {:induction false} GenuineVerifies<S, C>(p: Platform<S, C>, b: Bounds, log: seq<Entry<C>>)
    requires Genuine(p, b, log)
    ensures LoadsEntries(p, b, log)
  {
    if log != [] {
      GenuineVerifies(p, b, Front(log));
      if Front(log) != [] { assert Last(Front(log)).newRevision == |Front(log)|; }
    }
  }

  // ----- replay -----

  /** Replays verified entries into a fresh world. Nothing is extracted between entries. */
  function Replay<S, C>(p: Platform<S, C>, b: Bounds, entries: seq<Entry<C>>): Option<World<S, C>> {
    if entries == [] then Some(Empty(p))
    else
      var before := Replay(p, b, Front(entries));
      var e := Last(entries);
      if before.None? then None
      else
        var w := before.value;
        if w.revision != e.previousRevision || p.sceneHash(w.scene) != e.previousScene then None
        else if e.patch.key in w.records then None
        else
          var after := WorldApply(p, b, w, e.patch);
          if after.None? || after.value.revision != e.newRevision || p.sceneHash(after.value.scene) != e.newScene
          then None
          else after
  }

  /**
   * Replaying a genuine log rebuilds the recorded scene, revision and idempotency records exactly. It succeeds if and
   * only if all identities the log ever touched fit the bound on pending render changes together, because a replay
   * extracts nothing between entries while the live world does.
   */
  lemma {:induction false} ReplayIff<S, C>(p: Platform<S, C>, b: Bounds, log: seq<Entry<C>>)
    requires Genuine(p, b, log)
    ensures Replay(p, b, log) ==
      (if |Touched(p, log)| <= b.maxPending then Some(World(SceneOf(p, log), |log|, RecordsOf(log), Touched(p, log)))
       else None)
  {
    if log != [] {
      var front := Front(log);
      ReplayIff(p, b, front);
      GenuineFacts(p, b, front);
      SubsetCardinality(Touched(p, front), Touched(p, log));
    }
  }

  // ----- any log -----

  /**
   * Entry `i` has the number and the revisions of its place, names the hash and the scene of the entry before it, and
   * carries its own hash.
   */
  predicate LinkedAt<S, C>(p: Platform<S, C>, b: Bounds, log: seq<Entry<C>>, i: nat)
    requires i < |log|
  {
    var e := log[i];
    && e.sequence == i + 1 && e.previousRevision == i && e.newRevision == i + 1
    && e.previousEntry == (if i == 0 then 0 else log[i - 1].hash)
    && (i > 0 ==> e.previousScene == log[i - 1].newScene)
    && e.hash == p.entryHash(e.(hash := 0))
    && EntryBytes(p, e.patch) <= b.maxEntryBytes
  }

  ghost predicate Linked<S, C>(p: Platform<S, C>, b: Bounds, log: seq<Entry<C>>) {
    && |log| <= b.maxEntries && LogBytes(p, log) <= b.maxLogBytes
    && forall i | 0 <= i < |log| :: LinkedAt(p, b, log, i)
  }

  lemma {:induction false} LinkedEntries<S, C>(p: Platform<S, C>, b: Bounds, log: seq<Entry<C>>)
    ensures LoadsEntries(p, b, log) <==> |log| <= b.maxEntries && forall i | 0 <= i < |log| :: LinkedAt(p, b, log, i)
  {
    if log != [] {
      var front, n := Front(log), |log| - 1;
      LinkedEntries(p, b, front);
      assert forall i | 0 <= i < n :: LinkedAt(p, b, front, i) == LinkedAt(p, b, log, i);
      if LoadsEntries(p, b, front) {
        assert n > 0 ==> LinkedAt(p, b, front, n - 1);
        assert LinkedAt(p, b, log, n) <==>
          VerifyNext(p, front, log[n]) && EntryBytes(p, log[n].patch) <= b.maxEntryBytes;
      }
    }
  }

  /** A stream loads in full exactly when every entry is linked to the one before it and everything fits. */
  lemma {:induction false} LoadsIff<S, C>(p: Platform<S, C>, b: Bounds, log: seq<Entry<C>>)
    ensures Loads(p, b, log) <==> Linked(p, b, log)
  {
    LinkedEntries(p, b, log);
  }

  /** What loads and replays was written by a recorded world. */
  lemma {:induction false} ReplayedIsGenuine<S, C>(p: Platform<S, C>, b: Bounds, log: seq<Entry<C>>)
    requires LoadsEntries(p, b, log) && LogBytes(p, log) <= b.maxLogBytes && Replay(p, b, log).Some?
    ensures Genuine(p, b, log)
  {
    if log != [] {
      var front, e := Front(log), Last(log);
      ReplayedIsGenuine(p, b, front);
      ReplayIff(p, b, front);
      GenuineFacts(p, b, front);
    }
  }
}
