/** The audits a run ends with (the embedded modules `events.rue`, `collision.rue` and the audit
    of `snapshot.rue`). */
module Audits {
  import opened Metric
  import opened Model
  import Runs
  import opened Traps

  datatype Audit = Audit(count: nat, monotonic: bool, digest: nat, valid: bool)

  function EventAuditWords(es: seq<Event>): seq<nat> {
    if es == [] then []
    else
      var e := es[|es| - 1];
      EventAuditWords(es[..|es| - 1]) + [e.sequence] + [e.kind] + [e.actor]
  }

  lemma NextAuditDigest(es: seq<Event>, i: nat)
    requires i < |es|
    ensures Digest(OFFSET_BASIS, EventAuditWords(es[..i + 1]))
      == Mix(Mix(Mix(Digest(OFFSET_BASIS, EventAuditWords(es[..i])), es[i].sequence), es[i].kind), es[i].actor)
  {
    hide Mix;
    hide Digest;
    var words := EventAuditWords(es[..i]);
    assert es[..i + 1][..i] == es[..i];
    DigestSnoc(OFFSET_BASIS, words, es[i].sequence);
    DigestSnoc(OFFSET_BASIS, words + [es[i].sequence], es[i].kind);
    DigestSnoc(OFFSET_BASIS, words + [es[i].sequence] + [es[i].kind], es[i].actor);
  }

  /** Valid exactly when the timeline is in order. */
  method AuditEvents(s: State) returns (out: Audit)
    ensures out.valid <==> Runs.EventsOk(s)
    ensures out.monotonic <==> forall k :: 0 < k < |s.events| ==> s.events[k - 1].sequence < s.events[k].sequence
    ensures out.count == |s.events| && out.digest == Digest(OFFSET_BASIS, EventAuditWords(s.events))
  {
    hide Mix;
    hide Digest;
    DigestEmpty(OFFSET_BASIS);
    assert EventAuditWords([]) == [];
    hide EventAuditWords;
    var monotonic, digest, previous := true, OFFSET_BASIS, 0;
    var i := 0;
    while i < |s.events|
      invariant i <= |s.events|
      invariant i > 0 ==> previous == s.events[i - 1].sequence
      invariant monotonic <==> forall k :: 0 < k < i ==> s.events[k - 1].sequence < s.events[k].sequence
      invariant digest == Digest(OFFSET_BASIS, EventAuditWords(s.events[..i]))
    {
      var event := s.events[i];
      if i > 0 && event.sequence <= previous {
        monotonic := false;
      }
      previous := event.sequence;
      NextAuditDigest(s.events, i);
      digest := Mix(digest, event.sequence);
      digest := Mix(digest, event.kind);
      digest := Mix(digest, event.actor);
      i := i + 1;
    }
    assert s.events[..i] == s.events;
    out := Audit(|s.events|, monotonic, digest, monotonic && (|s.events| == 0 || previous < s.nextSequence));
  }

  function Checksums(snapshots: seq<Snapshot>): seq<nat> {
    seq(|snapshots|, i requires 0 <= i < |snapshots| => snapshots[i].checksum)
  }

  /** Valid exactly when snapshot ticks increase and there is at most one for each tick so far. */
  method AuditSnapshots(s: State) returns (out: Audit)
    requires s.tick + 1 < TWO64
    ensures out.valid <==> out.monotonic && |s.snapshots| <= s.tick + 1
    ensures out.monotonic <==> forall k :: 0 < k < |s.snapshots| ==> s.snapshots[k - 1].tick < s.snapshots[k].tick
    ensures out.count == |s.snapshots| && out.digest == Digest(OFFSET_BASIS, Checksums(s.snapshots))
    ensures Runs.SnapshotsOk(s) ==> out.valid
  {
    hide Mix;
    hide Digest;
    DigestEmpty(OFFSET_BASIS);
    var monotonic, digest, previous := true, OFFSET_BASIS, 0;
    assert Checksums(s.snapshots[..0]) == [];
    var i := 0;
    while i < |s.snapshots|
      invariant i <= |s.snapshots|
      invariant i > 0 ==> previous == s.snapshots[i - 1].tick
      invariant monotonic <==> forall k :: 0 < k < i ==> s.snapshots[k - 1].tick < s.snapshots[k].tick
      invariant digest == Digest(OFFSET_BASIS, Checksums(s.snapshots[..i]))
    {
      var item := s.snapshots[i];
      if i > 0 && item.tick <= previous {
        monotonic := false;
      }
      previous := item.tick;
      DigestSnoc(OFFSET_BASIS, Checksums(s.snapshots[..i]), item.checksum);
      assert Checksums(s.snapshots[..i + 1]) == Checksums(s.snapshots[..i]) + [item.checksum];
      digest := Mix(digest, item.checksum);
      i := i + 1;
    }
    assert s.snapshots[..i] == s.snapshots;
    out := Audit(|s.snapshots|, monotonic, digest, monotonic && |s.snapshots| <= U64(s.tick + 1));
  }

  // ----- collisions -----

  datatype Collisions = Collisions(tileHits: nat, entityHits: nat, pairs: nat, digest: nat, valid: bool)

  predicate OffGrid(s: State, e: Entity) {
    e.alive && !Walkable(s, e.x, e.y)
  }

  predicate Overlap(a: Entity, b: Entity) {
    a.alive && b.alive && a.x == b.x && a.y == b.y
  }

  function TileHits(s: State, i: nat): (r: nat)
    requires i <= |s.entities|
    ensures r <= i
  {
    if i == 0 then 0 else TileHits(s, i - 1) + if OffGrid(s, s.entities[i - 1]) then 1 else 0
  }

  /** Overlaps of entity `i` with the entities after it and before `j`. */
  function OverlapsOf(es: seq<Entity>, i: nat, j: nat): (r: nat)
    requires i < j <= |es|
    ensures r <= j - i - 1
    decreases j
  {
    if j == i + 1 then 0 else OverlapsOf(es, i, j - 1) + if Overlap(es[i], es[j - 1]) then 1 else 0
  }

  function Overlaps(es: seq<Entity>, i: nat): (r: nat)
    requires i <= |es|
    ensures r <= PairsTo(|es|, i)
  {
    if i == 0 then 0 else Overlaps(es, i - 1) + OverlapsOf(es, i - 1, |es|)
  }

  function PairsTo(n: nat, i: nat): nat
    requires i <= n
  {
    if i == 0 then 0 else PairsTo(n, i - 1) + (n - i)
  }

  /** The words of the audit's digest: an entity off the grid by its id, and then each overlap with
      a later entity by both ids. */
  function OverlapWords(es: seq<Entity>, i: nat, j: nat): seq<nat>
    requires i < j <= |es|
    decreases j
  {
    if j == i + 1 then []
    else
      OverlapWords(es, i, j - 1) + if Overlap(es[i], es[j - 1]) then [Xor(es[i].id, es[j - 1].id)] else []
  }

  function OwnWords(s: State, i: nat): seq<nat>
    requires i < |s.entities|
  {
    if OffGrid(s, s.entities[i]) then [s.entities[i].id] else []
  }

  function CollisionWords(s: State, i: nat): seq<nat>
    requires i <= |s.entities|
  {
    if i == 0 then []
    else CollisionWords(s, i - 1) + OwnWords(s, i - 1) + OverlapWords(s.entities, i - 1, |s.entities|)
  }

  lemma {:induction false} PairsClosed(n: nat, i: nat)
    requires i <= n
    ensures 2 * PairsTo(n, i) == i * (2 * n - i - 1)
  {
    if i > 0 {
      PairsClosed(n, i - 1);
      assert i * (2 * n - i - 1) == (i - 1) * (2 * n - i) + 2 * (n - i);
    }
  }

  lemma {:induction false} PairsGrow(n: nat, i: nat, k: nat)
    requires i <= k <= n
    ensures PairsTo(n, i) <= PairsTo(n, k)
    decreases k
  {
    if i < k {
      PairsGrow(n, i, k - 1);
    }
  }

  /** Ordered pairs of entities. */
  function OrderedPairs(n: nat): nat {
    n * (if n == 0 then 0 else n - 1)
  }

  /** Where the audit does not trap. */
  predicate AuditFits(s: State) {
    && OrderedPairs(|s.entities|) < TWO64
    && forall i :: 0 <= i < |s.entities| && s.entities[i].alive ==> LookupFits(s, s.entities[i].x, s.entities[i].y)
  }

  lemma PairsAreHalf(n: nat)
    ensures 2 * PairsTo(n, n) == OrderedPairs(n)
  {
    PairsClosed(n, n);
    assert n > 0 ==> n * (2 * n - n - 1) == n * (n - 1);
  }

  /** If the number of ordered pairs fits, so does every count of the audit, and their sum. */
  lemma CountsFit(n: nat)
    requires OrderedPairs(n) < TWO64
    ensures n + PairsTo(n, n) < TWO64
  {
    PairsAreHalf(n);
    if n >= 3 {
      assert n * (n - 1) == 2 * n + n * (n - 3);
    }
  }

  /** Compares entity `i` with the later ones. */
  method CountOverlaps(s: State, i: nat, hits: nat, pairs: nat, start: nat)
    returns (hits': nat, pairs': nat, digest: nat)
    requires i < |s.entities| && hits <= pairs && pairs + (|s.entities| - i - 1) < TWO64
    ensures hits' == hits + OverlapsOf(s.entities, i, |s.entities|) && pairs' == pairs + (|s.entities| - i - 1)
    ensures digest == Digest(start, OverlapWords(s.entities, i, |s.entities|)) && hits' <= pairs'
  {
    hide Mix;
    hide Digest;
    DigestEmpty(start);
    var entity := s.entities[i];
    hits', pairs', digest := hits, pairs, start;
    var j := i + 1;
    while j < |s.entities|
      invariant i < j <= |s.entities|
      invariant hits' == hits + OverlapsOf(s.entities, i, j) <= pairs' == pairs + (j - i - 1)
      invariant digest == Digest(start, OverlapWords(s.entities, i, j))
    {
      var other := s.entities[j];
      ghost var words := OverlapWords(s.entities, i, j);
      pairs' := U64(pairs' + 1);
      if entity.alive && other.alive && entity.x == other.x && entity.y == other.y {
        DigestSnoc(start, words, Xor(entity.id, other.id));
        hits' := U64(hits' + 1);
        digest := Mix(digest, Xor(entity.id, other.id));
      } else {
        assert words + [] == words;
      }
      j := j + 1;
    }
  }

  /** The count of pairs always meets its closed form, so the audit is always valid. */
  method AuditCollisions(s: State) returns (out: Collisions)
    requires AuditFits(s)
    ensures out == Collisions(TileHits(s, |s.entities|), Overlaps(s.entities, |s.entities|),
                              PairsTo(|s.entities|, |s.entities|),
                              Digest(OFFSET_BASIS, CollisionWords(s, |s.entities|)), true)
    ensures out.tileHits + out.entityHits < TWO64
  {
    hide Mix;
    hide Digest;
    hide Walkable;
    hide OverlapWords;
    DigestEmpty(OFFSET_BASIS);
    var n := |s.entities|;
    CountsFit(n);
    PairsAreHalf(n);
    hide OrderedPairs;
    var tileHits, entityHits, pairs: nat, digest := 0, 0, 0, OFFSET_BASIS;
    var i := 0;
    while i < n
      invariant i <= n
      invariant tileHits == TileHits(s, i) && entityHits == Overlaps(s.entities, i) && pairs == PairsTo(n, i)
      invariant digest == Digest(OFFSET_BASIS, CollisionWords(s, i))
    {
      var entity := s.entities[i];
      ghost var words := CollisionWords(s, i);
      if entity.alive && !Walkable(s, entity.x, entity.y) {
        DigestSnoc(OFFSET_BASIS, words, entity.id);
        tileHits := U64(tileHits + 1);
        digest := Mix(digest, entity.id);
      } else {
        assert words + [] == words;
      }
      PairsGrow(n, i + 1, n);
      entityHits, pairs, digest := CountOverlaps(s, i, entityHits, pairs, digest);
      DigestConcat(OFFSET_BASIS, words + OwnWords(s, i), OverlapWords(s.entities, i, n));
      i := i + 1;
    }
    out := Collisions(tileHits, entityHits, pairs, digest,
                      pairs == U64(OrderedPairs(n)) / 2);
  }
}
