/** The whole-world checksum used by replay and rollback (the embedded module `checksum.rue`).
    It is the digest of the world's hashed fields, one word each, in a fixed order. */
module Checksum {
  import opened Metric
  import opened Model

  const SHIFT := 4096

  /** The unsigned word of a signed field.  The program traps where it is not `Shiftable`. */
  function Cast(n: int): nat {
    if n + SHIFT >= 0 then n + SHIFT else 0
  }

  /** The shifted value is a signed word and not negative. */
  predicate Shiftable(n: int) {
    -SHIFT <= n < TWO63 - SHIFT
  }

  predicate EntityCastable(e: Entity) {
    Shiftable(e.x) && Shiftable(e.y) && Shiftable(e.velocityX) && Shiftable(e.velocityY)
  }

  predicate Castable(s: State) {
    forall i :: 0 <= i < |s.entities| ==> EntityCastable(s.entities[i])
  }

  function Flag(b: bool): nat {
    if b then 1 else 0
  }

  function HeaderWords(s: State): seq<nat> {
    [s.seed, s.tick, s.width, s.height, s.resources, s.treasury, s.questsCompleted, s.scriptSteps]
  }

  function EntityWords(e: Entity): seq<nat> {
    [e.id, e.kind, e.faction, Cast(e.x), Cast(e.y), Cast(e.velocityX), Cast(e.velocityY),
     e.health, e.energy, e.state, e.inventory, e.credits, e.experience, Flag(e.alive)]
  }

  function TileWords(t: Tile): seq<nat> {
    [t.x, t.y, t.terrain, t.height, t.resource, t.region, Flag(t.walkable)]
  }

  function EventWords(e: Event): seq<nat> {
    [e.tick, e.kind, e.actor, e.target, e.value, e.sequence]
  }

  function AllEntityWords(es: seq<Entity>): seq<nat> {
    if es == [] then [] else AllEntityWords(es[..|es| - 1]) + EntityWords(es[|es| - 1])
  }

  function AllTileWords(ts: seq<Tile>): seq<nat> {
    if ts == [] then [] else AllTileWords(ts[..|ts| - 1]) + TileWords(ts[|ts| - 1])
  }

  function AllEventWords(es: seq<Event>): seq<nat> {
    if es == [] then [] else AllEventWords(es[..|es| - 1]) + EventWords(es[|es| - 1])
  }

  /** The hashed words of a world, in hashing order. */
  function Words(s: State): seq<nat> {
    HeaderWords(s) + AllEntityWords(s.entities) + AllTileWords(s.tiles) + AllEventWords(s.events)
  }

  function Of(s: State): nat {
    Digest(OFFSET_BASIS, Words(s))
  }

  // ----- the loops -----

  lemma DigestSteps(hash: nat, words: seq<nat>)
    ensures Digest(hash, words[..0]) == hash
    ensures forall k :: 0 <= k < |words| ==> Digest(hash, words[..k + 1]) == Mix(Digest(hash, words[..k]), words[k])
    ensures words[..|words|] == words
  {
    forall k | 0 <= k < |words| ensures Digest(hash, words[..k + 1]) == Mix(Digest(hash, words[..k]), words[k]) {
      assert words[..k + 1] == words[..k] + [words[k]];
      DigestSnoc(hash, words[..k], words[k]);
    }
  }

  method MixEntity(start: nat, entity: Entity) returns (hash: nat)
    requires EntityCastable(entity)
    ensures hash == Digest(start, EntityWords(entity))
  {
    hide Mix;
    hide Digest;
    ghost var words := EntityWords(entity);
    DigestSteps(start, words);
    assert words == [words[0], words[1], words[2], words[3], words[4], words[5], words[6],
                     words[7], words[8], words[9], words[10], words[11], words[12], words[13]];
    hash := Mix(start, entity.id);
    hash := Mix(hash, entity.kind);
    hash := Mix(hash, entity.faction);
    hash := Mix(hash, I64(entity.x + SHIFT));
    hash := Mix(hash, I64(entity.y + SHIFT));
    hash := Mix(hash, I64(entity.velocityX + SHIFT));
    hash := Mix(hash, I64(entity.velocityY + SHIFT));
    hash := Mix(hash, entity.health);
    hash := Mix(hash, entity.energy);
    hash := Mix(hash, entity.state);
    hash := Mix(hash, entity.inventory);
    hash := Mix(hash, entity.credits);
    hash := Mix(hash, entity.experience);
    hash := Mix(hash, if entity.alive then 1 else 0);
  }

  method MixTile(start: nat, tile: Tile) returns (hash: nat)
    ensures hash == Digest(start, TileWords(tile))
  {
    hide Mix;
    hide Digest;
    ghost var words := TileWords(tile);
    DigestSteps(start, words);
    assert words == [words[0], words[1], words[2], words[3], words[4], words[5], words[6]];
    hash := Mix(start, tile.x);
    hash := Mix(hash, tile.y);
    hash := Mix(hash, tile.terrain);
    hash := Mix(hash, tile.height);
    hash := Mix(hash, tile.resource);
    hash := Mix(hash, tile.region);
    hash := Mix(hash, if tile.walkable then 1 else 0);
  }

  method MixEvent(start: nat, event: Event) returns (hash: nat)
    ensures hash == Digest(start, EventWords(event))
  {
    hide Mix;
    hide Digest;
    ghost var words := EventWords(event);
    DigestSteps(start, words);
    assert words == [words[0], words[1], words[2], words[3], words[4], words[5]];
    hash := Mix(start, event.tick);
    hash := Mix(hash, event.kind);
    hash := Mix(hash, event.actor);
    hash := Mix(hash, event.target);
    hash := Mix(hash, event.value);
    hash := Mix(hash, event.sequence);
  }

  method MixHeader(s: State) returns (hash: nat)
    ensures hash == Digest(OFFSET_BASIS, HeaderWords(s))
  {
    hide Mix;
    hide Digest;
    ghost var words := HeaderWords(s);
    DigestSteps(OFFSET_BASIS, words);
    assert words == [words[0], words[1], words[2], words[3], words[4], words[5], words[6], words[7]];
    hash := Mix(OFFSET_BASIS, s.seed);
    hash := Mix(hash, s.tick);
    hash := Mix(hash, s.width);
    hash := Mix(hash, s.height);
    hash := Mix(hash, s.resources);
    hash := Mix(hash, s.treasury);
    hash := Mix(hash, s.questsCompleted);
    hash := Mix(hash, s.scriptSteps);
  }

  method Compute(s: State) returns (hash: nat)
    requires Castable(s)
    ensures hash == Of(s)
  {
    hash := MixHeader(s);
    hide Digest;
    hide Castable;
    hide HeaderWords;
    hide EntityWords;
    hide TileWords;
    hide EventWords;
    NoWords();
    hide AllEntityWords;
    hide AllTileWords;
    hide AllEventWords;
    ghost var words := HeaderWords(s);
    var i := 0;
    while i < |s.entities|
      invariant i <= |s.entities| && words == HeaderWords(s) + AllEntityWords(s.entities[..i])
      invariant hash == Digest(OFFSET_BASIS, words)
    {
      var entity := s.entities[i];
      assert EntityCastable(entity) by { CastableAt(s, i); }
      hash := MixEntity(hash, entity);
      DigestConcat(OFFSET_BASIS, words, EntityWords(entity));
      NextEntityWords(s.entities, i);
      words := words + EntityWords(entity);
      i := i + 1;
    }
    assert s.entities[..i] == s.entities;
    ghost var before := words;
    i := 0;
    while i < |s.tiles|
      invariant i <= |s.tiles| && words == before + AllTileWords(s.tiles[..i])
      invariant hash == Digest(OFFSET_BASIS, words)
    {
      var tile := s.tiles[i];
      hash := MixTile(hash, tile);
      DigestConcat(OFFSET_BASIS, words, TileWords(tile));
      NextTileWords(s.tiles, i);
      words := words + TileWords(tile);
      i := i + 1;
    }
    assert s.tiles[..i] == s.tiles;
    before := words;
    i := 0;
    while i < |s.events|
      invariant i <= |s.events| && words == before + AllEventWords(s.events[..i])
      invariant hash == Digest(OFFSET_BASIS, words)
    {
      var event := s.events[i];
      hash := MixEvent(hash, event);
      DigestConcat(OFFSET_BASIS, words, EventWords(event));
      NextEventWords(s.events, i);
      words := words + EventWords(event);
      i := i + 1;
    }
    assert s.events[..i] == s.events;
  }

  lemma NextEntityWords(es: seq<Entity>, i: nat)
    requires i < |es|
    ensures AllEntityWords(es[..i + 1]) == AllEntityWords(es[..i]) + EntityWords(es[i])
  {
    hide EntityWords;
    assert es[..i + 1][..i] == es[..i];
  }

  lemma NextTileWords(ts: seq<Tile>, i: nat)
    requires i < |ts|
    ensures AllTileWords(ts[..i + 1]) == AllTileWords(ts[..i]) + TileWords(ts[i])
  {
    hide TileWords;
    assert ts[..i + 1][..i] == ts[..i];
  }

  lemma NextEventWords(es: seq<Event>, i: nat)
    requires i < |es|
    ensures AllEventWords(es[..i + 1]) == AllEventWords(es[..i]) + EventWords(es[i])
  {
    hide EventWords;
    assert es[..i + 1][..i] == es[..i];
  }

  lemma NoWords()
    ensures AllEntityWords([]) == AllTileWords([]) == AllEventWords([]) == []
  {
  }

  lemma CastableAt(s: State, i: nat)
    requires Castable(s) && i < |s.entities|
    ensures EntityCastable(s.entities[i])
  {
  }

  // ----- single faults -----

  /** The lists have the same length and differ at exactly one place. */
  ghost predicate DifferOnce(a: seq<nat>, b: seq<nat>, k: nat) {
    |a| == |b| && k < |a| && a[k] != b[k] && forall i :: 0 <= i < |a| && i != k ==> a[i] == b[i]
  }

  /** Single-fault detection: two worlds whose hashed words differ in exactly one place never
      have the same checksum. */
  lemma SingleFaultDetected(a: State, b: State, k: nat)
    requires AllU64(Words(a)) && AllU64(Words(b)) && DifferOnce(Words(a), Words(b), k)
    ensures Of(a) != Of(b)
  {
    SingleFaultChangesDigest(OFFSET_BASIS, Words(a), Words(b), k);
  }

  lemma DifferInContext(before: seq<nat>, a: seq<nat>, b: seq<nat>, after: seq<nat>, k: nat)
    requires DifferOnce(a, b, k)
    ensures DifferOnce(before + a + after, before + b + after, |before| + k)
  {
    var x, y := before + a + after, before + b + after;
    forall i | 0 <= i < |x| && i != |before| + k ensures x[i] == y[i] {
      if |before| <= i < |before| + |a| {
        assert x[i] == a[i - |before|] && y[i] == b[i - |before|];
      }
    }
  }

  lemma {:induction false} EntityInWords(es: seq<Entity>, i: nat, e: Entity) returns (before: seq<nat>, after: seq<nat>)
    requires i < |es|
    ensures AllEntityWords(es) == before + EntityWords(es[i]) + after
    ensures AllEntityWords(es[i := e]) == before + EntityWords(e) + after
  {
    hide EntityWords;
    var n := |es| - 1;
    if i == n {
      before, after := AllEntityWords(es[..n]), [];
      assert es[i := e][..n] == es[..n];
    } else {
      assert es[i := e][..n] == es[..n][i := e];
      before, after := EntityInWords(es[..n], i, e);
      after := after + EntityWords(es[n]);
    }
  }

  lemma {:induction false} TileInWords(ts: seq<Tile>, i: nat, t: Tile) returns (before: seq<nat>, after: seq<nat>)
    requires i < |ts|
    ensures AllTileWords(ts) == before + TileWords(ts[i]) + after
    ensures AllTileWords(ts[i := t]) == before + TileWords(t) + after
  {
    hide TileWords;
    var n := |ts| - 1;
    if i == n {
      before, after := AllTileWords(ts[..n]), [];
      assert ts[i := t][..n] == ts[..n];
    } else {
      assert ts[i := t][..n] == ts[..n][i := t];
      before, after := TileInWords(ts[..n], i, t);
      after := after + TileWords(ts[n]);
    }
  }

  lemma {:induction false} EventInWords(es: seq<Event>, i: nat, e: Event) returns (before: seq<nat>, after: seq<nat>)
    requires i < |es|
    ensures AllEventWords(es) == before + EventWords(es[i]) + after
    ensures AllEventWords(es[i := e]) == before + EventWords(e) + after
  {
    hide EventWords;
    var n := |es| - 1;
    if i == n {
      before, after := AllEventWords(es[..n]), [];
      assert es[i := e][..n] == es[..n];
    } else {
      assert es[i := e][..n] == es[..n][i := e];
      before, after := EventInWords(es[..n], i, e);
      after := after + EventWords(es[n]);
    }
  }

  lemma Around(h: seq<nat>, before: seq<nat>, x: seq<nat>, after: seq<nat>, last: seq<nat>)
    ensures h + (before + x + after) + last == (h + before) + x + (after + last)
  {
  }

  /** Worlds whose words are the same but for one word of a part have different checksums. */
  lemma PartFaultDetected(a: State, b: State, front: seq<nat>, x: seq<nat>, y: seq<nat>, back: seq<nat>, k: nat)
    requires Words(a) == front + x + back && Words(b) == front + y + back
    requires DifferOnce(x, y, k) && AllU64(Words(a)) && AllU64(Words(b))
    ensures Of(a) != Of(b)
  {
    hide Words;
    hide DifferOnce;
    hide AllU64;
    hide Of;
    DifferInContext(front, x, y, back, k);
    SingleFaultDetected(a, b, |front| + k);
  }

  /** The words of a world around those of one entity. */
  lemma WordsAroundEntity(s: State, i: nat, e: Entity) returns (front: seq<nat>, back: seq<nat>)
    requires i < |s.entities|
    ensures Words(s) == front + EntityWords(s.entities[i]) + back
    ensures Words(s.(entities := s.entities[i := e])) == front + EntityWords(e) + back
  {
    hide HeaderWords;
    hide EntityWords;
    hide AllEntityWords;
    hide AllTileWords;
    hide AllEventWords;
    var (h, rest) := (HeaderWords(s), AllTileWords(s.tiles) + AllEventWords(s.events));
    var before, after := EntityInWords(s.entities, i, e);
    Around(h, before, EntityWords(s.entities[i]), after, rest);
    Around(h, before, EntityWords(e), after, rest);
    front, back := h + before, after + rest;
    WordsAsOne(s, rest);
    WordsAsOne(s.(entities := s.entities[i := e]), rest);
    HeaderIgnoresLists(s, s.(entities := s.entities[i := e]));
  }

  lemma WordsAsOne(s: State, rest: seq<nat>)
    requires rest == AllTileWords(s.tiles) + AllEventWords(s.events)
    ensures Words(s) == HeaderWords(s) + AllEntityWords(s.entities) + rest
  {
    hide HeaderWords;
    hide AllEntityWords;
    hide AllTileWords;
    hide AllEventWords;
  }

  lemma HeaderIgnoresLists(a: State, b: State)
    requires b == a.(entities := b.entities, tiles := b.tiles, events := b.events)
    ensures HeaderWords(a) == HeaderWords(b)
  {
  }

  /** One wrong hashed field of one entity always changes the checksum. */
  lemma EntityFaultDetected(s: State, i: nat, e: Entity, k: nat)
    requires i < |s.entities| && DifferOnce(EntityWords(s.entities[i]), EntityWords(e), k)
    requires var s' := s.(entities := s.entities[i := e]); AllU64(Words(s)) && AllU64(Words(s'))
    ensures Of(s) != Of(s.(entities := s.entities[i := e]))
  {
    hide EntityWords;
    hide Words;
    hide Of;
    hide DifferOnce;
    hide AllU64;
    var front, back := WordsAroundEntity(s, i, e);
    PartFaultDetected(s, s.(entities := s.entities[i := e]),
                      front, EntityWords(s.entities[i]), EntityWords(e), back, k);
  }

  /** The words of a world around those of one tile. */
  lemma WordsAroundTile(s: State, i: nat, t: Tile) returns (front: seq<nat>, back: seq<nat>)
    requires i < |s.tiles|
    ensures Words(s) == front + TileWords(s.tiles[i]) + back
    ensures Words(s.(tiles := s.tiles[i := t])) == front + TileWords(t) + back
  {
    hide HeaderWords;
    hide TileWords;
    hide AllEntityWords;
    hide AllTileWords;
    hide AllEventWords;
    var (h, rest) := (HeaderWords(s) + AllEntityWords(s.entities), AllEventWords(s.events));
    var before, after := TileInWords(s.tiles, i, t);
    Around(h, before, TileWords(s.tiles[i]), after, rest);
    Around(h, before, TileWords(t), after, rest);
    HeaderIgnoresLists(s, s.(tiles := s.tiles[i := t]));
    front, back := h + before, after + rest;
  }

  /** One wrong hashed field of one tile always changes the checksum. */
  lemma TileFaultDetected(s: State, i: nat, t: Tile, k: nat)
    requires i < |s.tiles| && DifferOnce(TileWords(s.tiles[i]), TileWords(t), k)
    requires var s' := s.(tiles := s.tiles[i := t]); AllU64(Words(s)) && AllU64(Words(s'))
    ensures Of(s) != Of(s.(tiles := s.tiles[i := t]))
  {
    hide TileWords;
    hide Words;
    hide Of;
    hide DifferOnce;
    hide AllU64;
    var front, back := WordsAroundTile(s, i, t);
    PartFaultDetected(s, s.(tiles := s.tiles[i := t]), front, TileWords(s.tiles[i]), TileWords(t), back, k);
  }

  /** The words of a world around those of one event. */
  lemma WordsAroundEvent(s: State, i: nat, e: Event) returns (front: seq<nat>, back: seq<nat>)
    requires i < |s.events|
    ensures Words(s) == front + EventWords(s.events[i]) + back
    ensures Words(s.(events := s.events[i := e])) == front + EventWords(e) + back
  {
    hide HeaderWords;
    hide EventWords;
    hide AllEntityWords;
    hide AllTileWords;
    hide AllEventWords;
    var h := HeaderWords(s) + AllEntityWords(s.entities) + AllTileWords(s.tiles);
    var before, after := EventInWords(s.events, i, e);
    Around(h, before, EventWords(s.events[i]), after, []);
    Around(h, before, EventWords(e), after, []);
    HeaderIgnoresLists(s, s.(events := s.events[i := e]));
    front, back := h + before, after + [];
    assert Words(s) == h + AllEventWords(s.events) + [];
    assert Words(s.(events := s.events[i := e])) == h + AllEventWords(s.events[i := e]) + [];
  }

  /** One wrong field of one event always changes the checksum. */
  lemma EventFaultDetected(s: State, i: nat, e: Event, k: nat)
    requires i < |s.events| && DifferOnce(EventWords(s.events[i]), EventWords(e), k)
    requires var s' := s.(events := s.events[i := e]); AllU64(Words(s)) && AllU64(Words(s'))
    ensures Of(s) != Of(s.(events := s.events[i := e]))
  {
    hide EventWords;
    hide Words;
    hide Of;
    hide DifferOnce;
    hide AllU64;
    var front, back := WordsAroundEvent(s, i, e);
    PartFaultDetected(s, s.(events := s.events[i := e]), front, EventWords(s.events[i]), EventWords(e), back, k);
  }

  lemma WordsAroundHeader(s: State, back: seq<nat>)
    requires back == AllEntityWords(s.entities) + (AllTileWords(s.tiles) + AllEventWords(s.events))
    ensures Words(s) == [] + HeaderWords(s) + back
  {
    hide HeaderWords;
    hide AllEntityWords;
    hide AllTileWords;
    hide AllEventWords;
    var rest := AllTileWords(s.tiles) + AllEventWords(s.events);
    WordsAsOne(s, rest);
    Around([], [], HeaderWords(s), AllEntityWords(s.entities), rest);
    assert [] + ([] + HeaderWords(s) + AllEntityWords(s.entities)) + rest == Words(s);
  }

  /** One wrong field of the world itself always changes the checksum. */
  lemma HeaderFaultDetected(a: State, b: State, k: nat)
    requires a.entities == b.entities && a.tiles == b.tiles && a.events == b.events
    requires DifferOnce(HeaderWords(a), HeaderWords(b), k) && AllU64(Words(a)) && AllU64(Words(b))
    ensures Of(a) != Of(b)
  {
    hide HeaderWords;
    hide Words;
    hide Of;
    hide DifferOnce;
    hide AllU64;
    var back := AllEntityWords(a.entities) + (AllTileWords(a.tiles) + AllEventWords(a.events));
    WordsAroundHeader(a, back);
    WordsAroundHeader(b, back);
    PartFaultDetected(a, b, [], HeaderWords(a), HeaderWords(b), back, k);
  }

  lemma UpdateIs<T>(a: seq<T>, b: seq<T>, k: nat, x: T)
    requires |a| == |b| && k < |a| && a[k] == x && forall i :: 0 <= i < |a| && i != k ==> a[i] == b[i]
    ensures a == b[k := x]
  {
  }

  /** Each field of an entity is its own word, at its own place; signed fields are shifted. */
  lemma EntityNamesInPlace(e: Entity, n: nat)
    ensures |EntityWords(e)| == 14
    ensures EntityWords(e.(id := n)) == EntityWords(e)[0 := n]
    ensures EntityWords(e.(kind := n)) == EntityWords(e)[1 := n]
    ensures EntityWords(e.(faction := n)) == EntityWords(e)[2 := n]
  {
    hide Cast;
    hide Flag;
    var w := EntityWords(e);
    UpdateIs(EntityWords(e.(id := n)), w, 0, n);
    UpdateIs(EntityWords(e.(kind := n)), w, 1, n);
    UpdateIs(EntityWords(e.(faction := n)), w, 2, n);
  }

  lemma EntityPositionInPlace(e: Entity, v: int)
    requires v >= -4096
    ensures |EntityWords(e)| == 14
    ensures EntityWords(e.(x := v)) == EntityWords(e)[3 := v + 4096]
    ensures EntityWords(e.(y := v)) == EntityWords(e)[4 := v + 4096]
  {
    hide Flag;
    var w := EntityWords(e);
    UpdateIs(EntityWords(e.(x := v)), w, 3, v + 4096);
    UpdateIs(EntityWords(e.(y := v)), w, 4, v + 4096);
  }

  lemma EntityVelocityInPlace(e: Entity, v: int)
    requires v >= -4096
    ensures |EntityWords(e)| == 14
    ensures EntityWords(e.(velocityX := v)) == EntityWords(e)[5 := v + 4096]
    ensures EntityWords(e.(velocityY := v)) == EntityWords(e)[6 := v + 4096]
  {
    hide Flag;
    var w := EntityWords(e);
    UpdateIs(EntityWords(e.(velocityX := v)), w, 5, v + 4096);
    UpdateIs(EntityWords(e.(velocityY := v)), w, 6, v + 4096);
  }

  lemma EntityHealthInPlace(e: Entity, n: nat, alive: bool)
    ensures |EntityWords(e)| == 14
    ensures EntityWords(e.(health := n)) == EntityWords(e)[7 := n]
    ensures EntityWords(e.(energy := n)) == EntityWords(e)[8 := n]
    ensures EntityWords(e.(alive := alive)) == EntityWords(e)[13 := if alive then 1 else 0]
  {
    hide Cast;
    var w := EntityWords(e);
    UpdateIs(EntityWords(e.(health := n)), w, 7, n);
    UpdateIs(EntityWords(e.(energy := n)), w, 8, n);
    UpdateIs(EntityWords(e.(alive := alive)), w, 13, if alive then 1 else 0);
  }

  lemma EntityHoldingsInPlace(e: Entity, n: nat)
    ensures |EntityWords(e)| == 14
    ensures EntityWords(e.(state := n)) == EntityWords(e)[9 := n]
    ensures EntityWords(e.(inventory := n)) == EntityWords(e)[10 := n]
    ensures EntityWords(e.(credits := n)) == EntityWords(e)[11 := n]
    ensures EntityWords(e.(experience := n)) == EntityWords(e)[12 := n]
  {
    hide Cast;
    hide Flag;
    var w := EntityWords(e);
    UpdateIs(EntityWords(e.(state := n)), w, 9, n);
    UpdateIs(EntityWords(e.(inventory := n)), w, 10, n);
    UpdateIs(EntityWords(e.(credits := n)), w, 11, n);
    UpdateIs(EntityWords(e.(experience := n)), w, 12, n);
  }

  lemma TileFieldsInPlace(t: Tile, n: nat, walkable: bool)
    ensures TileWords(t.(x := n)) == TileWords(t)[0 := n]
    ensures TileWords(t.(y := n)) == TileWords(t)[1 := n]
    ensures TileWords(t.(terrain := n)) == TileWords(t)[2 := n]
    ensures TileWords(t.(height := n)) == TileWords(t)[3 := n]
    ensures TileWords(t.(resource := n)) == TileWords(t)[4 := n]
    ensures TileWords(t.(region := n)) == TileWords(t)[5 := n]
    ensures TileWords(t.(walkable := walkable)) == TileWords(t)[6 := if walkable then 1 else 0]
    ensures |TileWords(t)| == 7
  {
    var w := TileWords(t);
    UpdateIs(TileWords(t.(x := n)), w, 0, n);
    UpdateIs(TileWords(t.(y := n)), w, 1, n);
    UpdateIs(TileWords(t.(terrain := n)), w, 2, n);
    UpdateIs(TileWords(t.(height := n)), w, 3, n);
    UpdateIs(TileWords(t.(resource := n)), w, 4, n);
    UpdateIs(TileWords(t.(region := n)), w, 5, n);
    UpdateIs(TileWords(t.(walkable := walkable)), w, 6, if walkable then 1 else 0);
  }

  lemma EventFieldsInPlace(e: Event, n: nat)
    ensures EventWords(e.(tick := n)) == EventWords(e)[0 := n]
    ensures EventWords(e.(kind := n)) == EventWords(e)[1 := n]
    ensures EventWords(e.(actor := n)) == EventWords(e)[2 := n]
    ensures EventWords(e.(target := n)) == EventWords(e)[3 := n]
    ensures EventWords(e.(value := n)) == EventWords(e)[4 := n]
    ensures EventWords(e.(sequence := n)) == EventWords(e)[5 := n]
    ensures |EventWords(e)| == 6
  {
    var w := EventWords(e);
    UpdateIs(EventWords(e.(tick := n)), w, 0, n);
    UpdateIs(EventWords(e.(kind := n)), w, 1, n);
    UpdateIs(EventWords(e.(actor := n)), w, 2, n);
    UpdateIs(EventWords(e.(target := n)), w, 3, n);
    UpdateIs(EventWords(e.(value := n)), w, 4, n);
    UpdateIs(EventWords(e.(sequence := n)), w, 5, n);
  }

  /** The words of a world: its header fields, then those of its entities, tiles and events. */
  lemma HeaderFieldsInPlace(s: State, n: nat)
    ensures HeaderWords(s.(seed := n)) == HeaderWords(s)[0 := n]
    ensures HeaderWords(s.(tick := n)) == HeaderWords(s)[1 := n]
    ensures HeaderWords(s.(width := n)) == HeaderWords(s)[2 := n]
    ensures HeaderWords(s.(height := n)) == HeaderWords(s)[3 := n]
    ensures HeaderWords(s.(resources := n)) == HeaderWords(s)[4 := n]
    ensures HeaderWords(s.(treasury := n)) == HeaderWords(s)[5 := n]
    ensures HeaderWords(s.(questsCompleted := n)) == HeaderWords(s)[6 := n]
    ensures HeaderWords(s.(scriptSteps := n)) == HeaderWords(s)[7 := n]
    ensures |HeaderWords(s)| == 8
  {
    var w := HeaderWords(s);
    UpdateIs(HeaderWords(s.(seed := n)), w, 0, n);
    UpdateIs(HeaderWords(s.(tick := n)), w, 1, n);
    UpdateIs(HeaderWords(s.(width := n)), w, 2, n);
    UpdateIs(HeaderWords(s.(height := n)), w, 3, n);
    UpdateIs(HeaderWords(s.(resources := n)), w, 4, n);
    UpdateIs(HeaderWords(s.(treasury := n)), w, 5, n);
    UpdateIs(HeaderWords(s.(questsCompleted := n)), w, 6, n);
    UpdateIs(HeaderWords(s.(scriptSteps := n)), w, 7, n);
  }

  lemma FourteenWords(e: Entity)
    ensures |EntityWords(e)| == 14
  {
  }

  /** The words of the `k`-th entity stand where those of the entities before it end. */
  lemma {:induction false} EntityWordsAt(es: seq<Entity>, k: nat)
    requires k < |es|
    ensures |AllEntityWords(es)| == 14 * |es| && AllEntityWords(es)[14 * k..14 * k + 14] == EntityWords(es[k])
  {
    hide EntityWords;
    var n := |es| - 1;
    var front := AllEntityWords(es[..n]);
    FourteenWords(es[n]);
    if n == 0 {
      assert es[..0] == [];
    } else {
      EntityWordsAt(es[..n], if k < n then k else 0);
    }
    if k < n {
      assert AllEntityWords(es)[14 * k..14 * k + 14] == front[14 * k..14 * k + 14];
    }
  }

  /** Distinct values of a signed field have distinct words, so a wrong field is a wrong word. */
  lemma WordsDetermineEntity(a: Entity, b: Entity)
    requires EntityCastable(a) && EntityCastable(b) && EntityWords(a) == EntityWords(b)
    ensures a == b.(previousX := a.previousX, previousY := a.previousY, goal := a.goal,
                    bornTick := a.bornTick, updatedTick := a.updatedTick)
  {
    var (x, y) := (EntityWords(a), EntityWords(b));
    assert x[0] == y[0] && x[1] == y[1] && x[2] == y[2] && x[3] == y[3] && x[4] == y[4];
    assert x[5] == y[5] && x[6] == y[6] && x[7] == y[7] && x[8] == y[8] && x[9] == y[9];
    assert x[10] == y[10] && x[11] == y[11] && x[12] == y[12] && x[13] == y[13];
  }
}
