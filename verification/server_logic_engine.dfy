/**
 * The server's match engine (server/src/logic/ServerLogicEngine.ts). Players join; the match starts
 * and spawns every player's towers; each tick of a running match regenerates mana, runs the entity
 * manager and removes the dead; a card play is validated, paid for and turned into a new entity.
 *
 * Entities live in three collections: the engine's entity map, the synchronised entity map and the
 * entity manager's list. The two maps are modelled by their key sets, the key 'e'+n by the number n,
 * and an entity's record (hit points, state, position) by its record in the manager's list.
 */
module Engine {
  import opened Maybe
  import Cards
  import opened Entities
  import opened Constants
  import opened Decks
  import EntityAi

  datatype GameState = Waiting | Starting | Playing | Done

  /** A player: the session key, which side it plays from, its mana and the tick of its last mana
      regeneration (the secret part of its synchronised state), and its deck. */
  datatype Player = Player(key: string, isFlipped: bool, mana: int, manaRegenLastTick: int, deck: DeckState)

  /** Messages sent to one client. */
  datatype Message =
    | CardHand(to: string, cards: seq<Cards.CardId>, nextCard: Cards.CardId)
    | PlayCardResult(to: string, id: int, next: Option<Cards.CardId>)

  /** A PLAY_CARD request as it arrives: any four numbers. */
  datatype PlayCardRequest = PlayCardRequest(id: real, card: real, tileX: real, tileY: real)

  // ---------------------------------------------------------------------------------------------
  // Players

  /** A player's deck is well formed and its mana is in 0..MANA_MAX. */
  predicate PlayerOk(p: Player)
  {
    WellFormed(p.deck) && 0 <= p.mana <= MANA_MAX
  }

  /** As in a Map, no two players share a key. */
  predicate DistinctKeys(ps: seq<Player>)
  {
    forall j, k :: 0 <= j < k < |ps| ==> ps[j].key != ps[k].key
  }

  predicate PlayersOk(ps: seq<Player>)
  {
    (forall j :: 0 <= j < |ps| ==> PlayerOk(ps[j])) && DistinctKeys(ps)
  }

  /** Map.get: where the player with this key is. */
  function {:induction false} PlayerIndex(ps: seq<Player>, key: string): (r: Option<nat>)
    ensures r.Some? ==> r.value < |ps| && ps[r.value].key == key
    ensures r.None? ==> forall j :: 0 <= j < |ps| ==> ps[j].key != key
    decreases |ps|
  {
    if ps == [] then None
    else if ps[|ps| - 1].key == key then Some(|ps| - 1)
    else PlayerIndex(ps[..|ps| - 1], key)
  }

  /** Replacing a player by a well-formed record under the same key keeps the players well formed. */
  lemma ReplaceKeepsPlayers(ps: seq<Player>, i: nat, q: Player)
    requires PlayersOk(ps) && i < |ps| && PlayerOk(q) && q.key == ps[i].key
    ensures PlayersOk(ps[i := q])
  {
  }

  /** addPlayer: a new player record with start mana; it plays flipped when somebody was already
      there. Map.set on a present key replaces its entry in place. */
  function WithPlayer(ps: seq<Player>, key: string, deck: DeckState): seq<Player>
  {
    var p := Player(key, |ps| > 0, MANA_START, 0, deck);
    match PlayerIndex(ps, key)
    case Some(i) => ps[i := p]
    case None => ps + [p]
  }

  /** removePlayer: Map.delete. */
  function WithoutPlayer(ps: seq<Player>, key: string): seq<Player>
  {
    match PlayerIndex(ps, key)
    case Some(i) => ps[..i] + ps[i + 1..]
    case None => ps
  }

  /** Adding a player keeps the players well formed. */
  lemma AddKeepsPlayers(ps: seq<Player>, key: string, deck: DeckState)
    requires PlayersOk(ps) && WellFormed(deck)
    ensures PlayersOk(WithPlayer(ps, key, deck))
  {
    var p := Player(key, |ps| > 0, MANA_START, 0, deck);
    match PlayerIndex(ps, key)
    case Some(i) =>
      ReplaceKeepsPlayers(ps, i, p);
    case None =>
  }

  /** The added player is found under its key, flipped exactly when the match already had a player,
      with start mana; every other player keeps its place. */
  lemma AddPlayerRule(ps: seq<Player>, key: string, deck: DeckState)
    requires PlayersOk(ps) && WellFormed(deck)
    ensures var r := WithPlayer(ps, key, deck); var i := PlayerIndex(r, key);
      && i.Some? && r[i.value] == Player(key, |ps| > 0, MANA_START, 0, deck)
      && (forall j :: 0 <= j < |ps| && ps[j].key != key ==> r[j] == ps[j])
      && |r| == if PlayerIndex(ps, key).Some? then |ps| else |ps| + 1
  {
    var p := Player(key, |ps| > 0, MANA_START, 0, deck);
    AddKeepsPlayers(ps, key, deck);
    match PlayerIndex(ps, key)
    case Some(i) =>
      var r := ps[i := p];
      assert r[i].key == key;
      var j := PlayerIndex(r, key);
      assert j.Some?;
      assert j.value == i by {
        assert DistinctKeys(r);
      }
    case None =>
      var r := ps + [p];
      assert r[|ps|] == p;
      assert PlayerIndex(r, key) == Some(|ps|);
  }

  /** Removing a player keeps the players well formed. */
  lemma RemoveKeepsPlayers(ps: seq<Player>, key: string)
    requires PlayersOk(ps)
    ensures PlayersOk(WithoutPlayer(ps, key))
  {
    match PlayerIndex(ps, key)
    case Some(i) =>
      var r := ps[..i] + ps[i + 1..];
      assert forall j :: 0 <= j < |r| ==> r[j] == ps[if j < i then j else j + 1];
    case None =>
  }

  /** Where each survivor of a removal at `i` came from. */
  lemma RemovedAt(ps: seq<Player>, i: nat)
    requires i < |ps|
    ensures |ps[..i] + ps[i + 1..]| == |ps| - 1
    ensures forall j :: 0 <= j < i ==> (ps[..i] + ps[i + 1..])[j] == ps[j]
    ensures forall j :: i < j < |ps| ==> (ps[..i] + ps[i + 1..])[j - 1] == ps[j]
  {
  }

  /** Nobody is left under the removed key. */
  lemma RemoveDropsKey(ps: seq<Player>, key: string)
    requires PlayersOk(ps)
    ensures PlayerIndex(WithoutPlayer(ps, key), key).None?
  {
    match PlayerIndex(ps, key)
    case Some(i) =>
      RemovedAt(ps, i);
      var r := ps[..i] + ps[i + 1..];
      forall j | 0 <= j < |r|
        ensures r[j].key != key
      {
        assert DistinctKeys(ps);
        if j < i {
          assert r[j] == ps[j] && ps[j].key != ps[i].key;
        } else {
          assert r[j] == ps[j + 1] && ps[i].key != ps[j + 1].key;
        }
      }
    case None =>
  }

  /** Every player under another key is kept. */
  lemma RemoveKeepsOthers(ps: seq<Player>, key: string)
    ensures forall j :: 0 <= j < |ps| && ps[j].key != key ==> ps[j] in WithoutPlayer(ps, key)
  {
    match PlayerIndex(ps, key)
    case Some(i) =>
      RemovedAt(ps, i);
      var r := ps[..i] + ps[i + 1..];
      forall j | 0 <= j < |ps| && ps[j].key != key
        ensures ps[j] in r
      {
        assert r[if j < i then j else j - 1] == ps[j];
      }
    case None =>
  }

  /** Nobody is added. */
  lemma RemoveAddsNobody(ps: seq<Player>, key: string)
    ensures forall j :: 0 <= j < |WithoutPlayer(ps, key)| ==> WithoutPlayer(ps, key)[j] in ps
  {
    match PlayerIndex(ps, key)
    case Some(i) =>
      RemovedAt(ps, i);
      var r := ps[..i] + ps[i + 1..];
      forall j | 0 <= j < |r|
        ensures r[j] in ps
      {
        assert r[j] == ps[if j < i then j else j + 1];
      }
    case None =>
  }

  /** Nobody is left under the removed key, every other player is kept, and nobody else is added. */
  lemma RemovePlayerRule(ps: seq<Player>, key: string)
    requires PlayersOk(ps)
    ensures var r := WithoutPlayer(ps, key);
      && PlayerIndex(r, key).None?
      && (forall j :: 0 <= j < |ps| && ps[j].key != key ==> ps[j] in r)
      && (forall j :: 0 <= j < |r| ==> r[j] in ps)
      && |r| == if PlayerIndex(ps, key).Some? then |ps| - 1 else |ps|
  {
    RemoveDropsKey(ps, key);
    RemoveKeepsOthers(ps, key);
    RemoveAddsNobody(ps, key);
  }

  /** The mana regeneration of one player on a tick. */
  function Regen(p: Player, tick: int): Player
  {
    if p.mana < MANA_MAX && tick >= p.manaRegenLastTick + MANA_REGEN_TICKS
    then p.(mana := p.mana + 1, manaRegenLastTick := tick)
    else p
  }

  function RegenAll(ps: seq<Player>, tick: int): seq<Player>
  {
    seq(|ps|, j requires 0 <= j < |ps| => Regen(ps[j], tick))
  }

  /** Regeneration adds exactly one mana, and restarts the timer, exactly when the player is below the
      cap and the regeneration period has passed; it never takes mana above the cap. */
  lemma RegenRule(p: Player, tick: int)
    ensures var r := Regen(p, tick);
      && r.key == p.key && r.isFlipped == p.isFlipped && r.deck == p.deck
      && (r.mana == p.mana + 1 && r.manaRegenLastTick == tick
          <==> p.mana < MANA_MAX && tick >= p.manaRegenLastTick + MANA_REGEN_TICKS)
      && (r.mana == p.mana + 1 || r == p)
      && (p.mana <= MANA_MAX ==> r.mana <= MANA_MAX)
  {
  }

  lemma RegenAllKeepsPlayers(ps: seq<Player>, tick: int)
    requires PlayersOk(ps)
    ensures PlayersOk(RegenAll(ps, tick))
  {
    var r := RegenAll(ps, tick);
    forall j | 0 <= j < |ps|
      ensures r[j].key == ps[j].key && r[j].deck == ps[j].deck && 0 <= r[j].mana <= MANA_MAX
    {
      RegenRule(ps[j], tick);
    }
  }

  /** useMana: spending restarts the regeneration timer when the mana was full. */
  function Spend(p: Player, cost: int, tick: int): Player
  {
    p.(mana := p.mana - cost,
       manaRegenLastTick := if p.mana == MANA_MAX then tick else p.manaRegenLastTick)
  }

  // ---------------------------------------------------------------------------------------------
  // Entities

  /** The keys of both entity maps are the ids in the manager's list, which are distinct and below
      the id counter. */
  predicate Bookkeeping(keys: set<nat>, syncKeys: set<nat>, es: seq<EntityAi.Entity>, ids: nat)
  {
    && keys == Ids(es) && syncKeys == Ids(es)
    && EntityAi.UniqueIds(es)
    && forall j :: 0 <= j < |es| ==> es[j].id < ids
  }

  function Ids(es: seq<EntityAi.Entity>): set<nat>
  {
    set j | 0 <= j < |es| :: es[j].id
  }

  /** spawnEntity: a new entity of the given kind with the table's hit points, spawning for one second,
      without target or path. */
  function Spawned(id: nat, owner: Player, x: real, y: real, kind: EntityType, tick: int): EntityAi.Entity
  {
    EntityAi.Entity(id, owner.key, owner.isFlipped, kind, EntityAi.Point(x, y), x, y,
                    Stats(kind).hitpoints, Spawning, tick + TICKS_1S, None, None, 0)
  }

  /** A spawned entity belongs to its owner, stands at the requested point with its synchronised tile
      there too, and has full hit points. For its first second it is inert: its turn changes nothing,
      and no entity can pick it as a target. */
  lemma SpawnedRule(es: seq<EntityAi.Entity>, i: nat, owner: Player, x: real, y: real, kind: EntityType, tick: int, now: int)
    requires i < |es| && es[i] == Spawned(es[i].id, owner, x, y, kind, tick)
    requires now < tick + TICKS_1S
    ensures es[i].owner == owner.key && es[i].flipped == owner.isFlipped && es[i].kind == kind
    ensures es[i].pos == EntityAi.Point(x, y) && es[i].tileX == x && es[i].tileY == y
    ensures es[i].hp == Stats(kind).hitpoints && es[i].target.None? && es[i].path.None?
    ensures EntityAi.Turn(es, i, now) == EntityAi.Done(es)
    ensures forall e :: !EntityAi.IsCandidate(e, es[i])
  {
    EntityAi.BusyEntityIsSkipped(es, i, now);
  }

  /** Spawning with the counter as id keeps the bookkeeping: the id is fresh. */
  lemma SpawnKeepsBookkeeping(keys: set<nat>, syncKeys: set<nat>, es: seq<EntityAi.Entity>, ids: nat, e: EntityAi.Entity)
    requires Bookkeeping(keys, syncKeys, es, ids) && e.id == ids
    ensures ids !in Ids(es)
    ensures Bookkeeping(keys + {ids}, syncKeys + {ids}, es + [e], ids + 1)
  {
    var r := es + [e];
    assert Ids(r) == Ids(es) + {ids} by {
      assert forall j :: 0 <= j < |es| ==> r[j] == es[j];
      assert r[|es|] == e;
    }
  }

  /** A list with the same roster keeps the bookkeeping. */
  lemma RosterKeepsBookkeeping(keys: set<nat>, syncKeys: set<nat>, a: seq<EntityAi.Entity>, b: seq<EntityAi.Entity>, ids: nat)
    requires Bookkeeping(keys, syncKeys, a, ids) && EntityAi.Roster(a) == EntityAi.Roster(b)
    ensures Bookkeeping(keys, syncKeys, b, ids)
  {
    assert |a| == |EntityAi.Roster(a)|;
    assert forall j :: 0 <= j < |a| ==> a[j].id == EntityAi.Roster(a)[j].0 == EntityAi.Roster(b)[j].0 == b[j].id;
  }

  /** Where a player's tower stands: mirrored through the field's centre for a flipped player. */
  function TowerPlace(p: Player, t: TowerSpot): (real, real)
  {
    if p.isFlipped then (FIELD_TILES_WIDTH as real - t.x, FIELD_TILES_HEIGHT as real - t.y) else (t.x, t.y)
  }

  /** Tower `k` of the table, spawned for a player with the given id. */
  function TowerOf(id: nat, p: Player, k: nat, tick: int): EntityAi.Entity
    requires k < |TOWERS|
  {
    var at := TowerPlace(p, TOWERS[k]);
    Spawned(id, p, at.0, at.1, TOWERS[k].kind, tick)
  }

  /** The towers start spawns for one player, numbered from `id0`. */
  function PlayerTowers(p: Player, id0: nat, tick: int): seq<EntityAi.Entity>
  {
    seq(|TOWERS|, k requires 0 <= k < |TOWERS| => TowerOf(id0 + k, p, k, tick))
  }

  /** The towers start spawns for all players in order, numbered from `id0`. */
  function {:induction false} StartSpawns(ps: seq<Player>, id0: nat, tick: int): (r: seq<EntityAi.Entity>)
    decreases |ps|
  {
    if ps == [] then []
    else
      var pre := StartSpawns(ps[..|ps| - 1], id0, tick);
      pre + PlayerTowers(ps[|ps| - 1], id0 + |pre|, tick)
  }

  /** The ids of a list of new entities count up from `id0`. */
  predicate NumberedFrom(es: seq<EntityAi.Entity>, id0: nat)
  {
    forall j :: 0 <= j < |es| ==> es[j].id == id0 + j
  }

  /** The entity is a tower of the table spawned for one of the players. */
  predicate IsTowerOf(e: EntityAi.Entity, ps: seq<Player>, tick: int)
  {
    exists i, k :: 0 <= i < |ps| && 0 <= k < |TOWERS| && e == TowerOf(e.id, ps[i], k, tick)
  }

  predicate TowersOf(es: seq<EntityAi.Entity>, ps: seq<Player>, tick: int)
  {
    forall j :: 0 <= j < |es| ==> IsTowerOf(es[j], ps, tick)
  }

  /** The towers start spawns are numbered consecutively from `id0`, and each one is a tower of the
      table spawned for one of the players, where TowerPlace puts it. */
  lemma {:induction false} StartSpawnsRule(ps: seq<Player>, id0: nat, tick: int)
    ensures NumberedFrom(StartSpawns(ps, id0, tick), id0)
    ensures TowersOf(StartSpawns(ps, id0, tick), ps, tick)
    decreases |ps|
  {
    if ps != [] {
      var init, last := ps[..|ps| - 1], ps[|ps| - 1];
      StartSpawnsRule(init, id0, tick);
      var pre := StartSpawns(init, id0, tick);
      var towers := PlayerTowers(last, id0 + |pre|, tick);
      var r := StartSpawns(ps, id0, tick);
      assert r == pre + towers;
      forall j | 0 <= j < |r|
        ensures r[j].id == id0 + j
        ensures IsTowerOf(r[j], ps, tick)
      {
        if j < |pre| {
          assert r[j] == pre[j];
          assert IsTowerOf(pre[j], init, tick);
          var i, k :| 0 <= i < |init| && 0 <= k < |TOWERS| && pre[j] == TowerOf(pre[j].id, init[i], k, tick);
          assert init[i] == ps[i];
        } else {
          var k := j - |pre|;
          assert r[j] == towers[k] == TowerOf(id0 + j, ps[|ps| - 1], k, tick);
        }
      }
      assert NumberedFrom(r, id0);
      assert TowersOf(r, ps, tick);
    }
  }

  /** The start spawns of one more player are those of the others followed by its towers. */
  lemma StartSpawnsSnoc(ps: seq<Player>, i: nat, id0: nat, tick: int)
    requires i < |ps|
    ensures StartSpawns(ps[..i + 1], id0, tick)
         == StartSpawns(ps[..i], id0, tick) + PlayerTowers(ps[i], id0 + |StartSpawns(ps[..i], id0, tick)|, tick)
  {
    assert ps[..i + 1][..i] == ps[..i];
  }

  /** The entities that survive a tick, in list order. */
  function {:induction false} Living(es: seq<EntityAi.Entity>): (r: seq<EntityAi.Entity>)
    decreases |es|
  {
    if es == [] then []
    else Living(es[..|es| - 1]) + (if es[|es| - 1].hp > 0 then [es[|es| - 1]] else [])
  }

  function DeadIds(es: seq<EntityAi.Entity>): set<nat>
  {
    set j | 0 <= j < |es| && es[j].hp <= 0 :: es[j].id
  }

  /** Appending an entity adds its id, and adds it to the dead ids when it has no hit points. */
  lemma IdsSnoc(es: seq<EntityAi.Entity>, e: EntityAi.Entity)
    ensures Ids(es + [e]) == Ids(es) + {e.id}
    ensures DeadIds(es + [e]) == DeadIds(es) + (if e.hp <= 0 then {e.id} else {})
  {
    var r := es + [e];
    assert forall j :: 0 <= j < |es| ==> r[j] == es[j];
    assert r[|es|] == e;
  }

  /** Exactly the entities with hit points left survive. */
  lemma {:induction false} LivingRule(es: seq<EntityAi.Entity>)
    ensures forall e :: e in Living(es) <==> e in es && e.hp > 0
    decreases |es|
  {
    if es != [] {
      var init := es[..|es| - 1];
      LivingRule(init);
      assert es == init + [es[|es| - 1]];
    }
  }

  /** The surviving ids are the ids that were not dead. */
  lemma {:induction false} LivingIds(es: seq<EntityAi.Entity>)
    requires EntityAi.UniqueIds(es)
    ensures Ids(Living(es)) == Ids(es) - DeadIds(es)
    decreases |es|
  {
    if es != [] {
      var init, last := es[..|es| - 1], es[|es| - 1];
      assert es == init + [last];
      LivingIds(init);
      IdsSnoc(init, last);
      IdsSnoc(Living(init), last);
      assert last.id !in Ids(init) by {
        assert forall j :: 0 <= j < |init| ==> init[j] == es[j];
      }
      assert DeadIds(init) <= Ids(init);
      if last.hp > 0 {
        assert Living(es) == Living(init) + [last];
      } else {
        assert Living(es) == Living(init);
      }
    }
  }

  /** The survivors keep distinct ids. */
  lemma {:induction false} LivingUnique(es: seq<EntityAi.Entity>)
    requires EntityAi.UniqueIds(es)
    ensures EntityAi.UniqueIds(Living(es))
    decreases |es|
  {
    if es != [] {
      var init, last := es[..|es| - 1], es[|es| - 1];
      assert es == init + [last];
      LivingUnique(init);
      LivingIds(init);
      IdsSnoc(Living(init), last);
      assert last.id !in Ids(init) by {
        assert forall j :: 0 <= j < |init| ==> init[j] == es[j];
      }
      var l := Living(init);
      if last.hp > 0 {
        var r := l + [last];
        forall j, k | 0 <= j < k < |r|
          ensures r[j].id != r[k].id
        {
          if k == |l| {
            assert r[j].id in Ids(l);
          } else {
            assert r[j] == l[j] && r[k] == l[k];
          }
        }
      }
    }
  }

  /** Removing the dead from the list and their keys from both maps keeps the bookkeeping. */
  lemma LivingKeepsBookkeeping(keys: set<nat>, syncKeys: set<nat>, es: seq<EntityAi.Entity>, ids: nat)
    requires Bookkeeping(keys, syncKeys, es, ids)
    ensures Bookkeeping(keys - DeadIds(es), syncKeys - DeadIds(es), Living(es), ids)
  {
    LivingIds(es);
    LivingUnique(es);
    LivingRule(es);
    var l := Living(es);
    forall j | 0 <= j < |l|
      ensures l[j].id < ids
    {
      assert l[j] in es;
    }
  }

  /** A completed tick of the entity manager followed by the removal of the dead. */
  function AfterLogic(es: seq<EntityAi.Entity>, tick: int): EntityAi.Outcome
  {
    match EntityAi.UpdateStep(es, tick)
    case Threw(x) => EntityAi.Threw(x)
    case Done(x) => EntityAi.Done(Living(x))
  }

  /** After a completed tick exactly the entities left with hit points survive, and none left at or below zero. */
  lemma AfterLogicRemovesDead(es: seq<EntityAi.Entity>, tick: int)
    requires AfterLogic(es, tick).Done?
    ensures forall e :: e in AfterLogic(es, tick).es <==> e in EntityAi.UpdateStep(es, tick).es && e.hp > 0
    ensures forall j :: 0 <= j < |AfterLogic(es, tick).es| ==> AfterLogic(es, tick).es[j].hp > 0
  {
    var l := AfterLogic(es, tick).es;
    LivingRule(EntityAi.UpdateStep(es, tick).es);
    assert forall j :: 0 <= j < |l| ==> l[j] in l;
  }

  // ---------------------------------------------------------------------------------------------
  // Card plays

  /** Number.isInteger. */
  predicate IsInteger(x: real)
  {
    x.Floor as real == x
  }

  /** canSpawn: the tile is on the field and not water. */
  predicate CanSpawn(tileX: int, tileY: int)
  {
    0 <= tileX < FIELD_TILES_WIDTH && 0 <= tileY < FIELD_TILES_HEIGHT && !IsWater(tileX, tileY)
  }

  /** The entity a card spawns: the entity type of the same name. */
  function KindOf(c: Cards.CardId): (t: EntityType)
    ensures Stats(t).walkSpeed > 0.0
    ensures Stats(t).isFlying <==> Cards.Card(c).isFlying
  {
    match c
    case MeleeFighter => MeleeFighter
    case RangedFighter => RangedFighter
    case Flying => Flying
  }

  /** What onPlayCard does for a known player with a message: nothing, a rejection naming the request,
      or the play with the player's new record and the spawn point. */
  datatype Play =
    | Ignored
    | Rejected(id: int)
    | Accepted(id: int, card: Cards.CardId, player: Player, x: real, y: real)

  function DecidePlay(p: Player, m: PlayCardRequest, tick: int): Play
    requires WellFormed(p.deck)
  {
    if !(IsInteger(m.id) && IsInteger(m.card) && IsInteger(m.tileX) && IsInteger(m.tileY)) then Ignored
    else
      var id, tileX, tileY := m.id.Floor, m.tileX.Floor, m.tileY.Floor;
      match Cards.FromCode(m.card.Floor)
      case None => Rejected(id)
      case Some(c) =>
        if c !in p.deck.hand then Rejected(id)
        else if !CanSpawn(tileX, tileY) then Rejected(id)
        else if p.mana < Cards.Card(c).manaCost then Rejected(id)
        else
          var q := Spend(p.(deck := AfterUse(p.deck, c)), Cards.Card(c).manaCost, tick);
          Accepted(id, c, q, tileX as real + 0.5, tileY as real + 0.5)
  }

  /** The checks of onPlayCard after sanitising: the card is a card in the hand, the tile can be
      spawned on, and the mana covers the card's cost. */
  predicate Playable(p: Player, c: Option<Cards.CardId>, tileX: int, tileY: int)
  {
    c.Some? && c.value in p.deck.hand && CanSpawn(tileX, tileY) && p.mana >= Cards.Card(c.value).manaCost
  }

  /** A play is ignored exactly when a field of the message is not an integer. Otherwise it is rejected,
      answering the request's id, exactly when the card is not in the hand, the tile is off the field or
      water, or the mana does not cover the cost. */
  lemma PlayValidation(p: Player, m: PlayCardRequest, tick: int)
    requires WellFormed(p.deck)
    ensures var r := DecidePlay(p, m, tick);
      && (r.Ignored? <==> !(IsInteger(m.id) && IsInteger(m.card) && IsInteger(m.tileX) && IsInteger(m.tileY)))
      && (r.Rejected? <==> !r.Ignored? && !Playable(p, Cards.FromCode(m.card.Floor), m.tileX.Floor, m.tileY.Floor))
      && (!r.Ignored? ==> r.id as real == m.id)
  {
  }

  /** An accepted play rotates the deck with the card, spends exactly its cost (never going below zero),
      restarts the regeneration timer exactly when the mana was full, and spawns at the centre of the
      requested tile. The player stays well formed. */
  lemma PlayAccepted(p: Player, m: PlayCardRequest, tick: int)
    requires PlayerOk(p)
    requires DecidePlay(p, m, tick).Accepted?
    ensures var r := DecidePlay(p, m, tick); var q := r.player;
      && Cards.Code(r.card) as real == m.card && r.card in p.deck.hand
      && q.key == p.key && q.isFlipped == p.isFlipped
      && q.deck == AfterUse(p.deck, r.card)
      && PlayerOk(q) && AllCards(q.deck) == AllCards(p.deck)
      && q.mana == p.mana - Cards.Card(r.card).manaCost && 0 <= q.mana < MANA_MAX
      && (q.manaRegenLastTick == tick || q.manaRegenLastTick == p.manaRegenLastTick)
      && (p.mana == MANA_MAX ==> q.manaRegenLastTick == tick)
      && (p.mana != MANA_MAX ==> q.manaRegenLastTick == p.manaRegenLastTick)
      && r.x == m.tileX + 0.5 && r.y == m.tileY + 0.5
  {
    var r := DecidePlay(p, m, tick);
    UseKeepsCards(p.deck, r.card);
  }

  /** onPlayCard as a whole: a missing player or message is ignored. */
  function PlayOf(ps: seq<Player>, key: string, msg: Option<PlayCardRequest>, tick: int): Play
    requires PlayersOk(ps)
  {
    match PlayerIndex(ps, key)
    case None => Ignored
    case Some(i) =>
      match msg
      case None => Ignored
      case Some(m) => DecidePlay(ps[i], m, tick)
  }

  // ---------------------------------------------------------------------------------------------
  // The state machine

  /** How update moves the match state: a starting match begins playing once its start tick is
      reached; nothing else changes the state. */
  function NextState(s: GameState, tick: int, nextStateAt: int): (r: GameState)
  {
    if s == Starting && tick >= nextStateAt then Playing else s
  }

  /** Update never goes back: waiting stays waiting, and only a due start changes anything. */
  lemma StateOrder(s: GameState, tick: int, nextStateAt: int)
    ensures var r := NextState(s, tick, nextStateAt);
      && (r != s <==> s == Starting && tick >= nextStateAt)
      && (r == Waiting <==> s == Waiting)
      && (s == Playing || s == Done ==> r == s)
  {
  }

  class ServerLogicEngine {
    var state: GameState
    var tick: int
    var nextStateAt: int
    var players: seq<Player>
    const manager: EntityAi.EntityManager
    /** The key sets of the engine's entity map and of the synchronised entity map. */
    var entityKeys: set<nat>
    var syncKeys: set<nat>
    /** The id counter. */
    var ids: nat
    /** Messages sent to clients, oldest first. */
    var outbox: seq<Message>
    /** Whether the room was told to disconnect. */
    var disconnected: bool

    ghost predicate Valid()
      reads this, manager
    {
      Bookkeeping(entityKeys, syncKeys, manager.entities, ids) && PlayersOk(players)
    }

    constructor()
      ensures Valid() && fresh(manager)
      ensures state == Waiting && tick == 0 && nextStateAt == 0 && players == [] && manager.entities == []
      ensures ids == 1 && outbox == [] && !disconnected
    {
      state := Waiting;
      tick := 0;
      nextStateAt := 0;
      players := [];
      manager := new EntityAi.EntityManager();
      entityKeys := {};
      syncKeys := {};
      ids := 1;
      outbox := [];
      disconnected := false;
    }

    /** addPlayer. The deck is the freshly shuffled deck the player gets. */
    method AddPlayer(key: string, deck: DeckState)
      requires Valid() && WellFormed(deck)
      modifies this`players
      ensures Valid()
      ensures players == WithPlayer(old(players), key, deck)
    {
      AddKeepsPlayers(players, key, deck);
      players := WithPlayer(players, key, deck);
    }

    /** removePlayer. */
    method RemovePlayer(key: string)
      requires Valid()
      modifies this`players
      ensures Valid()
      ensures players == WithoutPlayer(old(players), key)
    {
      RemoveKeepsPlayers(players, key);
      var i := PlayerIndex(players, key);
      if i.Some? {
        players := players[..i.value] + players[i.value + 1..];
      }
    }

    /** spawnEntity: the counter gives the id, and the entity enters all three collections. */
    method SpawnEntity(x: real, y: real, kind: EntityType, owner: Player)
      requires Bookkeeping(entityKeys, syncKeys, manager.entities, ids)
      modifies this`ids, this`entityKeys, this`syncKeys, manager`entities
      ensures Bookkeeping(entityKeys, syncKeys, manager.entities, ids)
      ensures old(ids) !in old(entityKeys) && ids == old(ids) + 1
      ensures manager.entities == old(manager.entities) + [Spawned(old(ids), owner, x, y, kind, tick)]
    {
      var e := Spawned(ids, owner, x, y, kind, tick);
      SpawnKeepsBookkeeping(entityKeys, syncKeys, manager.entities, ids, e);
      entityKeys := entityKeys + {ids};
      syncKeys := syncKeys + {ids};
      manager.entities := manager.entities + [e];
      ids := ids + 1;
    }

    /** The towers of one player, spawned in table order. */
    method SpawnTowers(p: Player)
      requires Bookkeeping(entityKeys, syncKeys, manager.entities, ids)
      modifies this`ids, this`entityKeys, this`syncKeys, manager`entities
      ensures Bookkeeping(entityKeys, syncKeys, manager.entities, ids)
      ensures manager.entities == old(manager.entities) + PlayerTowers(p, old(ids), tick)
      ensures ids == old(ids) + |TOWERS|
    {
      var k := 0;
      while k < |TOWERS|
        invariant 0 <= k <= |TOWERS| && ids == old(ids) + k
        invariant Bookkeeping(entityKeys, syncKeys, manager.entities, ids)
        invariant manager.entities == old(manager.entities) + PlayerTowers(p, old(ids), tick)[..k]
      {
        ghost var towers := PlayerTowers(p, old(ids), tick);
        ghost var before := manager.entities;
        var at := TowerPlace(p, TOWERS[k]);
        ghost var id := ids;
        SpawnEntity(at.0, at.1, TOWERS[k].kind, p);
        assert manager.entities == before + [Spawned(id, p, at.0, at.1, TOWERS[k].kind, tick)];
        assert id == old(ids) + k;
        assert towers[k] == TowerOf(old(ids) + k, p, k, tick);
        assert manager.entities == before + [towers[k]];
        assert towers[..k + 1] == towers[..k] + [towers[k]];
        k := k + 1;
      }
      assert PlayerTowers(p, old(ids), tick)[..k] == PlayerTowers(p, old(ids), tick);
    }

    /** start: only a waiting match starts. It starts in three seconds; every player's regeneration
        timer is set to that tick, every player is sent the hand, and every player's towers spawn. */
    method Start()
      requires Valid()
      modifies this`state, this`nextStateAt, this`players, this`outbox, this`ids, this`entityKeys, this`syncKeys,
               manager`entities
      ensures Valid()
      ensures old(state) != Waiting ==>
        && state == old(state) && nextStateAt == old(nextStateAt) && players == old(players)
        && outbox == old(outbox) && ids == old(ids) && manager.entities == old(manager.entities)
      ensures old(state) == Waiting ==>
        && state == Starting && nextStateAt == tick + TICKS_3S
        && players == Retimed(old(players), nextStateAt)
        && outbox == old(outbox) + Hands(old(players))
        && manager.entities == old(manager.entities) + StartSpawns(old(players), old(ids), tick)
        && ids == old(ids) + |StartSpawns(old(players), old(ids), tick)|
    {
      if state != Waiting {
        return;
      }
      state := Starting;
      nextStateAt := tick + TICKS_3S;
      StartPlayers();
      RetimeAll(nextStateAt);
    }

    /** The regeneration timers of the player loop of start. */
    method RetimeAll(at: int)
      requires PlayersOk(players)
      modifies this`players
      ensures PlayersOk(players)
      ensures players == Retimed(old(players), at)
    {
      RetimedKeepsPlayers(players, at);
      var i := 0;
      while i < |players|
        invariant 0 <= i <= |players| == |old(players)|
        invariant forall j :: 0 <= j < i ==> players[j] == old(players)[j].(manaRegenLastTick := at)
        invariant forall j :: i <= j < |players| ==> players[j] == old(players)[j]
      {
        players := players[i := players[i].(manaRegenLastTick := at)];
        i := i + 1;
      }
    }

    /** The rest of the player loop of start: each player is sent its hand and its towers spawn. */
    method StartPlayers()
      requires Valid()
      modifies this`outbox, this`ids, this`entityKeys, this`syncKeys, manager`entities
      ensures Valid()
      ensures outbox == old(outbox) + Hands(players)
      ensures manager.entities == old(manager.entities) + StartSpawns(players, old(ids), tick)
      ensures ids == old(ids) + |StartSpawns(players, old(ids), tick)|
    {
      ghost var ps, id0, t := players, ids, tick;
      var i := 0;
      while i < |players|
        invariant players == ps && tick == t && 0 <= i <= |ps|
        invariant Bookkeeping(entityKeys, syncKeys, manager.entities, ids)
        invariant outbox == old(outbox) + Hands(ps[..i])
        invariant manager.entities == old(manager.entities) + StartSpawns(ps[..i], id0, t)
        invariant ids == id0 + |StartSpawns(ps[..i], id0, t)|
      {
        StartSpawnsSnoc(ps, i, id0, t);
        HandsSnoc(ps, i);
        StartPlayer(players[i]);
        i := i + 1;
      }
      assert ps[..i] == ps;
    }

    /** One turn of the player loop of start: the player is sent its hand and its towers spawn. */
    method StartPlayer(p: Player)
      requires Bookkeeping(entityKeys, syncKeys, manager.entities, ids) && PlayerOk(p)
      modifies this`outbox, this`ids, this`entityKeys, this`syncKeys, manager`entities
      ensures Bookkeeping(entityKeys, syncKeys, manager.entities, ids)
      ensures outbox == old(outbox) + [HandMessage(p)]
      ensures manager.entities == old(manager.entities) + PlayerTowers(p, old(ids), tick)
      ensures ids == old(ids) + |PlayerTowers(p, old(ids), tick)|
    {
      outbox := outbox + [HandMessage(p)];
      SpawnTowers(p);
    }

    /** update: one tick of the match state machine. A running match plays a tick of game logic; a
        finished match disconnects the room once its end tick is reached. */
    method Update() returns (threw: bool)
      requires Valid()
      modifies this`state, this`players, this`entityKeys, this`syncKeys, this`disconnected, manager
      ensures Valid()
      ensures state == NextState(old(state), tick, nextStateAt)
      ensures old(state) != Playing ==>
        && !threw && players == old(players) && manager.entities == old(manager.entities)
        && disconnected == (old(disconnected) || (old(state) == Done && tick >= nextStateAt))
      ensures old(state) == Playing ==>
        && disconnected == old(disconnected)
        && players == RegenAll(old(players), tick)
        && threw == AfterLogic(old(manager.entities), tick).Threw?
        && manager.entities == AfterLogic(old(manager.entities), tick).es
    {
      threw := false;
      match state
      case Starting =>
        if tick >= nextStateAt {
          state := Playing;
        }
      case Playing =>
        threw := GameLogic();
      case Done =>
        if tick >= nextStateAt {
          disconnected := true;
        }
      case Waiting =>
    }

    /** gameLogic: mana regeneration, a tick of the entity manager, then the removal of every entity
        without hit points. A throw from the entity manager ends the tick there. */
    method GameLogic() returns (threw: bool)
      requires Valid()
      modifies this`players, this`entityKeys, this`syncKeys, manager
      ensures Valid()
      ensures players == RegenAll(old(players), tick)
      ensures threw == AfterLogic(old(manager.entities), tick).Threw?
      ensures manager.entities == AfterLogic(old(manager.entities), tick).es
      ensures !threw ==> forall j :: 0 <= j < |manager.entities| ==> manager.entities[j].hp > 0
    {
      RegenMana();
      ghost var es := manager.entities;
      threw := manager.Update(tick);
      if threw {
        EntityAi.DecisionsUnmoved(es, tick, |es|);
      } else {
        EntityAi.UpdateSyncsTiles(es, tick);
      }
      RosterKeepsBookkeeping(entityKeys, syncKeys, es, manager.entities, ids);
      if threw {
        return;
      }
      RemoveDead();
      LivingRule(EntityAi.UpdateStep(es, tick).es);
      assert forall j :: 0 <= j < |manager.entities| ==> manager.entities[j] in manager.entities;
    }

    /** The mana regeneration loop of gameLogic. */
    method RegenMana()
      requires PlayersOk(players)
      modifies this`players
      ensures PlayersOk(players)
      ensures players == RegenAll(old(players), tick)
    {
      RegenAllKeepsPlayers(players, tick);
      var i := 0;
      while i < |players|
        invariant 0 <= i <= |players| == |old(players)|
        invariant forall j :: 0 <= j < i ==> players[j] == Regen(old(players)[j], tick)
        invariant forall j :: i <= j < |players| ==> players[j] == old(players)[j]
      {
        players := players[i := Regen(players[i], tick)];
        i := i + 1;
      }
    }

    /** The removal loop of gameLogic: every entity without hit points leaves the list and both maps. */
    method RemoveDead()
      requires Bookkeeping(entityKeys, syncKeys, manager.entities, ids)
      modifies this`entityKeys, this`syncKeys, manager`entities
      ensures Bookkeeping(entityKeys, syncKeys, manager.entities, ids)
      ensures manager.entities == Living(old(manager.entities))
    {
      var es := manager.entities;
      LivingKeepsBookkeeping(entityKeys, syncKeys, es, ids);
      var kept := [];
      var i := 0;
      while i < |es|
        invariant 0 <= i <= |es|
        invariant kept == Living(es[..i])
        invariant entityKeys == old(entityKeys) - DeadIds(es[..i])
        invariant syncKeys == old(syncKeys) - DeadIds(es[..i])
      {
        assert es[..i + 1][..i] == es[..i];
        assert DeadIds(es[..i + 1]) == DeadIds(es[..i]) + (if es[i].hp <= 0 then {es[i].id} else {}) by {
          assert forall j :: 0 <= j < i ==> es[..i + 1][j] == es[..i][j];
        }
        if es[i].hp <= 0 {
          entityKeys := entityKeys - {es[i].id};
          syncKeys := syncKeys - {es[i].id};
        } else {
          kept := kept + [es[i]];
        }
        i := i + 1;
      }
      assert es[..i] == es;
      manager.entities := kept;
    }

    /** onPlayCard: a request from an unknown player, without a message or with a non-integer field is
        dropped silently; a rejected one is answered with no next card and changes nothing else; an
        accepted one rotates the deck, spends the mana, spawns the card's entity at the centre of the
        tile and is answered with the new next card. */
    method OnPlayCard(key: string, msg: Option<PlayCardRequest>)
      requires Valid()
      modifies this`players, this`outbox, this`ids, this`entityKeys, this`syncKeys, manager`entities
      ensures Valid()
      ensures match PlayOf(old(players), key, msg, tick)
        case Ignored =>
          && players == old(players) && outbox == old(outbox)
          && ids == old(ids) && manager.entities == old(manager.entities)
        case Rejected(id) =>
          && players == old(players) && outbox == old(outbox) + [PlayCardResult(key, id, None)]
          && ids == old(ids) && manager.entities == old(manager.entities)
        case Accepted(id, c, q, x, y) =>
          && PlayerIndex(old(players), key).Some?
          && players == old(players)[PlayerIndex(old(players), key).value := q]
          && outbox == old(outbox) + [PlayCardResult(key, id, Some(NextCard(q.deck)))]
          && ids == old(ids) + 1
          && manager.entities == old(manager.entities) + [Spawned(old(ids), q, x, y, KindOf(c), tick)]
    {
      var i := PlayerIndex(players, key);
      if i.None? || msg.None? {
        return;
      }
      var p := players[i.value];
      var play := DecidePlay(p, msg.value, tick);
      match play
      case Ignored =>
      case Rejected(id) =>
        outbox := outbox + [PlayCardResult(key, id, None)];
      case Accepted(id, c, q, x, y) =>
        PlayAccepted(p, msg.value, tick);
        players := players[i.value := q];
        SpawnEntity(x, y, KindOf(c), q);
        outbox := outbox + [PlayCardResult(key, id, Some(NextCard(q.deck)))];
    }
  }

  /** The CARD_HAND message start sends a player: its hand and its next card. */
  function HandMessage(p: Player): Message
    requires WellFormed(p.deck)
  {
    CardHand(p.key, p.deck.hand, NextCard(p.deck))
  }

  /** Every player's regeneration timer set to the same tick. */
  function Retimed(ps: seq<Player>, at: int): seq<Player>
  {
    seq(|ps|, j requires 0 <= j < |ps| => ps[j].(manaRegenLastTick := at))
  }

  /** Setting the regeneration timers keeps the players well formed. */
  lemma RetimedKeepsPlayers(ps: seq<Player>, at: int)
    requires PlayersOk(ps)
    ensures PlayersOk(Retimed(ps, at))
  {
    var r := Retimed(ps, at);
    assert forall j :: 0 <= j < |ps| ==> r[j].key == ps[j].key;
  }

  /** The CARD_HAND messages for the players, in order. */
  function {:induction false} Hands(ps: seq<Player>): seq<Message>
    requires forall j :: 0 <= j < |ps| ==> PlayerOk(ps[j])
    decreases |ps|
  {
    if ps == [] then []
    else
      assert PlayerOk(ps[|ps| - 1]);
      Hands(ps[..|ps| - 1]) + [HandMessage(ps[|ps| - 1])]
  }

  lemma HandsSnoc(ps: seq<Player>, i: nat)
    requires i < |ps| && forall j :: 0 <= j < |ps| ==> PlayerOk(ps[j])
    ensures PlayerOk(ps[i]) && Hands(ps[..i + 1]) == Hands(ps[..i]) + [HandMessage(ps[i])]
  {
    assert ps[..i + 1][..i] == ps[..i];
  }
}
