/**
 * The server's entity manager (server/src/logic/EntityManager.ts). Once per tick:
 *   - every entity, in list order, resolves an attack that ends this tick;
 *   - an entity that is not busy picks its next action (attack, walk towards its target, walk
 *     towards the opponent's side, or stand);
 *   - the moving entities move, overlapping ones are pushed apart;
 *   - positions are copied into the synchronised state.
 * Entities are records in one list; a target is referred to by the target's id. Path finding,
 * path following and the collision geometry are abstract.
 */
module EntityAi {
  import opened Maybe
  import opened Entities
  import opened Constants
  import opened RealMath

  datatype Point = Point(x: real, y: real)

  /** One entity. `pos` is the position of its geometry and `tileX`/`tileY` its synchronised copy.
      `flipped` is whether its owner plays from the flipped side. */
  datatype Entity = Entity(
    id: nat, owner: string, flipped: bool, kind: EntityType,
    pos: Point, tileX: real, tileY: real,
    hp: int, state: EntityState, nextStateAt: int,
    target: Option<nat>, path: Option<seq<Point>>, pathIndex: int)

  /** The result of a pass over the entities. A pass either completes, or it throws and keeps the
      changes made before the throw. */
  datatype Outcome = Done(es: seq<Entity>) | Threw(es: seq<Entity>)

  /** Field.getPath: a navmesh path between two points, for a ground or a flying unit; None when there is none. */
  const NAV_PATH: (Point, Point, bool) -> Option<seq<Point>>

  /** findBuildingPoint(from, building, offset): the point just in front of the edge of a building (given
      by its centre and its kind, which fixes its square), seen from `from`. */
  const BUILDING_POINT: (Point, Point, EntityType, real) -> Point

  /** moveEntity on an entity that has a path, at a given speed: the new position and path index. */
  const FOLLOW_PATH: (Entity, real) -> (Point, int)

  /** Buildings have square (polygon) geometry, units circular. */
  predicate IsBuilding(e: Entity)
  {
    Stats(e.kind).size.Square?
  }

  function Positions(es: seq<Entity>): seq<Point>
  {
    seq(|es|, j requires 0 <= j < |es| => es[j].pos)
  }

  /** What collideEntities followed by Field.collideWalls can do: give every entity a new position,
      moving only the circular ones. */
  ghost predicate PushesOnlyCircles(f: seq<Entity> -> seq<Point>)
  {
    forall es: seq<Entity> :: |f(es)| == |es| && forall j :: 0 <= j < |es| && IsBuilding(es[j]) ==> f(es)[j] == es[j].pos
  }

  type Collider = f: seq<Entity> -> seq<Point> | PushesOnlyCircles(f) witness Positions

  const COLLIDE: Collider

  /** `v ** 2`. */
  function Sq(v: real): real
  {
    v * v
  }

  /** Squared distance between two points. */
  function DistSq(a: Point, b: Point): real
  {
    Sq(a.x - b.x) + Sq(a.y - b.y)
  }

  // ---------------------------------------------------------------------------------------------
  // Looking up targets

  /** The index of an entity with the given id. */
  function {:induction false} FindId(es: seq<Entity>, id: nat): (r: Option<nat>)
    ensures r.Some? ==> r.value < |es| && es[r.value].id == id
    decreases |es|
  {
    if |es| == 0 then None
    else if es[0].id == id then Some(0)
    else match FindId(es[1..], id)
      case None => None
      case Some(k) => Some(k + 1)
  }

  /** The lookup finds the first entity with the id, and finds none only when no entity has it. */
  lemma {:induction false} FindIdFirst(es: seq<Entity>, id: nat)
    ensures var r := FindId(es, id);
      && (r.Some? ==> forall j :: 0 <= j < r.value ==> es[j].id != id)
      && (r.None? <==> forall j :: 0 <= j < |es| ==> es[j].id != id)
    decreases |es|
  {
    if |es| > 0 && es[0].id != id {
      FindIdFirst(es[1..], id);
      assert forall j :: 1 <= j < |es| ==> es[j] == es[1..][j - 1];
    }
  }

  /** No two entities share an id. */
  predicate UniqueIds(es: seq<Entity>)
  {
    forall j, k :: 0 <= j < k < |es| ==> es[j].id != es[k].id
  }

  /** Whether the entity with this id is still in the list with hit points left. An entity that is no
      longer in the list was removed because its hit points ran out. */
  predicate Alive(es: seq<Entity>, id: nat)
  {
    var j := FindId(es, id);
    j.Some? && es[j.value].hp > 0
  }

  // ---------------------------------------------------------------------------------------------
  // Resolving attacks

  /** The attack that ends this tick lands: when the tick is the entity's nextStateAt, it is attacking
      and it has a target, the target loses the attacker's damage. Nothing else changes. */
  function Strike(es: seq<Entity>, i: nat, tick: int): (r: seq<Entity>)
    requires i < |es|
    ensures |r| == |es|
    ensures forall j :: 0 <= j < |es| ==>
      r[j] == es[j] ||
      (tick == es[i].nextStateAt && es[i].state == Attacking && es[i].target == Some(es[j].id)
       && r[j] == es[j].(hp := es[j].hp - Stats(es[i].kind).damage))
    ensures var e := es[i]; var t := if e.target.Some? then FindId(es, e.target.value) else None;
      if tick == e.nextStateAt && e.state == Attacking && t.Some?
      then r[t.value].hp == es[t.value].hp - Stats(e.kind).damage
      else r == es
  {
    var e := es[i];
    if tick == e.nextStateAt && e.state == Attacking && e.target.Some? then
      match FindId(es, e.target.value)
      case None => es
      case Some(j) => es[j := es[j].(hp := es[j].hp - Stats(e.kind).damage)]
    else es
  }

  // ---------------------------------------------------------------------------------------------
  // Choosing a target

  /** The scan radius: the own range, widened to the view range for units that can walk. */
  function ScanRange(kind: EntityType): real
  {
    var range := Stats(kind).range;
    if Stats(kind).walkSpeed > 0.0 && range < VIEW_RANGE then VIEW_RANGE else range
  }

  /** `o` can be targeted by `self`: another owner's entity, done spawning, of a kind `self` may
      target and with hit points left. */
  predicate IsCandidate(self: Entity, o: Entity)
  {
    o.owner != self.owner && o.state != Spawning && CanTarget(self.kind, o.kind) && o.hp > 0
  }

  predicate Eligible(es: seq<Entity>, self: Entity, rangeSq: real, j: nat)
    requires j < |es|
  {
    IsCandidate(self, es[j]) && DistSq(es[j].pos, self.pos) <= rangeSq
  }

  /** The scan of setTarget over the first `n` entities, keeping a running closest distance. The
      result is an eligible entity at least as close as every other eligible one, and strictly closer
      than every earlier one, so ties go to the earliest in the list. None iff nothing is eligible. */
  function {:induction false} Nearest(es: seq<Entity>, self: Entity, rangeSq: real, n: nat): (r: Option<nat>)
    requires n <= |es|
    ensures r.Some? ==> r.value < n
  {
    if n == 0 then None
    else
      var prev := Nearest(es, self, rangeSq, n - 1);
      if Eligible(es, self, rangeSq, n - 1)
         && (prev.None? || DistSq(es[n - 1].pos, self.pos) < DistSq(es[prev.value].pos, self.pos))
      then Some(n - 1)
      else prev
  }

  /** The scan's result is what setTarget promises: an eligible entity at least as close as every other
      eligible one and strictly closer than every earlier one; None iff nothing is eligible. */
  lemma {:induction false} NearestIsNearest(es: seq<Entity>, self: Entity, rangeSq: real, n: nat)
    requires n <= |es|
    ensures var r := Nearest(es, self, rangeSq, n);
      && (r.Some? ==> Eligible(es, self, rangeSq, r.value))
      && (r.Some? ==> forall j :: 0 <= j < n && Eligible(es, self, rangeSq, j) ==>
            DistSq(es[r.value].pos, self.pos) <= DistSq(es[j].pos, self.pos))
      && (r.Some? ==> forall j :: 0 <= j < r.value && Eligible(es, self, rangeSq, j) ==>
            DistSq(es[r.value].pos, self.pos) < DistSq(es[j].pos, self.pos))
      && (r.None? <==> forall j :: 0 <= j < n ==> !Eligible(es, self, rangeSq, j))
  {
    if n > 0 {
      NearestIsNearest(es, self, rangeSq, n - 1);
    }
  }

  /** The target after validation: a target that is still alive is kept, otherwise a new one is chosen. */
  function NewTarget(es: seq<Entity>, e: Entity): Option<nat>
  {
    if e.target.Some? && Alive(es, e.target.value) then e.target else NearestId(es, e)
  }

  /** The id of the entity setTarget picks. */
  function NearestId(es: seq<Entity>, e: Entity): Option<nat>
  {
    var range := ScanRange(e.kind);
    match Nearest(es, e, Sq(range), |es|)
    case None => None
    case Some(k) => Some(es[k].id)
  }

  // ---------------------------------------------------------------------------------------------
  // Deciding the next action

  /** inAttackRange: the squared distance to the target (to the point in front of its edge for a
      building) is within the squared range. */
  predicate InAttackRange(e: Entity, t: Entity)
  {
    var p := if IsBuilding(t) then BUILDING_POINT(e.pos, t.pos, t.kind, 0.0) else t.pos;
    DistSq(e.pos, p) <= Sq(Stats(e.kind).range)
  }

  /** Ticks an attack of this kind takes. */
  function AttackTicks(kind: EntityType): int
  {
    Ceil(Stats(kind).hitSpeed * TICKS_1S as real)
  }

  function WithPath(e: Entity, to: Point): Entity
  {
    e.(path := NAV_PATH(e.pos, to, Stats(e.kind).isFlying), pathIndex := 1)
  }

  /** Where to walk to reach a target: its centre, or the point in front of a building. */
  function PathTarget(e: Entity, t: Entity): Point
  {
    if IsBuilding(t) then BUILDING_POINT(e.pos, t.pos, t.kind, 0.5) else t.pos
  }

  predicate OnLeft(p: Point)
  {
    p.x < FIELD_TILES_WIDTH_MID
  }

  /** An opponent's small tower stands on the same half (lane) of the field as `e`. */
  predicate EnemySmallTowerOnLane(es: seq<Entity>, e: Entity)
  {
    exists j :: 0 <= j < |es| && es[j].kind == SmallTower && es[j].owner != e.owner && (OnLeft(es[j].pos) == OnLeft(e.pos))
  }

  /** A ground unit still on its own half of the field must first reach the bridge. */
  predicate BridgeFirst(e: Entity)
  {
    !Stats(e.kind).isFlying && (if e.flipped then e.pos.y < FIELD_TILES_HEIGHT_MID else e.pos.y > FIELD_TILES_HEIGHT_MID)
  }

  /** The waypoint of walkToOpponentSide. */
  function Waypoint(es: seq<Entity>, e: Entity): Point
  {
    var x := if OnLeft(e.pos) then LEFT_LANE else RIGHT_LANE;
    if BridgeFirst(e) then
      Point(x, FIELD_TILES_HEIGHT_MID + (if e.flipped then 1.0 else -1.0))
    else
      var hasSmallTower := EnemySmallTowerOnLane(es, e);
      var yPos := if hasSmallTower then 7.0 else 3.0;
      var y := if e.flipped then FIELD_TILES_HEIGHT as real - yPos else yPos;
      if !hasSmallTower && (if e.flipped then e.pos.y > FIELD_TILES_HEIGHT as real - 4.0 else e.pos.y < 4.0) then
        Point(if OnLeft(e.pos) then LEFT_LANE + 3.5 else RIGHT_LANE - 3.5, y)
      else Point(x, y)
  }

  /** The index of the entity `e` now targets, if any. */
  function TargetIndex(es: seq<Entity>, e: Entity): Option<nat>
  {
    if e.target.Some? then FindId(es, e.target.value) else None
  }

  /** Two records of the same entity: same id, owner, side and kind. */
  predicate SameIdentity(a: Entity, b: Entity)
  {
    a.id == b.id && a.owner == b.owner && a.flipped == b.flipped && a.kind == b.kind
  }

  /** The decision of checkNextAction for entity `i`, as written: the entity's new record, and whether
      it throws, which a building whose target is out of range does. The entity does not move. */
  function Decide(es: seq<Entity>, i: nat, tick: int): (r: (Entity, bool))
    requires i < |es|
    ensures SameIdentity(es[i], r.0) && r.0.pos == es[i].pos
    ensures r.0.target == NewTarget(es, es[i])
  {
    var e := es[i].(target := NewTarget(es, es[i]));
    var es1 := es[i := e];
    match TargetIndex(es1, e)
    case Some(j) =>
      if InAttackRange(e, es1[j]) then (e.(state := Attacking, nextStateAt := tick + AttackTicks(e.kind)), false)
      else if Stats(e.kind).walkSpeed == 0.0 then (e, true)
      else (WithPath(e.(state := Moving), PathTarget(e, es1[j])), false)
    case None =>
      if Stats(e.kind).walkSpeed == 0.0 then (e.(state := Standing), false)
      else
        var m := e.(state := Moving);
        (WithPath(m, Waypoint(es[i := m], m)), false)
  }

  /** checkNextAction for entity `i` applied to the list. */
  function CheckNext(es: seq<Entity>, i: nat, tick: int): (r: Outcome)
    requires i < |es|
    ensures |r.es| == |es|
  {
    var d := Decide(es, i, tick);
    if d.1 then Threw(es[i := d.0]) else Done(es[i := d.0])
  }

  /** The turn of entity `i`: its attack lands if it ends now, then it decides when it is not busy. */
  function Turn(es: seq<Entity>, i: nat, tick: int): (r: Outcome)
    requires i < |es|
    ensures |r.es| == |es|
  {
    var s := Strike(es, i, tick);
    if tick >= s[i].nextStateAt then CheckNext(s, i, tick) else Done(s)
  }

  /** Who is in the list, in order: the id, owner, side and kind of each entity. */
  function Roster(es: seq<Entity>): seq<(nat, string, bool, EntityType)>
  {
    seq(|es|, j requires 0 <= j < |es| => (es[j].id, es[j].owner, es[j].flipped, es[j].kind))
  }

  /** Two lists hold the same entities in the same order. */
  predicate SameRoster(a: seq<Entity>, b: seq<Entity>)
  {
    Roster(a) == Roster(b)
  }

  /** The same entities, at the same positions. */
  predicate Unmoved(a: seq<Entity>, b: seq<Entity>)
  {
    Roster(a) == Roster(b) && Positions(a) == Positions(b)
  }

  /** Overwriting one entity with another record of it, at the same place, keeps the list unmoved. */
  lemma UnmovedUpdate(es: seq<Entity>, i: nat, e: Entity)
    requires i < |es| && SameIdentity(es[i], e) && e.pos == es[i].pos
    ensures Unmoved(es, es[i := e])
  {
    assert Roster(es[i := e]) == Roster(es);
    assert Positions(es[i := e]) == Positions(es);
  }

  /** A decision never changes who is in the list or where anything stands. */
  lemma CheckNextUnmoved(es: seq<Entity>, i: nat, tick: int)
    requires i < |es|
    ensures Unmoved(es, CheckNext(es, i, tick).es)
  {
    UnmovedUpdate(es, i, Decide(es, i, tick).0);
  }

  /** One entity's turn never changes who is in the list or where anything stands. */
  lemma TurnUnmoved(es: seq<Entity>, i: nat, tick: int)
    requires i < |es|
    ensures Unmoved(es, Turn(es, i, tick).es)
  {
    var s := Strike(es, i, tick);
    assert Roster(s) == Roster(es) && Positions(s) == Positions(es);
    if tick >= s[i].nextStateAt {
      CheckNextUnmoved(s, i, tick);
    }
  }

  /** The turns of the first `n` entities, in list order, stopping at a throw. */
  function {:induction false} Decisions(es: seq<Entity>, tick: int, n: nat): (r: Outcome)
    requires n <= |es|
    ensures |r.es| == |es|
  {
    if n == 0 then Done(es)
    else match Decisions(es, tick, n - 1)
      case Threw(x) => Threw(x)
      case Done(x) => Turn(x, n - 1, tick)
  }

  /** moveEntity for an entity in the moving state; without a path it stays put. */
  function Move(e: Entity): Entity
  {
    if e.state == Moving && e.path.Some? then
      var step := FOLLOW_PATH(e, Stats(e.kind).walkSpeed);
      e.(pos := step.0, pathIndex := step.1)
    else e
  }

  function Moves(es: seq<Entity>): seq<Entity>
  {
    seq(|es|, j requires 0 <= j < |es| => Move(es[j]))
  }

  /** The abstract collision step applied to the list. */
  function Collide(es: seq<Entity>): seq<Entity>
  {
    var ps := COLLIDE(es);
    seq(|es|, j requires 0 <= j < |es| => es[j].(pos := ps[j]))
  }

  function SyncTile(e: Entity): Entity
  {
    e.(tileX := e.pos.x, tileY := e.pos.y)
  }

  /** update(tick): the decisions of every entity, then moves, collisions and the position sync.
      A throw in the decisions ends the tick there. */
  function UpdateStep(es: seq<Entity>, tick: int): Outcome
  {
    match Decisions(es, tick, |es|)
    case Threw(x) => Threw(x)
    case Done(x) =>
      var c := Collide(Moves(x));
      Done(seq(|c|, j requires 0 <= j < |c| => SyncTile(c[j])))
  }

  // ---------------------------------------------------------------------------------------------
  // Properties

  /** Lock-out: an entity busy until a later tick changes nothing at all on its turn. */
  lemma BusyEntityIsSkipped(es: seq<Entity>, i: nat, tick: int)
    requires i < |es| && tick < es[i].nextStateAt
    ensures Turn(es, i, tick) == Done(es)
  {
  }

  /** Only a building can throw, and it throws exactly when its target is out of range. */
  lemma ThrowsIffBuildingOutOfRange(es: seq<Entity>, i: nat, tick: int)
    requires i < |es|
    ensures var d := Decide(es, i, tick); var t := TargetIndex(es, d.0);
      d.1 <==> IsBuilding(es[i]) && t.Some? && !InAttackRange(d.0, es[t.value])
  {
    SameTargetAfterCommit(es, i, es[i].(target := NewTarget(es, es[i])));
  }

  /** Writing the entity's new target into the list changes neither which entity the target is nor
      where it stands. */
  lemma SameTargetAfterCommit(es: seq<Entity>, i: nat, e: Entity)
    requires i < |es| && SameIdentity(es[i], e) && e.pos == es[i].pos
    ensures var t := TargetIndex(es[i := e], e);
      && t == TargetIndex(es, e)
      && (t.Some? ==> es[i := e][t.value].pos == es[t.value].pos && es[i := e][t.value].kind == es[t.value].kind)
  {
    var es1 := es[i := e];
    assert forall k :: 0 <= k < |es| ==> es1[k].id == es[k].id;
    FindIdSameIds(es1, es, e.target);
  }

  /** The target after validation: a target that is still alive is kept; any target is an entity of
      the list with hit points left; without a target, nothing in scan range is eligible. */
  lemma TargetIsValid(es: seq<Entity>, e: Entity)
    requires UniqueIds(es)
    ensures var t := NewTarget(es, e);
      && (e.target.Some? && Alive(es, e.target.value) ==> t == e.target)
      && (t.Some? ==> Alive(es, t.value))
      && (t.None? ==> forall j :: 0 <= j < |es| ==> !Eligible(es, e, Sq(ScanRange(e.kind)), j))
  {
    if !(e.target.Some? && Alive(es, e.target.value)) {
      NearestIsNearest(es, e, Sq(ScanRange(e.kind)), |es|);
      var k := Nearest(es, e, Sq(ScanRange(e.kind)), |es|);
      if k.Some? {
        FindIdFirst(es, es[k.value].id);
        var f := FindId(es, es[k.value].id);
        assert f.Some? && f.value <= k.value;
      }
    }
  }

  /** The new record of the entity after a decision. An attack starts exactly when the target is in
      range, and it lasts ceil(hitSpeed * TICKS_1S) ticks. A building with no target stands. A unit with
      a target out of range walks towards it, and a unit without a target walks to its waypoint; either
      way it gets a fresh path whose index is 1. */
  lemma DecisionOutcome(es: seq<Entity>, i: nat, tick: int)
    requires i < |es|
    ensures var d := Decide(es, i, tick); var e := d.0; var t := TargetIndex(es, e);
      && (t.Some? && InAttackRange(e, es[t.value]) ==>
            !d.1 && e.state == Attacking && e.nextStateAt == tick + AttackTicks(e.kind))
      && (t.Some? && !InAttackRange(e, es[t.value]) && !IsBuilding(es[i]) ==>
            !d.1 && e.state == Moving && e.pathIndex == 1
            && e.path == NAV_PATH(es[i].pos, PathTarget(e, es[t.value]), Stats(e.kind).isFlying))
      && (t.None? && IsBuilding(es[i]) ==> !d.1 && e.state == Standing)
      && (t.None? && !IsBuilding(es[i]) ==>
            !d.1 && e.state == Moving && e.pathIndex == 1
            && e.path == NAV_PATH(es[i].pos, Waypoint(es, e), Stats(e.kind).isFlying))
  {
    var e := es[i].(target := NewTarget(es, es[i]));
    SameTargetAfterCommit(es, i, e);
    if TargetIndex(es, e).None? && !IsBuilding(es[i]) {
      var m := e.(state := Moving);
      var es1 := es[i := m];
      if EnemySmallTowerOnLane(es, e) {
        var j :| 0 <= j < |es| && es[j].kind == SmallTower && es[j].owner != e.owner && (OnLeft(es[j].pos) == OnLeft(e.pos));
        assert es1[j].kind == es[j].kind && es1[j].owner == es[j].owner && es1[j].pos == es[j].pos;
      }
      if EnemySmallTowerOnLane(es1, m) {
        var j :| 0 <= j < |es1| && es1[j].kind == SmallTower && es1[j].owner != m.owner && (OnLeft(es1[j].pos) == OnLeft(m.pos));
        assert es1[j].kind == es[j].kind && es1[j].owner == es[j].owner && es1[j].pos == es[j].pos;
      }
      assert Waypoint(es1, m) == Waypoint(es, Decide(es, i, tick).0);
    }
  }

  /** The waypoint rule. The lane follows the half of the field the unit is on. A ground unit on its own
      half heads for the bridge, one tile short of the middle. Otherwise the unit heads for row 7 when an
      opponent's small tower still guards its lane and for row 3 when none does, counted from the
      opponent's edge; with no small tower left and the unit already within four rows of that edge, it
      turns 3.5 tiles towards the centre to reach the big tower. */
  lemma WaypointRule(es: seq<Entity>, e: Entity)
    ensures var p := Waypoint(es, e); var lane := if OnLeft(e.pos) then LEFT_LANE else RIGHT_LANE;
      && (BridgeFirst(e) ==> p == Point(lane, if e.flipped then FIELD_TILES_HEIGHT_MID + 1.0 else FIELD_TILES_HEIGHT_MID - 1.0))
      && (!BridgeFirst(e) && EnemySmallTowerOnLane(es, e) ==>
            p == Point(lane, if e.flipped then FIELD_TILES_HEIGHT as real - 7.0 else 7.0))
      && (!BridgeFirst(e) && !EnemySmallTowerOnLane(es, e) ==>
            p.y == (if e.flipped then FIELD_TILES_HEIGHT as real - 3.0 else 3.0)
            && (p.x == lane <==> (if e.flipped then e.pos.y <= FIELD_TILES_HEIGHT as real - 4.0 else e.pos.y >= 4.0))
            && (p.x != lane ==> p.x == (if OnLeft(e.pos) then LEFT_LANE + 3.5 else RIGHT_LANE - 3.5)))
  {
  }

  /** Once a turn throws, the rest of the pass does not run. */
  /** One more turn of a pass that has not thrown is the turn of the next entity. */
  lemma DecisionsNext(es: seq<Entity>, tick: int, n: nat)
    requires n < |es| && Decisions(es, tick, n).Done?
    ensures Decisions(es, tick, n + 1) == Turn(Decisions(es, tick, n).es, n, tick)
  {
  }

  /** A pass that has reached its end, or thrown, has its outcome. */
  lemma PassEnds(es: seq<Entity>, tick: int, i: nat, threw: bool, x: seq<Entity>)
    requires i <= |es| && (!threw ==> i == |es|)
    requires Decisions(es, tick, i) == if threw then Threw(x) else Done(x)
    ensures Decisions(es, tick, |es|) == if threw then Threw(x) else Done(x)
  {
    if threw {
      ThrowEndsPass(es, tick, i, |es|);
    }
  }

  lemma {:induction false} ThrowEndsPass(es: seq<Entity>, tick: int, k: nat, n: nat)
    requires k <= n <= |es| && Decisions(es, tick, k).Threw?
    ensures Decisions(es, tick, n) == Decisions(es, tick, k)
    decreases n - k
  {
    if k < n {
      ThrowEndsPass(es, tick, k, n - 1);
    }
  }

  /** A whole pass of turns changes hit points, states, targets and paths, never who is in the list
      or where. */
  lemma {:induction false} DecisionsUnmoved(es: seq<Entity>, tick: int, n: nat)
    requires n <= |es|
    ensures Unmoved(es, Decisions(es, tick, n).es)
  {
    if n > 0 {
      DecisionsUnmoved(es, tick, n - 1);
      DecisionUnmoved(es, tick, n);
    }
  }

  /** One more turn of the pass keeps the list unmoved. */
  lemma DecisionUnmoved(es: seq<Entity>, tick: int, n: nat)
    requires 0 < n <= |es|
    ensures Unmoved(Decisions(es, tick, n - 1).es, Decisions(es, tick, n).es)
  {
    var prev := Decisions(es, tick, n - 1);
    if prev.Done? {
      DecisionsNext(es, tick, n - 1);
      TurnUnmoved(prev.es, n - 1, tick);
    } else {
      ThrowEndsPass(es, tick, n - 1, n);
    }
  }

  /** `b` is `a`, except perhaps for its hit points. */
  predicate KeptButHp(a: Entity, b: Entity)
  {
    b == a.(hp := b.hp)
  }

  /** A turn leaves an entity that is busy until a later tick as it was, except that an attack may
      lower its hit points. */
  lemma TurnKeepsBusy(es: seq<Entity>, i: nat, tick: int, k: nat)
    requires i < |es| && k < |es| && tick < es[k].nextStateAt
    ensures KeptButHp(es[k], Turn(es, i, tick).es[k])
  {
    var s := Strike(es, i, tick);
    assert s[k] == es[k].(hp := s[k].hp);
    if tick >= s[i].nextStateAt {
      assert i != k;
      assert CheckNext(s, i, tick).es[k] == s[k];
    }
  }

  /** Lock-out over the whole pass: an entity busy until a later tick keeps its state, target, path
      and everything else through every turn of the pass, except its hit points. */
  lemma {:induction false} BusyKeptThroughPass(es: seq<Entity>, tick: int, n: nat, k: nat)
    requires n <= |es| && k < |es| && tick < es[k].nextStateAt
    ensures KeptButHp(es[k], Decisions(es, tick, n).es[k])
  {
    if n > 0 {
      BusyKeptThroughPass(es, tick, n - 1, k);
      var prev := Decisions(es, tick, n - 1);
      if prev.Done? {
        DecisionsNext(es, tick, n - 1);
        TurnKeepsBusy(prev.es, n - 1, tick, k);
      } else {
        ThrowEndsPass(es, tick, n - 1, n);
      }
    }
  }

  /** The moves change only the positions and path indices of the moving entities that have a path;
      everyone stays in the list, in order. */
  lemma MovesRule(es: seq<Entity>)
    ensures var r := Moves(es);
      && SameRoster(es, r)
      && (forall j :: 0 <= j < |es| ==> r[j] == es[j].(pos := r[j].pos, pathIndex := r[j].pathIndex))
      && (forall j :: 0 <= j < |es| && (es[j].state != Moving || es[j].path.None?) ==> r[j] == es[j])
  {
    assert Roster(Moves(es)) == Roster(es);
  }

  /** The collision step changes only positions, and never moves a building. */
  lemma CollideRule(es: seq<Entity>)
    ensures var r := Collide(es);
      && SameRoster(es, r)
      && (forall j :: 0 <= j < |es| ==> r[j] == es[j].(pos := r[j].pos))
      && (forall j :: 0 <= j < |es| && IsBuilding(es[j]) ==> r[j].pos == es[j].pos)
  {
    assert Roster(Collide(es)) == Roster(es);
  }

  /** After a completed update every entity's synchronised tile is its position, and the roster is
      unchanged. */
  lemma UpdateSyncsTiles(es: seq<Entity>, tick: int)
    requires UpdateStep(es, tick).Done?
    ensures var r := UpdateStep(es, tick).es;
      && SameRoster(es, r)
      && (forall j :: 0 <= j < |r| ==> r[j].tileX == r[j].pos.x && r[j].tileY == r[j].pos.y)
  {
    DecisionsUnmoved(es, tick, |es|);
    var x := Decisions(es, tick, |es|).es;
    var c := Collide(Moves(x));
    var r := UpdateStep(es, tick).es;
    assert Roster(Moves(x)) == Roster(x);
    assert Roster(c) == Roster(Moves(x));
    assert Roster(r) == Roster(c);
  }

  // ---------------------------------------------------------------------------------------------
  // A building whose target walks out of range

  /** A small tower attacking a melee fighter that has since walked to seven tiles, beyond the tower's
      range of six. The fighter is still alive, so the tower keeps it as its target and its turn throws:
      the whole server tick is aborted. */
  lemma StrayTargetAbortsTick()
    ensures var tower := Entity(0, "a", false, SmallTower, Point(0.0, 0.0), 0.0, 0.0, 10000, Attacking, 40, Some(1), None, 0);
      var unit := Entity(1, "b", true, MeleeFighter, Point(7.0, 0.0), 7.0, 0.0, 1000, Moving, 0, None, None, 1);
      Turn([tower, unit], 0, 40).Threw?
  {
    var tower := Entity(0, "a", false, SmallTower, Point(0.0, 0.0), 0.0, 0.0, 10000, Attacking, 40, Some(1), None, 0);
    var unit := Entity(1, "b", true, MeleeFighter, Point(7.0, 0.0), 7.0, 0.0, 1000, Moving, 0, None, None, 1);
    assert FindId([tower, unit], 1) == Some(1);
    var s := [tower, unit.(hp := 700)];
    assert Strike([tower, unit], 0, 40) == s;
    assert FindId(s, 1) == Some(1);
    assert Alive(s, 1);
    assert NewTarget(s, tower) == Some(1);
    var d := Decide(s, 0, 40);
    assert d.0.target == Some(1);
    assert TargetIndex(s, d.0) == Some(1);
    assert DistSq(tower.pos, s[1].pos) == 49.0;
    assert !InAttackRange(d.0, s[1]);
    ThrowsIffBuildingOutOfRange(s, 0, 40);
  }

  /** checkNextAction as intended: a building whose target is out of range lets it go and stands, and
      picks a new target on its next turn. */
  function CheckNextFixed(es: seq<Entity>, i: nat, tick: int): Outcome
    requires i < |es|
  {
    var d := Decide(es, i, tick);
    if d.1 then Done(es[i := es[i].(target := None, state := Standing)]) else Done(es[i := d.0])
  }

  /** The intended decision never throws, and it agrees with the code as written wherever that does not
      throw. A building only ever attacks a target in range or stands. */
  lemma FixedDecisionNeverThrows(es: seq<Entity>, i: nat, tick: int)
    requires i < |es|
    ensures var r := CheckNextFixed(es, i, tick); var e := r.es[i];
      && r.Done?
      && (CheckNext(es, i, tick).Done? ==> r == CheckNext(es, i, tick))
      && (IsBuilding(es[i]) ==> e.state == Attacking || e.state == Standing)
      && (IsBuilding(es[i]) && e.state == Attacking ==>
            TargetIndex(es, e).Some? && InAttackRange(e, es[TargetIndex(es, e).value]))
  {
    ThrowsIffBuildingOutOfRange(es, i, tick);
    DecisionOutcome(es, i, tick);
  }

  // ---------------------------------------------------------------------------------------------
  // The manager

  class EntityManager {
    var entities: seq<Entity>

    constructor()
      ensures entities == []
    {
      entities := [];
    }

    /** update(tick). */
    method Update(tick: int) returns (threw: bool)
      modifies this
      ensures threw == UpdateStep(old(entities), tick).Threw?
      ensures entities == UpdateStep(old(entities), tick).es
    {
      ghost var e0 := entities;
      threw := Ai(tick);
      if threw {
        return;
      }
      entities := Collide(entities);
      SyncPositions();
    }

    /** The last loop of update: the synchronised tile of each entity is set to its position. */
    method SyncPositions()
      modifies this
      ensures entities == seq(|old(entities)|, j requires 0 <= j < |old(entities)| => SyncTile(old(entities)[j]))
    {
      ghost var c := entities;
      var i := 0;
      while i < |entities|
        invariant 0 <= i <= |entities| == |c|
        invariant forall j :: 0 <= j < i ==> entities[j] == SyncTile(c[j])
        invariant forall j :: i <= j < |c| ==> entities[j] == c[j]
      {
        entities := entities[i := entities[i].(tileX := entities[i].pos.x, tileY := entities[i].pos.y)];
        i := i + 1;
      }
    }

    /** gameOver: every entity goes idle. */
    method GameOver()
      modifies this
      ensures |entities| == |old(entities)|
      ensures forall j :: 0 <= j < |entities| ==> entities[j] == old(entities)[j].(state := Idle)
    {
      var i := 0;
      while i < |entities|
        invariant 0 <= i <= |entities| == |old(entities)|
        invariant forall j :: 0 <= j < i ==> entities[j] == old(entities)[j].(state := Idle)
        invariant forall j :: i <= j < |entities| ==> entities[j] == old(entities)[j]
      {
        entities := entities[i := entities[i].(state := Idle)];
        i := i + 1;
      }
    }

    /** ai(tick): every entity's turn in list order, then the moving ones move. */
    method Ai(tick: int) returns (threw: bool)
      modifies this
      ensures var r := Decisions(old(entities), tick, |old(entities)|);
        && threw == r.Threw?
        && entities == if threw then r.es else Moves(r.es)
    {
      threw := Turns(tick);
      if !threw {
        MoveAll();
      }
    }

    /** The first loop of ai: the turns in list order, abandoned at the first throw. */
    method Turns(tick: int) returns (threw: bool)
      modifies this
      ensures Decisions(old(entities), tick, |old(entities)|) == if threw then Threw(entities) else Done(entities)
    {
      ghost var e0 := entities;
      threw := false;
      var i := 0;
      while i < |entities| && !threw
        invariant 0 <= i <= |entities| == |e0|
        invariant Decisions(e0, tick, i) == if threw then Threw(entities) else Done(entities)
      {
        threw := NextTurn(i, tick, e0);
        i := i + 1;
      }
      PassEnds(e0, tick, i, threw, entities);
    }

    /** One turn of the first loop of ai, as the next step of the pass over `e0`. */
    method NextTurn(i: nat, tick: int, ghost e0: seq<Entity>) returns (threw: bool)
      requires i < |e0| && Decisions(e0, tick, i) == Done(entities)
      modifies this
      ensures Decisions(e0, tick, i + 1) == if threw then Threw(entities) else Done(entities)
    {
      DecisionsNext(e0, tick, i);
      threw := TakeTurn(i, tick);
    }

    /** The second loop of ai: every moving entity moves. */
    method MoveAll()
      modifies this
      ensures entities == Moves(old(entities))
    {
      ghost var d := entities;
      var k := 0;
      while k < |entities|
        invariant 0 <= k <= |entities| == |d|
        invariant forall j :: 0 <= j < k ==> entities[j] == Move(d[j])
        invariant forall j :: k <= j < |d| ==> entities[j] == d[j]
      {
        if entities[k].state == Moving {
          MoveEntity(k);
        }
        k := k + 1;
      }
      assert entities == Moves(d);
    }

    /** The body of ai's first loop for entity `i`. */
    method TakeTurn(i: nat, tick: int) returns (threw: bool)
      requires i < |entities|
      modifies this
      ensures threw == Turn(old(entities), i, tick).Threw?
      ensures entities == Turn(old(entities), i, tick).es
    {
      threw := false;
      ResolveAttack(i, tick);
      if tick >= entities[i].nextStateAt {
        threw := CheckNextAction(i, tick);
      }
    }

    /** The attack of entity `i` that ends this tick lands on its target. */
    method ResolveAttack(i: nat, tick: int)
      requires i < |entities|
      modifies this
      ensures entities == Strike(old(entities), i, tick)
    {
      var e := entities[i];
      if tick == e.nextStateAt && e.state == Attacking && e.target.Some? {
        var j := FindId(entities, e.target.value);
        if j.Some? {
          var t := entities[j.value];
          entities := entities[j.value := t.(hp := t.hp - Stats(e.kind).damage)];
        }
      }
    }

    /** moveEntity: follow the path, if there is one. */
    method MoveEntity(k: nat)
      requires k < |entities| && entities[k].state == Moving
      modifies this
      ensures entities == old(entities)[k := Move(old(entities)[k])]
    {
      var e := entities[k];
      if e.path.None? {
        return;
      }
      var step := FOLLOW_PATH(e, Stats(e.kind).walkSpeed);
      entities := entities[k := e.(pos := step.0, pathIndex := step.1)];
    }

    /** checkNextAction(entity i, tick). */
    method CheckNextAction(i: nat, tick: int) returns (threw: bool)
      requires i < |entities|
      modifies this
      ensures threw == CheckNext(old(entities), i, tick).Threw?
      ensures entities == CheckNext(old(entities), i, tick).es
    {
      ghost var es := entities;
      threw := false;
      ValidateTarget(i);
      var e := entities[i];
      ghost var es1 := entities;
      assert es1 == es[i := e];
      var j := if e.target.Some? then FindId(entities, e.target.value) else None;
      if j.Some? {
        if InAttackRange(e, entities[j.value]) {
          TriggerAttack(i, tick);
        } else {
          if Stats(e.kind).walkSpeed == 0.0 {
            return true;
          }
          entities := entities[i := e.(state := Moving)];
          assert PathTarget(entities[i], entities[j.value]) == PathTarget(e, es1[j.value]);
          SetPathTowards(i, j.value);
        }
      } else {
        if Stats(e.kind).walkSpeed == 0.0 {
          entities := entities[i := e.(state := Standing)];
        } else {
          assert es1[i := e.(state := Moving)] == es[i := e.(state := Moving)];
          WalkToOpponentSide(i);
        }
      }
    }

    /** A dead target is dropped and a new one is chosen when there is none. */
    method ValidateTarget(i: nat)
      requires i < |entities|
      modifies this
      ensures entities == old(entities)[i := old(entities)[i].(target := NewTarget(old(entities), old(entities)[i]))]
    {
      var e := entities[i];
      var keep := false;
      if e.target.Some? {
        var j := FindId(entities, e.target.value);
        keep := j.Some? && entities[j.value].hp > 0;
      }
      if !keep {
        // setTarget starts by clearing the target.
        SetTarget(i);
      }
    }

    /** setPathTowards(entity i, target j). */
    method SetPathTowards(i: nat, j: nat)
      requires i < |entities| && j < |entities|
      modifies this
      ensures entities == old(entities)[i := WithPath(old(entities)[i], PathTarget(old(entities)[i], old(entities)[j]))]
    {
      var to := if IsBuilding(entities[j]) then BUILDING_POINT(entities[i].pos, entities[j].pos, entities[j].kind, 0.5) else entities[j].pos;
      SetPath(i, to);
    }

    /** setTarget(entity i): the running-minimum scan. */
    method SetTarget(i: nat)
      requires i < |entities|
      modifies this
      ensures entities == old(entities)[i := old(entities)[i].(target := NearestId(old(entities), old(entities)[i]))]
    {
      var e := entities[i];
      var range := Stats(e.kind).range;
      if Stats(e.kind).walkSpeed > 0.0 && range < VIEW_RANGE {
        range := VIEW_RANGE;
      }
      var rangeSq := Sq(range);
      var best: Option<nat> := None;
      var closestDist := 0.0;
      var others := entities;
      var k := 0;
      while k < |others|
        invariant 0 <= k <= |others|
        invariant best == Nearest(others, e, rangeSq, k)
        invariant best.Some? ==> closestDist == DistSq(others[best.value].pos, e.pos)
      {
        var other := others[k];
        if !IsCandidate(e, other) {
          k := k + 1;
          continue;
        }
        var distSq := DistSq(other.pos, e.pos);
        if distSq <= rangeSq && (best.None? || distSq < closestDist) {
          best := Some(k);
          closestDist := distSq;
        }
        k := k + 1;
      }
      var t := if best.Some? then Some(others[best.value].id) else None;
      entities := entities[i := e.(target := t)];
    }

    /** walkToOpponentSide(entity i). */
    method WalkToOpponentSide(i: nat)
      requires i < |entities|
      modifies this
      ensures var es1 := old(entities)[i := old(entities)[i].(state := Moving)];
        entities == es1[i := WithPath(es1[i], Waypoint(es1, es1[i]))]
    {
      entities := entities[i := entities[i].(state := Moving)];
      var e := entities[i];
      var flipped := e.flipped;
      var x := if e.pos.x < FIELD_TILES_WIDTH_MID then LEFT_LANE else RIGHT_LANE;
      var y;
      var bridgeFirst := !Stats(e.kind).isFlying
        && (if flipped then e.pos.y < FIELD_TILES_HEIGHT_MID else e.pos.y > FIELD_TILES_HEIGHT_MID);
      if bridgeFirst {
        y := FIELD_TILES_HEIGHT_MID + (if flipped then 1.0 else -1.0);
      } else {
        var hasSmallTower := false;
        var k := 0;
        while k < |entities|
          invariant 0 <= k <= |entities|
          invariant hasSmallTower ==> EnemySmallTowerOnLane(entities, e)
          invariant !hasSmallTower ==> forall m :: 0 <= m < k ==>
            !(entities[m].kind == SmallTower && entities[m].owner != e.owner && (OnLeft(entities[m].pos) == OnLeft(e.pos)))
        {
          var o := entities[k];
          if o.kind == SmallTower && o.owner != e.owner && ((o.pos.x < FIELD_TILES_WIDTH_MID) == (e.pos.x < FIELD_TILES_WIDTH_MID)) {
            hasSmallTower := true;
            break;
          }
          k := k + 1;
        }
        var yPos := if hasSmallTower then 7.0 else 3.0;
        y := if flipped then FIELD_TILES_HEIGHT as real - yPos else yPos;
        if !hasSmallTower && (if flipped then e.pos.y > FIELD_TILES_HEIGHT as real - 4.0 else e.pos.y < 4.0) {
          x := if e.pos.x < FIELD_TILES_WIDTH_MID then LEFT_LANE + 3.5 else RIGHT_LANE - 3.5;
        }
      }
      SetPath(i, Point(x, y));
    }

    /** setPath(entity i, to): a fresh path, starting at its second point. */
    method SetPath(i: nat, to: Point)
      requires i < |entities|
      modifies this
      ensures entities == old(entities)[i := WithPath(old(entities)[i], to)]
    {
      var e := entities[i];
      entities := entities[i := e.(path := NAV_PATH(e.pos, to, Stats(e.kind).isFlying), pathIndex := 1)];
    }

    /** triggerAttack(entity i, tick). */
    method TriggerAttack(i: nat, tick: int)
      requires i < |entities|
      modifies this
      ensures entities == old(entities)[i := old(entities)[i].(state := Attacking, nextStateAt := tick + AttackTicks(old(entities)[i].kind))]
    {
      var e := entities[i];
      entities := entities[i := e.(state := Attacking, nextStateAt := tick + Ceil(Stats(e.kind).hitSpeed * TICKS_1S as real))];
    }
  }

  /** Lookups by id agree on two lists with the same ids. */
  lemma {:induction false} FindIdSameIds(a: seq<Entity>, b: seq<Entity>, t: Option<nat>)
    requires |a| == |b| && forall k :: 0 <= k < |a| ==> a[k].id == b[k].id
    ensures t.Some? ==> FindId(a, t.value) == FindId(b, t.value)
  {
    if t.Some? {
      FindIdFirst(a, t.value);
      FindIdFirst(b, t.value);
      var fa, fb := FindId(a, t.value), FindId(b, t.value);
      if fa.Some? && fb.Some? {
        assert fa.value <= fb.value && fb.value <= fa.value;
      }
    }
  }
}
