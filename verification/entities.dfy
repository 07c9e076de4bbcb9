/**
 * The static table of entity kinds and the flight-targeting rule (shared/entities.ts).
 */
module Entities {

  datatype EntityType = BigTower | SmallTower | MeleeFighter | RangedFighter | Flying

  /** Footprint of an entity: a circle of the given diameter, or an axis-aligned square of the given side. */
  datatype Footprint = Circle(size: real) | Square(size: real)

  datatype EntityData = EntityData(
    hitpoints: int,
    damage: int,      // per attack
    range: real,      // attack distance, in tiles
    hitSpeed: real,   // seconds between attacks
    walkSpeed: real,  // tiles per second
    isFlying: bool,
    size: Footprint)

  /** Life cycle states of an entity. STANDING and IDLE are used by the entity manager but are
      missing from the enum in shared/entities.ts; they are added here. */
  datatype EntityState = Spawning | Moving | Attacking | Standing | Idle

  /** The distance up to which a mobile unit looks for targets. Imported from shared/entities.ts, where it is not defined; left uninterpreted. */
  const VIEW_RANGE: real

  /** The minimum range needed to consider a unit ranged. */
  const RANGED_RANGE: real := 4.0

  /** The ENTITIES table. Every kind is alive when spawned, hits for something, and reaches somewhere;
      exactly the towers stand still, and exactly the standing kinds have square footprints. */
  function Stats(t: EntityType): (d: EntityData)
    ensures d.hitpoints > 0 && d.damage > 0 && d.range > 0.0 && d.hitSpeed > 0.0
    ensures d.walkSpeed >= 0.0
    ensures d.walkSpeed == 0.0 <==> t == BigTower || t == SmallTower
    ensures d.size.Square? <==> d.walkSpeed == 0.0
    ensures d.isFlying <==> t == Flying
  {
    match t
    case BigTower =>
      EntityData(15000, 500, 8.0, 4.0, 0.0, false, Square(4.0))
    case SmallTower =>
      EntityData(10000, 300, 6.0, 2.0, 0.0, false, Square(3.0))
    case MeleeFighter =>
      EntityData(1000, 100, 1.5, 1.0, 2.0, false, Circle(0.6))
    case RangedFighter =>
      EntityData(750, 75, 6.0, 1.2, 2.25, false, Circle(0.4))
    case Flying =>
      EntityData(600, 50, 1.5, 0.7, 2.6, true, Circle(0.4))
  }

  /** Whether an attacker of one kind may target a victim of another: a flying victim needs a flying
      or ranged attacker. Under the table only the melee fighter is barred, and only from flying victims. */
  function CanTarget(attacker: EntityType, victim: EntityType): (r: bool)
    ensures !Stats(victim).isFlying ==> r
    ensures r <==> victim != Flying || attacker != MeleeFighter
  {
    var atk := Stats(attacker);
    var vic := Stats(victim);
    !vic.isFlying || atk.isFlying || atk.range > RANGED_RANGE
  }

  /** A flying victim is targetable exactly by flying attackers and by attackers whose range exceeds
      the ranged threshold. */
  lemma FlyingVictimRule(attacker: EntityType, victim: EntityType)
    requires Stats(victim).isFlying
    ensures CanTarget(attacker, victim) <==> Stats(attacker).isFlying || Stats(attacker).range > RANGED_RANGE
  {
  }

  /** The table facts the targeting rule rests on: the melee fighter's range 1.5 is below the threshold,
      while the ranged fighter (6), the big tower (8) and the small tower (6) are above it. */
  lemma RangedKinds()
    ensures Stats(MeleeFighter).range <= RANGED_RANGE && !CanTarget(MeleeFighter, Flying)
    ensures Stats(RangedFighter).range > RANGED_RANGE && CanTarget(RangedFighter, Flying)
    ensures Stats(BigTower).range > RANGED_RANGE && CanTarget(BigTower, Flying)
    ensures Stats(SmallTower).range > RANGED_RANGE && CanTarget(SmallTower, Flying)
  {
  }
}
