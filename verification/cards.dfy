/**
 * The card table and the card-level targeting rule (shared/cards.ts).
 */
module Cards {
  import opened Maybe

  datatype CardId = MeleeFighter | RangedFighter | Flying

  /** The numeric value of the CardId enum, as carried in messages. */
  function Code(c: CardId): int
  {
    match c
    case MeleeFighter => 1
    case RangedFighter => 2
    case Flying => 3
  }

  /** Decodes a numeric card id; numbers outside the enum name no card. */
  function FromCode(n: int): (r: Option<CardId>)
    ensures r.Some? <==> 1 <= n <= 3
    ensures r.Some? ==> Code(r.value) == n
  {
    if n == 1 then Some(MeleeFighter)
    else if n == 2 then Some(RangedFighter)
    else if n == 3 then Some(Flying)
    else None
  }

  /** Decoding inverts encoding. */
  lemma CodeRoundTrip(c: CardId)
    ensures FromCode(Code(c)) == Some(c)
  {
  }

  datatype CardData = CardData(
    manaCost: nat,
    hitpoints: int,
    damage: int,
    range: real,      // in logical pixels
    hitSpeed: real,   // seconds between attacks
    walkSpeed: real,  // logical pixels per second
    isFlying: bool)

  /** The CARDS table. Costs are 3, 4 and 5 mana, and only the Flying card flies. */
  function Card(c: CardId): (d: CardData)
    ensures d.manaCost == 2 + Code(c)
    ensures d.isFlying <==> c == Flying
  {
    match c
    case MeleeFighter => CardData(3, 1000, 100, 100.0, 1.0, 50.0, false)
    case RangedFighter => CardData(4, 750, 75, 250.0, 1.2, 65.0, false)
    case Flying => CardData(5, 600, 50, 100.0, 0.7, 70.0, true)
  }

  /** The minimum range needed to consider a card ranged, in logical pixels. */
  const RANGED_RANGE: real := 250.0

  /** A flying victim needs a flying attacker or one whose range exceeds 250. The ranged fighter's range
      is exactly 250, so under this table only the Flying card can target the Flying card. */
  function CanTarget(attacker: CardId, victim: CardId): (r: bool)
    ensures !Card(victim).isFlying ==> r
    ensures r <==> victim != Flying || attacker == Flying
  {
    var atk := Card(attacker);
    var vic := Card(victim);
    !vic.isFlying || atk.isFlying || atk.range > RANGED_RANGE
  }

  /** The ranged fighter sits exactly on the threshold and is therefore not ranged. */
  lemma RangedFighterIsNotRanged()
    ensures Card(RangedFighter).range == RANGED_RANGE
    ensures !CanTarget(RangedFighter, Flying)
  {
  }
}
