/**
 * Game-wide constants (shared/constants.ts). The first group is defined there; the second group is
 * imported by the game logic from definitions that are not part of this model, so each is left
 * uninterpreted: the model holds for every value of its type. The types of HAND_SIZE and MANA_START
 * restrict them to the values for which the code works.
 */
module Constants {
  import opened Entities

  /** Timestep in ms. */
  const TIMESTEP: int := 50
  /** Timestep in seconds. */
  const TIMESTEP_S: real := 0.05
  /** Three seconds worth of ticks: Math.round(3000 / 50). */
  const TICKS_3S: int := 60
  /** Half a second worth of ticks: Math.round(500 / 50). */
  const TICKS_HALF_S: int := 10

  /** Number of cards in the dummy deck every player gets. */
  const DECK_CARDS: int := 14

  /** A hand is non-empty and leaves at least one card in the deck. */
  type HandSize = n: int | 0 < n < DECK_CARDS witness 4

  const HAND_SIZE: HandSize
  const MANA_MAX: nat
  type StartMana = n: int | 0 <= n <= MANA_MAX witness 0
  const MANA_START: StartMana
  const MANA_REGEN_TICKS: int
  const TICKS_1S: nat
  const FIELD_TILES_WIDTH: int
  const FIELD_TILES_HEIGHT: int
  const FIELD_TILES_WIDTH_MID: real
  const FIELD_TILES_HEIGHT_MID: real
  const LEFT_LANE: real
  const RIGHT_LANE: real

  /** A tower placement in unflipped board coordinates. */
  datatype TowerSpot = TowerSpot(x: real, y: real, kind: EntityType)

  const TOWERS: seq<TowerSpot>

  /** The water tiles of the field map. */
  const WATER_TILES: set<(int, int)>

  predicate IsWater(tileX: int, tileY: int)
  {
    (tileX, tileY) in WATER_TILES
  }
}
