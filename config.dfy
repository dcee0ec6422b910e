/** Fixed game parameters and the three difficulty presets. */
module Config {

  datatype Option<+T> = None | Some(value: T)

  /** Sizes in pixels; they do not depend on the screen. */
  const ObstacleSize: int := 50
  /** The player sits this far above the bottom edge of the screen. */
  const PlayerBottomOffset: int := 100
  const LaneCount: int := 3
  /** The collision thresholds, fixed independently of the sizes above. */
  const HitWidth: real := 30.0
  const HitHeight: int := 50

  /** One entry of the difficulty table. */
  datatype Settings = Settings(moveSpeed: int, spawnRate: int, starSpeedMultiplier: real, name: string)

  datatype Difficulty = Easy | Medium | Hard

  function Preset(d: Difficulty): Settings
  {
    match d
    case Easy => Settings(4, 70, 1.0, "EASY")
    case Medium => Settings(6, 45, 1.5, "MEDIUM")
    case Hard => Settings(9, 30, 2.2, "HARD")
  }

  /** The property name under which a preset is stored in the table. */
  function Key(d: Difficulty): string
  {
    match d
    case Easy => "easy"
    case Medium => "medium"
    case Hard => "hard"
  }

  /** Looking a difficulty name up in the table: the three lower-case keys
      find their preset, every other name finds nothing. */
  function Lookup(key: string): (r: Option<Settings>)
    ensures r.Some? <==> exists d :: Key(d) == key
    ensures forall d :: Key(d) == key ==> r == Some(Preset(d))
  {
    if key == Key(Easy) then Some(Preset(Easy))
    else if key == Key(Medium) then Some(Preset(Medium))
    else if key == Key(Hard) then Some(Preset(Hard))
    else None
  }

  /** Harder presets move obstacles faster and spawn them more often, and
      every preset has a positive speed and spawn interval. */
  lemma PresetsScale()
    ensures Preset(Easy).moveSpeed < Preset(Medium).moveSpeed < Preset(Hard).moveSpeed
    ensures Preset(Easy).spawnRate > Preset(Medium).spawnRate > Preset(Hard).spawnRate
    ensures forall d :: Preset(d).moveSpeed > 0 && Preset(d).spawnRate > 0
  {
  }
}
