/** Values shared by every part of the tracker. */
module Types {

  datatype Option<+T> = None | Some(value: T)

  datatype Result<+T> = Ok(value: T) | Err(error: Error)

  /** The error causes a caller can tell apart. */
  datatype Error =
    | Sql                      // a statement or commit failed; nothing was written
    | OpenSessionExists(app: nat)
    | Invariant                // a request the domain rules forbid

  datatype LauncherType = Steam | Lutris | Heroic | Flatpak | Native

  datatype GameKey = GameKey(launcher: LauncherType, id: string)

  datatype ExitReason = Terminated | ForegroundChanged | Recovered | SleepSplit

  /** What a source tells the session manager. */
  datatype GameEvent = Started(key: GameKey) | Stopped(key: GameKey)

  /** Largest value of the signed 64-bit integers seconds are kept in. */
  const I64_MAX: int := 0x7FFF_FFFF_FFFF_FFFF

  function Max(a: int, b: int): int {
    if a < b then b else a
  }

  function Min(a: int, b: int): int {
    if a < b then a else b
  }

  /** Addition that stops at `I64_MAX`; every amount added here is non-negative. */
  function SaturatingAdd(a: int, b: int): int {
    Min(a + b, I64_MAX)
  }
}
