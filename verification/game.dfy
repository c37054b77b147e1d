/**
  The parts of the game package that the voice core reads: the phase of a
  match and the cached per-user record. The game package itself is not part
  of this model; its accessors (IsAlive, IsLinked, IsPendingVoiceUpdate,
  GetNickName, GetPlayerName) are read here as plain fields.
 */
module Game {

  /** The three phases the delay table and the voice rules distinguish. */
  datatype Phase = Lobby | Tasks | Discuss

  /**
    One cached user. `pendingVoiceUpdate` is true between "a change request
    was queued" and "a verification pass saw it land".
   */
  datatype UserData = UserData(
    alive: bool,
    linked: bool,
    pendingVoiceUpdate: bool,
    nickName: string,
    playerName: string)

  /** Go's zero value `game.UserData{}`: what a failed lookup yields. */
  const ZeroUserData := UserData(false, false, false, "", "")

  /** The record with only its pending flag changed. */
  function WithPending(u: UserData, pending: bool): (r: UserData)
    ensures r.pendingVoiceUpdate == pending
    ensures SameExceptPending(r, u)
  {
    u.(pendingVoiceUpdate := pending)
  }

  /** Two records that agree on everything the voice rules and the diff read. */
  predicate SameExceptPending(a: UserData, b: UserData)
  {
    a.alive == b.alive && a.linked == b.linked
    && a.nickName == b.nickName && a.playerName == b.playerName
  }
}
