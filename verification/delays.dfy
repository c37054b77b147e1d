/**
  The phase-transition delay table of `GameDelays`: for an origin and a
  destination phase, how many seconds to wait before voice changes are
  applied. The Go map is keyed by phase names; the naming is a one-to-one
  relabelling, so the model keys it by `Phase` directly.
 */
module Delays {
  import opened Game

  datatype GameDelays = GameDelays(delays: map<Phase, map<Phase, int>>)

  /** True when the table has an entry for every origin/destination pair. */
  predicate Total(gd: GameDelays)
  {
    forall o: Phase :: o in gd.delays && forall d: Phase :: d in gd.delays[o]
  }

  /** The shipped default table, origin phase first. */
  const DefaultDelayMap: map<Phase, map<Phase, int>> := map[
    Lobby   := map[Lobby := 0, Tasks := 7, Discuss := 0],
    Tasks   := map[Lobby := 1, Tasks := 0, Discuss := 0],
    Discuss := map[Lobby := 6, Tasks := 7, Discuss := 0]]

  lemma DefaultDelayMapTotal()
    ensures Total(GameDelays(DefaultDelayMap))
  {
    forall o: Phase
      ensures o in DefaultDelayMap && forall d: Phase :: d in DefaultDelayMap[o]
    {
      assert o.Lobby? || o.Tasks? || o.Discuss?;
      forall d: Phase
        ensures d in DefaultDelayMap[o]
      {
        assert d.Lobby? || d.Tasks? || d.Discuss?;
      }
    }
  }

  function MakeDefaultDelays(): (gd: GameDelays)
    ensures Total(gd)
    ensures forall o: Phase, d: Phase :: o in gd.delays && d in gd.delays[o] ==> gd.delays[o][d] >= 0
    ensures forall o: Phase :: o in gd.delays && o in gd.delays[o] ==> gd.delays[o][o] == 0
  {
    DefaultDelayMapTotal();
    GameDelays(DefaultDelayMap)
  }

  /**
    The delay for one transition. A pair missing from either level of the
    nested map reads as Go's zero value, 0; the lookup never fails.
   */
  function GetDelay(gd: GameDelays, origin: Phase, dest: Phase): (r: int)
    ensures origin in gd.delays && dest in gd.delays[origin] ==> r == gd.delays[origin][dest]
    ensures origin !in gd.delays ==> r == 0
    ensures origin in gd.delays && dest !in gd.delays[origin] ==> r == 0
  {
    if origin in gd.delays && dest in gd.delays[origin] then gd.delays[origin][dest] else 0
  }

  /** The default table's nine entries, one per transition. */
  lemma DefaultDelayValues()
    ensures GetDelay(MakeDefaultDelays(), Lobby, Lobby) == 0
    ensures GetDelay(MakeDefaultDelays(), Lobby, Tasks) == 7
    ensures GetDelay(MakeDefaultDelays(), Lobby, Discuss) == 0
    ensures GetDelay(MakeDefaultDelays(), Tasks, Lobby) == 1
    ensures GetDelay(MakeDefaultDelays(), Tasks, Tasks) == 0
    ensures GetDelay(MakeDefaultDelays(), Tasks, Discuss) == 0
    ensures GetDelay(MakeDefaultDelays(), Discuss, Lobby) == 6
    ensures GetDelay(MakeDefaultDelays(), Discuss, Tasks) == 7
    ensures GetDelay(MakeDefaultDelays(), Discuss, Discuss) == 0
  {
  }

  /**
    Under the default table a reconciliation waits exactly on the four
    transitions into a new play state: lobby to tasks, tasks to lobby, and
    discussion to lobby or tasks.
   */
  lemma DefaultDelayPositiveIff(o: Phase, d: Phase)
    ensures GetDelay(MakeDefaultDelays(), o, d) > 0 <==>
      (o, d) in {(Lobby, Tasks), (Tasks, Lobby), (Discuss, Lobby), (Discuss, Tasks)}
  {
  }
}
