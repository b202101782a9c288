/**
 * The fixed phase schedule of `Kilobot.advance`: the state switches at fixed
 * values of `internal_clock`, independent of any message.
 */
module Schedule {
  import opened Types

  /** The clock values at which `advance` assigns a state, in order. */
  const ScheduleTicks: seq<int> := [1, 60, 140, 180, 260, 320, 370, 400, 970, 1070, 1270, 1300]

  /** The state `advance` assigns when the clock reads `clock`, if any. */
  function ScheduledState(clock: int): Option<State>
  {
    if clock == 1 then Some(Sr1aIdAssignment)
    else if clock == 60 then Some(Sr1bNeighborList)
    else if clock == 140 then Some(Sr1cRoleId)
    else if clock == 180 then Some(Sr1cSetRole)
    else if clock == 260 then Some(Sr2aOriginAssignment)
    else if clock == 320 then Some(Sr2aSetOrigin)
    else if clock == 370 then Some(Sr2aOriginSetPosition)
    else if clock == 400 then Some(Sr2bSetRecDimension)
    else if clock == 970 then Some(Sr2bSetRelativePos)
    else if clock == 1070 then Some(Sr2cSetGlobalPos)
    else if clock == 1270 then Some(SetAnimationSync)
    else if clock == 1300 then Some(SetRoleColor)
    else None
  }

  /**
   * The state a robot that has resolved tick `clock` is in: the one set at the
   * latest schedule tick not after `clock`, or the initial state before tick 1.
   */
  function StateFor(clock: int): State
  {
    if clock < 60 then Sr1aIdAssignment
    else if clock < 140 then Sr1bNeighborList
    else if clock < 180 then Sr1cRoleId
    else if clock < 260 then Sr1cSetRole
    else if clock < 320 then Sr2aOriginAssignment
    else if clock < 370 then Sr2aSetOrigin
    else if clock < 400 then Sr2aOriginSetPosition
    else if clock < 970 then Sr2bSetRecDimension
    else if clock < 1070 then Sr2bSetRelativePos
    else if clock < 1270 then Sr2cSetGlobalPos
    else if clock < 1300 then SetAnimationSync
    else SetRoleColor
  }

  /** The state after `advance` resolves tick `clock` from state `s`. */
  function NextState(s: State, clock: int): State
  {
    match ScheduledState(clock)
    case Some(t) => t
    case None => s
  }

  /** A state is assigned exactly at the listed ticks. */
  lemma ScheduledExactlyAtTicks(clock: int)
    ensures ScheduledState(clock).Some? <==> clock in ScheduleTicks
  {
  }

  /** Each schedule tick assigns a strictly later state than every earlier tick. */
  lemma ScheduleStrictlyLater(c: int, d: int)
    requires ScheduledState(c).Some? && ScheduledState(d).Some? && c < d
    ensures ScheduledState(c).value.Index() < ScheduledState(d).value.Index()
  {
  }

  /** Resolving a tick from the state of the previous tick (or again from its own) yields the state of this tick. */
  lemma NextStateFollowsClock(clock: int)
    ensures clock > 0 ==> NextState(StateFor(clock - 1), clock) == StateFor(clock)
    ensures NextState(StateFor(clock), clock) == StateFor(clock)
  {
  }

  /** The state of a later tick is never an earlier state. */
  lemma StateForMonotone(c: int, d: int)
    requires c <= d
    ensures StateFor(c).Index() <= StateFor(d).Index()
  {
  }
}
