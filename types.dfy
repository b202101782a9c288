/**
 * Values shared by every part of the Kilobot model: roles, LED colours,
 * protocol states, grid positions and the messages robots exchange.
 *
 * A message in the source is a dictionary `{"sender_id", "content", "dist"}`
 * whose `content` is a Python value whose shape depends on the phase that
 * produced it; `Content` lists every shape the core sends.
 */
module Types {

  datatype Option<+T> = None | Some(value: T)

  /** `role` of a robot; starts as UNDECIDED (agent.py:13). */
  datatype Role = Undecided | Corner | Border | Middle

  /** The values the protocol writes into `led_color`; "grey" and "gray" are different strings. */
  datatype Color =
    | Grey | LightBlue | Orange | Red | Green | Blue
    | Pink | Black | Purple | Gray | LightGreen | Brown

  /** The twelve protocol states of constant.py, in schedule order. */
  datatype State =
    | Sr1aIdAssignment | Sr1bNeighborList | Sr1cRoleId | Sr1cSetRole
    | Sr2aOriginAssignment | Sr2aSetOrigin | Sr2aOriginSetPosition
    | Sr2bSetRecDimension | Sr2bSetRelativePos | Sr2cSetGlobalPos
    | SetAnimationSync | SetRoleColor
  {
    /** The integer the source gives the state. */
    function Index(): (i: nat)
      ensures i < 12
    {
      match this
      case Sr1aIdAssignment => 0
      case Sr1bNeighborList => 1
      case Sr1cRoleId => 2
      case Sr1cSetRole => 3
      case Sr2aOriginAssignment => 4
      case Sr2aSetOrigin => 5
      case Sr2aOriginSetPosition => 6
      case Sr2bSetRecDimension => 7
      case Sr2bSetRelativePos => 8
      case Sr2cSetGlobalPos => 9
      case SetAnimationSync => 10
      case SetRoleColor => 11
    }
  }

  /** A grid coordinate `[x, y]`. */
  datatype Pos = Pos(x: int, y: int)

  /** An entry `{'id', 'randomNumber'}` of `neighbor_ids_randomNum`. */
  datatype IdRandom = IdRandom(id: int, randomNumber: int)

  /** An entry `{'id', 'role'}` of `neighbor_roles`. */
  datatype RoleEntry = RoleEntry(id: int, role: Role)

  /** An entry `{"id", "position"}` of the origin's position hand-out. */
  datatype Assignment = Assignment(id: int, position: Pos)

  /**
   * The rectangle-dimension dictionary `{"count", "C1", "C2", "C3"}`, possibly
   * carrying a `"corner_id"` key and a `"check"` key (whose value is always True).
   */
  datatype Tally = Tally(cornerId: Option<int>, count: int, c1: int, c2: int, c3: int, check: bool)

  /** The initial `countMessage` (agent.py:31). */
  const InitialTally := Tally(None, 0, 0, 0, 0, false)

  /** The shapes of `msg['content']` that the core sends. */
  datatype Content =
    | Announce(senderId: int, randomNumber: int, neighbors: seq<IdRandom>)  // SR1a dictionary
    | Number(n: int)                                                        // a bare integer
    | RoleNotice(id: int, role: Role)                                       // SR1c dictionary
    | Assignments(entries: seq<Assignment>)                                 // the origin's list
    | Counting(tally: Tally)                                                // SR2b dictionary
    | Coordinates(pos: Pos)                                                 // a position list
    | Nothing                                                               // None

  /** One received message. */
  datatype Message = Message(senderId: int, content: Content, dist: real)

  /** Python truthiness of a content value. */
  predicate Truthy(c: Content)
  {
    match c
    case Number(n) => n != 0
    case Assignments(entries) => entries != []
    case Nothing => false
    case _ => true
  }

  /** `isinstance(content, dict)`. */
  predicate IsDict(c: Content)
  {
    c.Announce? || c.RoleNotice? || c.Counting?
  }

  /** Identifiers are drawn from 1..MaxId (agent.py:18, routines.py:25). */
  const MaxId := 255
  /** Initial `min_dist_seen`. */
  const InitialMinDist: real := 9999.0
  /** Initial, "unset", `numOriginAssigment`. */
  const OriginUnset := 999999
  /** Corner candidates are drawn from 0..CandidateMax (agent.py:231). */
  const CandidateMax := 200000

  predicate Distinct(s: seq<int>)
  {
    forall i, j :: 0 <= i < j < |s| ==> s[i] != s[j]
  }
}
