/**
 * The Kilobot node (agent.py, class Kilobot) with the handlers it inherits
 * from RoutineR1 and RoutineR2 (routines.py). Each robot runs rounds of
 * `Step` (sending) and `Advance` (resolution); `Advance` moves the phase
 * forward on a fixed clock schedule and runs one handler over the inbox.
 *
 * Every handler is a method whose loops are proved against the fold that
 * specifies it in RoutinesR1, RoutinesR2 or AgentHelpers; the properties of
 * those folds are the lemmas there.
 */
module Agent {
  import opened Types
  import opened Schedule
  import opened RoutinesR1
  import opened RoutinesR2
  import opened AgentHelpers

  /** The LED colour `determine_role` shows for each role (routines.py:93-104). */
  function RoleLed(r: Role): Color
  {
    match r
    case Corner => Red
    case Middle => Green
    case _ => Blue
  }

  /** The count dictionary a robot broadcasts in SR2B (agent.py:281, 292, 314, 316): no `check` key. */
  function CountReport(cornerId: Option<int>, count: int, t: Tally): Tally
  {
    Tally(cornerId, count, t.c1, t.c2, t.c3, false)
  }

  /** Every field of a Kilobot at one instant. */
  datatype Fields = Fields(
    state: State, ledColor: Color, role: Role, isBroken: bool, inbox: seq<Message>, internalClock: int,
    myId: int, randomNumber: int, neighborCounts: map<int, int>, neighborIds: seq<int>,
    neighborIdsRandomNum: seq<IdRandom>, neighborRoles: seq<RoleEntry>, blacklistIds: seq<int>,
    minDistSeen: real, numOriginAssignment: int, position: Option<Pos>, count: int,
    messageFromCorner: bool, countMessage: Tally, countFullMessage: Option<Tally>, auxPosition: Pos)

  /** The fields SR1a reads and writes. */
  function IdentityOf(f: Fields): IdView
  {
    IdView(f.myId, f.neighborIdsRandomNum, f.blacklistIds, f.minDistSeen)
  }

  /** The invariants the handlers keep: a valid identity and duplicate-free neighbour lists. */
  ghost predicate Consistent(f: Fields)
  {
    && IdsValid(IdentityOf(f))
    && Distinct(f.neighborIds)
    && KnownDistinct(f.neighborIdsRandomNum)
    && RolesDistinct(f.neighborRoles)
  }

  /** agent.py:69-110: the LED colour after the state update at `clock`. */
  function PhaseLed(clock: int, led: Color): Color
  {
    if clock == 1 || clock == 260 || clock == 970 then Grey
    else if clock == 60 then LightBlue
    else if clock == 140 then Orange
    else led
  }

  /**
   * agent.py:201-362: `sent` is the content a robot with fields `b` broadcasts
   * (None: nothing is sent) and `a` the robot afterwards. A CORNER draws
   * `candidate` the first time it sends in SR2a; in SR2b the robot at [2,1]
   * starts the count and a CORNER without position seals the next threshold.
   */
  predicate Broadcasts(b: Fields, candidate: int, sent: Option<Content>, a: Fields)
  {
    && a == b.(numOriginAssignment := a.numOriginAssignment, count := a.count, countMessage := a.countMessage)
    && (b.state != Sr2aOriginAssignment && b.state != Sr2aSetOrigin ==> a.numOriginAssignment == b.numOriginAssignment)
    && (b.state != Sr2bSetRecDimension ==> a.count == b.count && a.countMessage == b.countMessage)
    && match b.state
       case Sr1aIdAssignment => sent == Some(Announce(b.myId, b.randomNumber, b.neighborIdsRandomNum))
       case Sr1bNeighborList => sent == Some(Number(b.myId))
       case Sr1cRoleId => sent == Some(Number(|b.neighborIds|))
       case Sr1cSetRole => sent == Some(RoleNotice(b.myId, b.role))
       case Sr2aOriginAssignment | Sr2aSetOrigin =>
         && a.numOriginAssignment == (if b.role == Corner && b.numOriginAssignment == OriginUnset then candidate else b.numOriginAssignment)
         && sent == Some(Number(a.numOriginAssignment))
       case Sr2aOriginSetPosition =>
         sent == if b.ledColor == Black && b.position == Some(Pos(1, 1)) && OriginPlan(b.neighborRoles, b.neighborIds).Some?
                 then Some(Assignments(OriginPlan(b.neighborRoles, b.neighborIds).value))
                 else None
       case Sr2bSetRecDimension =>
         && a.count == (if b.position == Some(Pos(2, 1)) && b.role == Border && b.count == 0 then 2 else b.count)
         && a.countMessage == (if b.role == Corner && a.count > 0 && b.position.None? then SealThresholds(b.countMessage, a.count) else b.countMessage)
         && sent == if b.role == Corner && a.count > 0 && b.position.None? then Some(Counting(CountReport(None, a.count, a.countMessage)))
                    else if b.role == Border && a.count > 0 then
                      Some(Counting(CountReport(if b.position != Some(Pos(2, 1)) && !b.messageFromCorner then LastCornerId(b.neighborRoles) else None,
                                                a.count, a.countMessage)))
                    else None
       case Sr2bSetRelativePos => sent == if b.countFullMessage.Some? then Some(Counting(b.countFullMessage.value)) else None
       case Sr2cSetGlobalPos =>
         sent == Some(if b.position.Some? then Coordinates(b.position.value)
                      else if b.auxPosition.x != -1 || b.auxPosition.y != -1 then Coordinates(b.auxPosition)
                      else Nothing)
       case SetAnimationSync | SetRoleColor => sent == None
  }

  /**
   * routines.py:249-266: how `set_global_position` leaves the position and
   * `auxPosition` (`position`, `aux` before, `position'`, `aux'` after) of a
   * robot hearing the position lists `heard`: an interior robot without
   * position resolves `aux` from them and adopts it once both coordinates are
   * known; any other robot keeps both.
   */
  ghost predicate GlobalPositionSet(position: Option<Pos>, aux: Pos, isMiddle: bool, heard: seq<Pos>, position': Option<Pos>, aux': Pos)
  {
    if position.None? && isMiddle && heard != [] then
      && (|heard| < 3 ==> aux' == aux)
      && (|heard| >= 3 ==> AxisResolved(aux.x, Xs(heard), aux'.x) && AxisResolved(aux.y, Ys(heard), aux'.y))
      && position' == (if aux'.x != -1 && aux'.y != -1 then Some(aux') else None)
    else position' == position && aux' == aux
  }

  /**
   * agent.py:115-125: the R1 handler of state `b.state` turns a robot with
   * fields `b` into `a`; in every other state nothing changes.
   */
  ghost predicate HandledR1(b: Fields, a: Fields, draw: seq<int> -> int)
  {
    match b.state
    case Sr1aIdAssignment =>
      var v := Sr1a(IdentityOf(b), b.randomNumber, b.inbox, draw);
      a == b.(myId := v.myId, neighborIdsRandomNum := v.known, blacklistIds := v.blacklist, minDistSeen := v.minDist)
    case Sr1bNeighborList =>
      a == b.(neighborIds := Sr1b(b.neighborIds, Threshold(b.minDistSeen), b.inbox))
    case Sr1cRoleId =>
      a == b.(neighborCounts := Sr1cCounts(b.neighborCounts, b.inbox))
    case Sr1cSetRole =>
      if |b.neighborCounts| == 0 then a == b
      else
        var r := ClassifiedRole(|b.neighborIds|, b.neighborCounts);
        a == b.(role := r, ledColor := RoleLed(r), neighborRoles := RolesAfter(b.neighborRoles, NeighborMessages(b.inbox, b.neighborIds)))
    case _ => a == b
  }

  /**
   * agent.py:127-143: the R2 handler of state `b.state` turns a robot with
   * fields `b` into `a`; the handlers read only messages from neighbours. In
   * the R1 states and the two R3 states nothing changes.
   */
  ghost predicate HandledR2(b: Fields, a: Fields)
  {
    var heard := NeighborMessages(b.inbox, b.neighborIds);
    match b.state
    case Sr2aOriginAssignment =>
      var e := Sr2a(Election(b.numOriginAssignment, b.ledColor), b.role == Corner, heard);
      a == b.(numOriginAssignment := e.num, ledColor := e.led)
    case Sr2aSetOrigin =>
      var c := SetOrigin(Claim(b.position, b.ledColor), b.role == Corner, b.numOriginAssignment, heard);
      a == b.(position := c.position, ledColor := c.led)
    case Sr2aOriginSetPosition =>
      var c := AdoptPositions(Claim(b.position, b.ledColor), b.myId, heard);
      a == b.(position := c.position, ledColor := c.led)
    case Sr2bSetRecDimension =>
      var r := RecDimension(Relay(b.count, b.countMessage, b.messageFromCorner, b.ledColor), b.role, b.position, b.neighborRoles, heard);
      a == b.(count := r.count, countMessage := r.countMessage, messageFromCorner := r.fromCorner, ledColor := r.led)
    case Sr2bSetRelativePos =>
      var s := RelativePosition(Summary(b.countMessage, b.countFullMessage, b.position), b.role, b.count, heard);
      a == b.(countMessage := s.countMessage, countFullMessage := s.full, position := s.position)
    case Sr2cSetGlobalPos =>
      && a == b.(ledColor := LightGreen, position := a.position, auxPosition := a.auxPosition)
      && GlobalPositionSet(b.position, b.auxPosition, b.role == Middle, PositionsHeard(heard), a.position, a.auxPosition)
    case _ => a == b
  }

  /** agent.py:115-149: the handler of the current state, by phase. */
  ghost predicate Handled(b: Fields, a: Fields, draw: seq<int> -> int)
  {
    if b.state.Index() < Sr2aOriginAssignment.Index() then HandledR1(b, a, draw) else HandledR2(b, a)
  }

  /**
   * A handler never touches the state, the clock, the failure flag or the
   * inbox; IDs only change in SR1a, and from SR2b on a known position is kept.
   */
  lemma HandledKeeps(b: Fields, a: Fields, draw: seq<int> -> int)
    requires Handled(b, a, draw)
    ensures a.state == b.state && a.internalClock == b.internalClock && a.isBroken == b.isBroken && a.inbox == b.inbox
    ensures b.state != Sr1aIdAssignment ==> a.myId == b.myId && a.blacklistIds == b.blacklistIds
    ensures Sr2bSetRecDimension.Index() <= b.state.Index() && b.position.Some? ==> a.position == b.position
  {
    if b.state == Sr2bSetRelativePos {
      RelativePositionSpec(Summary(b.countMessage, b.countFullMessage, b.position), b.role, b.count, NeighborMessages(b.inbox, b.neighborIds));
    }
  }

  /** Every handler keeps the identity valid and the neighbour lists free of duplicates. */
  lemma HandledKeepsConsistent(b: Fields, a: Fields, draw: seq<int> -> int)
    requires DrawOk(draw) && Consistent(b) && Handled(b, a, draw)
    ensures Consistent(a)
  {
    if b.state == Sr1aIdAssignment {
      Sr1aKeepsIdsValid(IdentityOf(b), b.randomNumber, b.inbox, draw);
      Sr1aLearnsSenders(IdentityOf(b), b.randomNumber, b.inbox, draw);
      assert IdentityOf(a) == Sr1a(IdentityOf(b), b.randomNumber, b.inbox, draw);
    } else if b.state == Sr1bNeighborList {
      Sr1bSpec(b.neighborIds, Threshold(b.minDistSeen), b.inbox);
    } else if b.state == Sr1cSetRole {
      RolesAfterSpec(b.neighborRoles, NeighborMessages(b.inbox, b.neighborIds));
    }
  }

  class Kilobot {
    var state: State
    var ledColor: Color
    var role: Role
    var isBroken: bool
    var inbox: seq<Message>
    var internalClock: int
    var myId: int
    const randomNumber: int
    var neighborCounts: map<int, int>
    var neighborIds: seq<int>
    var neighborIdsRandomNum: seq<IdRandom>
    var neighborRoles: seq<RoleEntry>
    var blacklistIds: seq<int>
    var minDistSeen: real
    var numOriginAssignment: int
    var position: Option<Pos>
    var count: int
    var messageFromCorner: bool
    var countMessage: Tally
    var countFullMessage: Option<Tally>
    var auxPosition: Pos

    /** The state matches the clock: the last `Advance` resolved the current tick. */
    ghost predicate Synced()
      reads this
    {
      state == StateFor(internalClock)
    }

    /** `Step` has moved the clock on and the matching `Advance` has not yet run. */
    ghost predicate Pending()
      reads this
    {
      internalClock > 0 && state == StateFor(internalClock - 1)
    }

    /** The fields SR1a reads and writes. */
    function Identity(): IdView
      reads this
    {
      IdView(myId, neighborIdsRandomNum, blacklistIds, minDistSeen)
    }

    function Snapshot(): Fields
      reads this
    {
      Fields(state, ledColor, role, isBroken, inbox, internalClock, myId, randomNumber, neighborCounts, neighborIds,
             neighborIdsRandomNum, neighborRoles, blacklistIds, minDistSeen, numOriginAssignment, position, count,
             messageFromCorner, countMessage, countFullMessage, auxPosition)
    }

    ghost predicate Valid()
      reads this
    {
      && internalClock >= 0
      && (Synced() || Pending())
      && Consistent(Snapshot())
    }

    /** agent.py:8-35; `id` and `rn` stand for the two `random.randint` draws. */
    constructor (id: int, rn: int)
      requires 1 <= id <= MaxId && 0 <= rn <= 255
      ensures Valid() && Synced()
      ensures state == Sr1aIdAssignment && ledColor == Grey && role == Undecided && !isBroken
      ensures inbox == [] && internalClock == 0 && myId == id && randomNumber == rn
      ensures neighborCounts == map[] && neighborIds == [] && neighborIdsRandomNum == [] && neighborRoles == []
      ensures blacklistIds == [] && minDistSeen == InitialMinDist && numOriginAssignment == OriginUnset
      ensures position == None && count == 0 && !messageFromCorner && countMessage == InitialTally
      ensures countFullMessage == None && auxPosition == Pos(-1, -1)
    {
      state := Sr1aIdAssignment;
      ledColor := Grey;
      role := Undecided;
      isBroken := false;
      inbox := [];
      internalClock := 0;
      myId := id;
      randomNumber := rn;
      neighborCounts := map[];
      neighborIds := [];
      neighborIdsRandomNum := [];
      neighborRoles := [];
      blacklistIds := [];
      minDistSeen := InitialMinDist;
      numOriginAssignment := OriginUnset;
      position := None;
      count := 0;
      messageFromCorner := false;
      countMessage := InitialTally;
      countFullMessage := None;
      auxPosition := Pos(-1, -1);
    }

    /** agent.py:375-378; `delivered` stands for the loss draw. */
    method ReceiveMessage(m: Message, delivered: bool)
      modifies this`inbox
      ensures inbox == if delivered then old(inbox) + [m] else old(inbox)
    {
      if delivered {
        inbox := inbox + [m];
      }
    }

    // -------------------------------------------------------------------
    // step / advance
    // -------------------------------------------------------------------

    /**
     * The sending phase (agent.py:40-55): `fails` stands for the failure draw,
     * which only counts when the clock reads 100 modulo 150; a broken robot shows
     * brown and neither counts nor sends. `sent` is the content broadcast, if any.
     */
    method Step(fails: bool, candidate: int) returns (sent: Option<Content>)
      requires Valid() && Synced()
      requires 0 <= candidate <= CandidateMax
      modifies this`isBroken, this`ledColor, this`internalClock, this`numOriginAssignment, this`count, this`countMessage
      ensures Valid()
      ensures isBroken == (old(isBroken) || (old(internalClock) % 150 == 100 && fails))
      ensures isBroken ==>
                && sent == None && ledColor == Brown && internalClock == old(internalClock) && Synced()
                && numOriginAssignment == old(numOriginAssignment) && count == old(count) && countMessage == old(countMessage)
      ensures !isBroken ==> internalClock == old(internalClock) + 1 && ledColor == old(ledColor) && Pending()
      ensures !isBroken ==> Broadcasts(old(Snapshot()).(internalClock := internalClock), candidate, sent, Snapshot())
    {
      if internalClock % 150 == 100 && fails {
        isBroken := true;
      }
      if isBroken {
        ledColor := Brown;
        return None;
      }
      ghost var s0 := Snapshot();
      internalClock := internalClock + 1;
      assert Snapshot() == s0.(internalClock := internalClock);
      sent := BroadcastPresence(candidate);
      assert Consistent(Snapshot()) by {
        assert IdentityOf(Snapshot()) == IdentityOf(s0);
      }
    }

    /**
     * The resolution phase (agent.py:57-152): a broken robot changes nothing;
     * otherwise the state follows the schedule, the handler of the new state
     * runs, and the inbox is cleared.
     */
    method Advance(draw: seq<int> -> int)
      requires Valid() && DrawOk(draw)
      modifies this
      ensures Valid()
      ensures isBroken == old(isBroken) && internalClock == old(internalClock)
      ensures old(isBroken) ==> unchanged(this)
      ensures !old(isBroken) ==> Synced() && state == NextState(old(state), internalClock) && inbox == []
      ensures old(state).Index() <= state.Index()
      ensures state != Sr1aIdAssignment ==> myId == old(myId) && blacklistIds == old(blacklistIds)
      ensures Sr2bSetRecDimension.Index() <= old(state).Index() && old(position).Some? ==> position == old(position)
      ensures !old(isBroken) ==>
                Handled(old(Snapshot()).(state := state, ledColor := PhaseLed(internalClock, old(ledColor))),
                        Snapshot().(inbox := old(inbox)), draw)
    {
      if isBroken {
        return;
      }
      NextStateFollowsClock(internalClock);
      StateForMonotone(internalClock - 1, internalClock);
      ghost var s0 := Snapshot();
      UpdateState();
      assert Snapshot() == s0.(state := state, ledColor := ledColor);
      Resolve(draw);
      assert Consistent(Snapshot()) && Synced();
    }

    /** agent.py:69-110: the schedule, with the LED colours shown on entering a phase. */
    method UpdateState()
      modifies this`state, this`ledColor
      ensures state == NextState(old(state), internalClock)
      ensures ledColor == PhaseLed(internalClock, old(ledColor))
      ensures Snapshot() == old(Snapshot()).(state := state, ledColor := ledColor)
    {
      if internalClock == 1 {
        state := Sr1aIdAssignment;
        ledColor := Grey;
      } else if internalClock == 60 {
        state := Sr1bNeighborList;
        ledColor := LightBlue;
      } else if internalClock == 140 {
        state := Sr1cRoleId;
        ledColor := Orange;
      } else if internalClock == 180 {
        state := Sr1cSetRole;
      } else if internalClock == 260 {
        state := Sr2aOriginAssignment;
        ledColor := Grey;
      } else if internalClock == 320 {
        state := Sr2aSetOrigin;
      } else if internalClock == 370 {
        state := Sr2aOriginSetPosition;
      } else if internalClock == 400 {
        state := Sr2bSetRecDimension;
      } else if internalClock == 970 {
        state := Sr2bSetRelativePos;
        ledColor := Grey;
      } else if internalClock == 1070 {
        state := Sr2cSetGlobalPos;
      } else if internalClock == 1270 {
        state := SetAnimationSync;
      } else if internalClock == 1300 {
        state := SetRoleColor;
      }
    }

    /** agent.py:113-152: the handler of the current state runs and the inbox is cleared. */
    method Resolve(draw: seq<int> -> int)
      requires DrawOk(draw) && Consistent(Snapshot())
      modifies this`myId, this`neighborIdsRandomNum, this`blacklistIds, this`minDistSeen, this`neighborIds,
               this`neighborCounts, this`role, this`ledColor, this`neighborRoles, this`numOriginAssignment,
               this`position, this`count, this`countMessage, this`messageFromCorner, this`countFullMessage,
               this`auxPosition, this`inbox
      ensures Handled(old(Snapshot()), Snapshot().(inbox := old(inbox)), draw)
      ensures inbox == [] && Consistent(Snapshot())
      ensures state != Sr1aIdAssignment ==> myId == old(myId) && blacklistIds == old(blacklistIds)
      ensures Sr2bSetRecDimension.Index() <= state.Index() && old(position).Some? ==> position == old(position)
    {
      RunHandler(draw);
      inbox := [];
    }

    /**
     * agent.py:115-149: the handler of the current state runs, as `Handled`
     * says; it keeps the invariants, IDs only change in SR1a, and from SR2b
     * on a known position is kept.
     */
    method RunHandler(draw: seq<int> -> int)
      requires DrawOk(draw) && Consistent(Snapshot())
      modifies this`myId, this`neighborIdsRandomNum, this`blacklistIds, this`minDistSeen, this`neighborIds,
               this`neighborCounts, this`role, this`ledColor, this`neighborRoles, this`numOriginAssignment,
               this`position, this`count, this`countMessage, this`messageFromCorner, this`countFullMessage, this`auxPosition
      ensures Handled(old(Snapshot()), Snapshot(), draw)
      ensures Consistent(Snapshot())
      ensures state != Sr1aIdAssignment ==> myId == old(myId) && blacklistIds == old(blacklistIds)
      ensures Sr2bSetRecDimension.Index() <= state.Index() && old(position).Some? ==> position == old(position)
    {
      if state.Index() < Sr2aOriginAssignment.Index() {
        RunR1Handler(draw);
      } else {
        RunR2Handler();
      }
      HandledKeeps(old(Snapshot()), Snapshot(), draw);
      HandledKeepsConsistent(old(Snapshot()), Snapshot(), draw);
    }

    /** The R1 part of the dispatch (agent.py:115-125). */
    method RunR1Handler(draw: seq<int> -> int)
      modifies this`myId, this`neighborIdsRandomNum, this`blacklistIds, this`minDistSeen, this`neighborIds,
               this`neighborCounts, this`role, this`ledColor, this`neighborRoles
      ensures HandledR1(old(Snapshot()), Snapshot(), draw)
    {
      if state == Sr1aIdAssignment {
        HandleIdAssignment(draw);
      } else if state == Sr1bNeighborList {
        HandleNeighborList(draw);
      } else if state == Sr1cRoleId {
        HandleRoleId(draw);
      } else if state == Sr1cSetRole {
        HandleSetRole(draw);
      }
    }

    /** agent.py:115-116: SR1a runs `run_sr1a`. */
    method HandleIdAssignment(draw: seq<int> -> int)
      requires state == Sr1aIdAssignment
      modifies this`myId, this`neighborIdsRandomNum, this`blacklistIds, this`minDistSeen
      ensures HandledR1(old(Snapshot()), Snapshot(), draw)
    {
      RunSr1a(draw);
    }

    /** agent.py:118-119: SR1b runs `run_sr1b`. */
    method HandleNeighborList(draw: seq<int> -> int)
      requires state == Sr1bNeighborList
      modifies this`neighborIds
      ensures HandledR1(old(Snapshot()), Snapshot(), draw)
    {
      RunSr1b();
    }

    /** agent.py:121-122: SR1c (role id) runs `run_sr1c_collection`. */
    method HandleRoleId(draw: seq<int> -> int)
      requires state == Sr1cRoleId
      modifies this`neighborCounts
      ensures HandledR1(old(Snapshot()), Snapshot(), draw)
    {
      RunSr1cCollection();
    }

    /** agent.py:124-125: SR1c (set role) runs `determine_role`. */
    method HandleSetRole(draw: seq<int> -> int)
      requires state == Sr1cSetRole
      modifies this`role, this`ledColor, this`neighborRoles
      ensures HandledR1(old(Snapshot()), Snapshot(), draw)
    {
      DetermineRole();
    }

    /** The R2 part of the dispatch (agent.py:127-143); the R3 handlers are not part of this model. */
    method RunR2Handler()
      modifies this`ledColor, this`numOriginAssignment, this`position, this`count, this`countMessage,
               this`messageFromCorner, this`countFullMessage, this`auxPosition
      ensures HandledR2(old(Snapshot()), Snapshot())
    {
      if state == Sr2aOriginAssignment {
        HandleOriginAssignment();
      } else if state == Sr2aSetOrigin {
        HandleSetOrigin();
      } else if state == Sr2aOriginSetPosition {
        HandleOriginSetPosition();
      } else if state == Sr2bSetRecDimension {
        HandleRecDimension();
      } else if state == Sr2bSetRelativePos {
        HandleRelativePos();
      } else if state == Sr2cSetGlobalPos {
        HandleGlobalPos();
      }
    }

    /** agent.py:127-128: SR2a (origin assignment) runs `run_sr2a_origin_assignment`. */
    method HandleOriginAssignment()
      requires state == Sr2aOriginAssignment
      modifies this`numOriginAssignment, this`ledColor
      ensures HandledR2(old(Snapshot()), Snapshot())
    {
      RunSr2aOriginAssignment();
    }

    /** agent.py:130-131: SR2a (set origin) runs `set_origin_assignment`. */
    method HandleSetOrigin()
      requires state == Sr2aSetOrigin
      modifies this`position, this`ledColor
      ensures HandledR2(old(Snapshot()), Snapshot())
    {
      SetOriginAssignment();
    }

    /** agent.py:133-134: SR2a (origin set position) runs `set_origin_neighbors_position`. */
    method HandleOriginSetPosition()
      requires state == Sr2aOriginSetPosition
      modifies this`position, this`ledColor
      ensures HandledR2(old(Snapshot()), Snapshot())
    {
      SetOriginNeighborsPosition();
    }

    /** agent.py:136-137: SR2b (rectangle dimension) runs `set_rec_dimension`. */
    method HandleRecDimension()
      requires state == Sr2bSetRecDimension
      modifies this`count, this`countMessage, this`messageFromCorner, this`ledColor
      ensures HandledR2(old(Snapshot()), Snapshot())
    {
      SetRecDimension();
    }

    /** agent.py:139-140: SR2b (relative position) runs `set_relative_position`. */
    method HandleRelativePos()
      requires state == Sr2bSetRelativePos
      modifies this`countMessage, this`countFullMessage, this`position
      ensures HandledR2(old(Snapshot()), Snapshot())
    {
      SetRelativePosition();
    }

    /** agent.py:142-143: SR2c runs `set_global_position`. */
    method HandleGlobalPos()
      requires state == Sr2cSetGlobalPos
      modifies this`ledColor, this`position, this`auxPosition
      ensures HandledR2(old(Snapshot()), Snapshot())
    {
      ghost var s0 := Snapshot();
      SetGlobalPosition();
      assert Snapshot() == s0.(ledColor := LightGreen, position := position, auxPosition := auxPosition);
    }

    // -------------------------------------------------------------------
    // auxiliary methods of agent.py
    // -------------------------------------------------------------------

    /** agent.py:185-194. */
    method FilterNeighborMessages() returns (filtered: seq<Message>)
      ensures filtered == NeighborMessages(inbox, neighborIds)
    {
      filtered := [];
      var i := 0;
      while i < |inbox|
        invariant 0 <= i <= |inbox|
        invariant filtered == NeighborMessages(inbox[..i], neighborIds)
      {
        assert inbox[..i + 1][..i] == inbox[..i];
        if inbox[i].senderId in neighborIds {
          filtered := filtered + [inbox[i]];
        }
        i := i + 1;
      }
      assert inbox[..|inbox|] == inbox;
    }

    /**
     * agent.py:160-182: with at least three positions heard, each coordinate of
     * `auxPosition` becomes the middle of the least run of three consecutive
     * values heard on that axis (middle not -1), or stays as it was.
     */
    method CheckPosition(positions: seq<Pos>)
      modifies this`auxPosition
      ensures |positions| < 3 ==> auxPosition == old(auxPosition)
      ensures |positions| >= 3 ==>
                && AxisResolved(old(auxPosition).x, Xs(positions), auxPosition.x)
                && AxisResolved(old(auxPosition).y, Ys(positions), auxPosition.y)
    {
      if |positions| < 3 {
        return;
      }
      var xs := SortedSet(Xs(positions));
      var ys := SortedSet(Ys(positions));
      SameValuesSameRuns(xs, Xs(positions));
      SameValuesSameRuns(ys, Ys(positions));
      var mx := FindRunMiddle(xs);
      if mx.Some? {
        auxPosition := auxPosition.(x := mx.value);
      }
      var my := FindRunMiddle(ys);
      if my.Some? {
        auxPosition := auxPosition.(y := my.value);
      }
    }

    // -------------------------------------------------------------------
    // broadcast_presence
    // -------------------------------------------------------------------

    /** agent.py:201-362: the broadcast of the current state, as `Broadcasts` says. */
    method BroadcastPresence(candidate: int) returns (sent: Option<Content>)
      requires 0 <= candidate <= CandidateMax
      modifies this`numOriginAssignment, this`count, this`countMessage
      ensures Broadcasts(old(Snapshot()), candidate, sent, Snapshot())
    {
      if state.Index() < Sr2aOriginAssignment.Index() {
        sent := BroadcastR1(candidate);
      } else if state == Sr2bSetRecDimension {
        sent := BroadcastCount(candidate);
      } else {
        sent := BroadcastR2(candidate);
      }
    }

    /** agent.py:213-227: the R1 states announce the id, the neighbour count or the role. */
    method BroadcastR1(candidate: int) returns (sent: Option<Content>)
      requires state.Index() < Sr2aOriginAssignment.Index()
      ensures Broadcasts(Snapshot(), candidate, sent, Snapshot())
    {
      if state == Sr1aIdAssignment {
        sent := Some(Announce(myId, randomNumber, neighborIdsRandomNum));
      } else if state == Sr1bNeighborList {
        sent := Some(Number(myId));
      } else if state == Sr1cRoleId {
        sent := Some(Number(|neighborIds|));
      } else {
        sent := Some(RoleNotice(myId, role));
      }
    }

    /** agent.py:228-268 and 326-362: the SR2a candidate, the origin's hand-out and the later states. */
    method BroadcastR2(candidate: int) returns (sent: Option<Content>)
      requires Sr2aOriginAssignment.Index() <= state.Index() && state != Sr2bSetRecDimension
      modifies this`numOriginAssignment
      ensures Broadcasts(old(Snapshot()), candidate, sent, Snapshot())
    {
      sent := None;
      if state == Sr2aOriginAssignment || state == Sr2aSetOrigin {
        if role == Corner && numOriginAssignment == OriginUnset {
          numOriginAssignment := candidate;
        }
        sent := Some(Number(numOriginAssignment));
      } else if state == Sr2aOriginSetPosition {
        if ledColor == Black && position == Some(Pos(1, 1)) {
          sent := OriginHandOut();
        }
      } else if state == Sr2bSetRelativePos {
        if countFullMessage.Some? {
          sent := Some(Counting(countFullMessage.value));
        }
      } else if state == Sr2cSetGlobalPos {
        var content := Nothing;
        if position.Some? {
          content := Coordinates(position.value);
        }
        if position.None? && (auxPosition.x != -1 || auxPosition.y != -1) {
          content := Coordinates(auxPosition);
        }
        sent := Some(content);
      }
    }

    /** agent.py:269-325: the SR2b count broadcast. */
    method BroadcastCount(candidate: int) returns (sent: Option<Content>)
      requires state == Sr2bSetRecDimension
      modifies this`count, this`countMessage
      ensures Broadcasts(old(Snapshot()), candidate, sent, Snapshot())
    {
      sent := None;
      if position == Some(Pos(2, 1)) && role == Border && count == 0 {
        count := 2;
      }
      if count > 0 && role == Corner && position.None? {
        if countMessage.c1 == 0 {
          countMessage := countMessage.(c1 := count);
        } else if countMessage.c2 == 0 && count != countMessage.c1 {
          countMessage := countMessage.(c2 := count);
        } else if countMessage.c3 == 0 && count != countMessage.c1 && count != countMessage.c2 {
          countMessage := countMessage.(c3 := count);
        }
        sent := Some(Counting(CountReport(None, count, countMessage)));
      }
      if role == Border && count > 0 {
        var isCornerNeighbor, cornerId := CornerNeighbor();
        if isCornerNeighbor && position != Some(Pos(2, 1)) && !messageFromCorner {
          sent := Some(Counting(CountReport(Some(cornerId), count, countMessage)));
        } else {
          sent := Some(Counting(CountReport(None, count, countMessage)));
        }
      }
    }

    /** agent.py:239-256: the origin's hand-out, or nothing without two BORDER and one MIDDLE neighbour. */
    method OriginHandOut() returns (sent: Option<Content>)
      ensures sent == if OriginPlan(neighborRoles, neighborIds).Some?
                      then Some(Assignments(OriginPlan(neighborRoles, neighborIds).value))
                      else None
    {
      var borders: seq<int> := [];
      var middles: seq<int> := [];
      var i := 0;
      while i < |neighborRoles|
        invariant 0 <= i <= |neighborRoles|
        invariant borders == IdsWithRole(neighborRoles[..i], neighborIds, Border)
        invariant middles == IdsWithRole(neighborRoles[..i], neighborIds, Middle)
      {
        assert neighborRoles[..i + 1][..i] == neighborRoles[..i];
        var n := neighborRoles[i];
        if n.id in neighborIds && n.role == Border {
          borders := borders + [n.id];
        } else if n.id in neighborIds && n.role == Middle {
          middles := middles + [n.id];
        }
        i := i + 1;
      }
      assert neighborRoles[..|neighborRoles|] == neighborRoles;
      if |borders| < 2 || |middles| < 1 {
        return None;
      }
      if borders[0] > borders[1] {
        sent := Some(Assignments([Assignment(borders[1], Pos(2, 1)), Assignment(borders[0], Pos(1, 2)), Assignment(middles[0], Pos(2, 2))]));
      } else {
        sent := Some(Assignments([Assignment(borders[0], Pos(2, 1)), Assignment(borders[1], Pos(1, 2)), Assignment(middles[0], Pos(2, 2))]));
      }
    }

    /** agent.py:306-311: whether a CORNER is listed in `neighbor_roles`, and the id of the last one. */
    method CornerNeighbor() returns (found: bool, cornerId: int)
      ensures (if found then Some(cornerId) else None) == LastCornerId(neighborRoles)
    {
      found, cornerId := false, -1;
      var i := 0;
      while i < |neighborRoles|
        invariant 0 <= i <= |neighborRoles|
        invariant (if found then Some(cornerId) else None) == LastCornerId(neighborRoles[..i])
      {
        assert neighborRoles[..i + 1][..i] == neighborRoles[..i];
        if neighborRoles[i].role == Corner {
          found, cornerId := true, neighborRoles[i].id;
        }
        i := i + 1;
      }
      assert neighborRoles[..|neighborRoles|] == neighborRoles;
    }

    // -------------------------------------------------------------------
    // RoutineR1
    // -------------------------------------------------------------------

    /** routines.py:9-43; `draw` stands for the redraw loop of lines 25-27 and 35-37. */
    method RunSr1a(draw: seq<int> -> int)
      modifies this`myId, this`neighborIdsRandomNum, this`blacklistIds, this`minDistSeen
      ensures Identity() == Sr1a(old(Identity()), randomNumber, inbox, draw)
    {
      var i := 0;
      while i < |inbox|
        invariant 0 <= i <= |inbox|
        invariant Identity() == Sr1a(old(Identity()), randomNumber, inbox[..i], draw)
      {
        AnnounceOnce(inbox[i], draw);
        assert inbox[..i + 1][..i] == inbox[..i];
        i := i + 1;
      }
      assert inbox[..|inbox|] == inbox;
    }

    /** One pass of the loop of `run_sr1a` (routines.py:13-43). */
    method AnnounceOnce(m: Message, draw: seq<int> -> int)
      modifies this`myId, this`neighborIdsRandomNum, this`blacklistIds, this`minDistSeen
      ensures Identity() == AnnounceStep(old(Identity()), randomNumber, m, draw)
    {
      if m.content.Announce? {
        var sid, rn, peers := m.content.senderId, m.content.randomNumber, m.content.neighbors;
        LearnSender(sid, rn);
        if sid == myId && rn != randomNumber {
          blacklistIds := blacklistIds + [myId];
          myId := draw(blacklistIds);
        } else {
          ScanPeerList(peers, draw);
        }
      }
      if m.dist < minDistSeen {
        minDistSeen := m.dist;
      }
    }

    /** routines.py:13-21: a sender whose id is not listed yet is appended with its random number. */
    method LearnSender(sid: int, rn: int)
      modifies this`neighborIdsRandomNum
      ensures neighborIdsRandomNum == Learn(old(neighborIdsRandomNum), sid, rn)
    {
      var isAdded := false;
      var j := 0;
      while j < |neighborIdsRandomNum|
        invariant 0 <= j <= |neighborIdsRandomNum|
        invariant isAdded <==> exists k :: 0 <= k < j && neighborIdsRandomNum[k].id == sid
      {
        if neighborIdsRandomNum[j].id == sid {
          isAdded := true;
        }
        j := j + 1;
      }
      if !isAdded {
        neighborIdsRandomNum := neighborIdsRandomNum + [IdRandom(sid, rn)];
      }
    }

    /** routines.py:31-38: every listed peer holding the own id with another random number forces a redraw. */
    method ScanPeerList(peers: seq<IdRandom>, draw: seq<int> -> int)
      modifies this`myId, this`blacklistIds
      ensures Identity() == ScanPeers(old(Identity()), randomNumber, peers, draw)
    {
      var k := 0;
      while k < |peers|
        invariant 0 <= k <= |peers|
        invariant Identity() == ScanPeers(old(Identity()), randomNumber, peers[..k], draw)
      {
        assert peers[..k + 1][..k] == peers[..k];
        if peers[k].id == myId && peers[k].randomNumber != randomNumber {
          blacklistIds := blacklistIds + [myId];
          myId := draw(blacklistIds);
        }
        k := k + 1;
      }
      assert peers[..|peers|] == peers;
    }

    /** routines.py:48-62. */
    method RunSr1b()
      modifies this`neighborIds
      ensures neighborIds == Sr1b(old(neighborIds), Threshold(minDistSeen), inbox)
    {
      var thresholdR := Threshold(minDistSeen);
      var i := 0;
      while i < |inbox|
        invariant 0 <= i <= |inbox|
        invariant neighborIds == Sr1b(old(neighborIds), thresholdR, inbox[..i])
      {
        assert inbox[..i + 1][..i] == inbox[..i];
        var m := inbox[i];
        if m.dist <= thresholdR && m.content.Number? && m.content.n !in neighborIds {
          neighborIds := neighborIds + [m.content.n];
        }
        i := i + 1;
      }
      assert inbox[..|inbox|] == inbox;
    }

    /** routines.py:68-75. */
    method RunSr1cCollection()
      modifies this`neighborCounts
      ensures neighborCounts == Sr1cCounts(old(neighborCounts), inbox)
    {
      var i := 0;
      while i < |inbox|
        invariant 0 <= i <= |inbox|
        invariant neighborCounts == Sr1cCounts(old(neighborCounts), inbox[..i])
      {
        assert inbox[..i + 1][..i] == inbox[..i];
        var m := inbox[i];
        if m.content.Number? {
          neighborCounts := neighborCounts[m.senderId := m.content.n];
        }
        i := i + 1;
      }
      assert inbox[..|inbox|] == inbox;
    }

    /**
     * routines.py:78-114: without neighbour counts nothing changes; otherwise the
     * role is the one the counts classify (so repeated calls agree), and the
     * roles announced by neighbours are merged in.
     */
    method DetermineRole()
      modifies this`role, this`ledColor, this`neighborRoles
      ensures |neighborCounts| == 0 ==> role == old(role) && ledColor == old(ledColor) && neighborRoles == old(neighborRoles)
      ensures |neighborCounts| > 0 ==>
                && role == ClassifiedRole(|neighborIds|, neighborCounts)
                && ledColor == RoleLed(role)
                && neighborRoles == RolesAfter(old(neighborRoles), NeighborMessages(inbox, neighborIds))
    {
      var myCount := |neighborIds|;
      if |neighborCounts| == 0 {
        return;
      }
      var lo, hi := Extremes(neighborCounts);
      RoleOfClassifies(myCount, neighborCounts, lo, hi);
      if myCount < lo {
        role := Corner;
        ledColor := Red;
      } else if myCount >= hi {
        role := Middle;
        ledColor := Green;
      } else {
        role := Border;
        ledColor := Blue;
      }
      assert role == RoleOf(myCount, lo, hi) && ledColor == RoleLed(role);
      var msgs := FilterNeighborMessages();
      MergeRoles(msgs);
    }

    /** routines.py:106-114: each role notice from an id not yet recorded is appended to `neighbor_roles`. */
    method MergeRoles(msgs: seq<Message>)
      modifies this`neighborRoles
      ensures neighborRoles == RolesAfter(old(neighborRoles), msgs)
    {
      var i := 0;
      while i < |msgs|
        invariant 0 <= i <= |msgs|
        invariant neighborRoles == RolesAfter(old(neighborRoles), msgs[..i])
      {
        assert msgs[..i + 1][..i] == msgs[..i];
        var m := msgs[i];
        if m.content.RoleNotice? {
          var exist := HasRoleFor(neighborRoles, m.content.id);
          if !exist {
            neighborRoles := neighborRoles + [RoleEntry(m.content.id, m.content.role)];
          }
        }
        i := i + 1;
      }
      assert msgs[..|msgs|] == msgs;
    }

    // -------------------------------------------------------------------
    // RoutineR2
    // -------------------------------------------------------------------

    /** routines.py:119-133. */
    method RunSr2aOriginAssignment()
      modifies this`numOriginAssignment, this`ledColor
      ensures Election(numOriginAssignment, ledColor) ==
              Sr2a(Election(old(numOriginAssignment), old(ledColor)), role == Corner, NeighborMessages(inbox, neighborIds))
    {
      var msgs := FilterNeighborMessages();
      var i := 0;
      while i < |msgs|
        invariant 0 <= i <= |msgs|
        invariant Election(numOriginAssignment, ledColor) ==
                  Sr2a(Election(old(numOriginAssignment), old(ledColor)), role == Corner, msgs[..i])
      {
        assert msgs[..i + 1][..i] == msgs[..i];
        var m := msgs[i];
        if m.content.Number? {
          var receivedNum := m.content.n;
          if role != Corner {
            if receivedNum < numOriginAssignment {
              numOriginAssignment := receivedNum;
              ledColor := Pink;
            }
          } else {
            if numOriginAssignment == receivedNum {
              ledColor := Black;
            } else {
              ledColor := Purple;
            }
          }
        }
        i := i + 1;
      }
      assert msgs[..|msgs|] == msgs;
    }

    /** routines.py:136-148. */
    method SetOriginAssignment()
      modifies this`position, this`ledColor
      ensures Claim(position, ledColor) ==
              SetOrigin(Claim(old(position), old(ledColor)), role == Corner, numOriginAssignment, NeighborMessages(inbox, neighborIds))
    {
      var msgs := FilterNeighborMessages();
      var i := 0;
      while i < |msgs|
        invariant 0 <= i <= |msgs|
        invariant Claim(position, ledColor) ==
                  SetOrigin(Claim(old(position), old(ledColor)), role == Corner, numOriginAssignment, msgs[..i])
      {
        assert msgs[..i + 1][..i] == msgs[..i];
        if role != Corner {
          ledColor := Gray;
        } else if msgs[i].content == Number(numOriginAssignment) {
          position := Some(Pos(1, 1));
          ledColor := Black;
        } else {
          ledColor := Gray;
        }
        i := i + 1;
      }
      assert msgs[..|msgs|] == msgs;
    }

    /** routines.py:151-164. */
    method SetOriginNeighborsPosition()
      modifies this`position, this`ledColor
      ensures Claim(position, ledColor) ==
              AdoptPositions(Claim(old(position), old(ledColor)), myId, NeighborMessages(inbox, neighborIds))
    {
      var msgs := FilterNeighborMessages();
      var i := 0;
      while i < |msgs|
        invariant 0 <= i <= |msgs|
        invariant Claim(position, ledColor) == AdoptPositions(Claim(old(position), old(ledColor)), myId, msgs[..i])
      {
        assert msgs[..i + 1][..i] == msgs[..i];
        if msgs[i].content.Assignments? {
          var entries := msgs[i].content.entries;
          ghost var c := Claim(position, ledColor);
          var j := 0;
          while j < |entries|
            invariant 0 <= j <= |entries|
            invariant Claim(position, ledColor) == AdoptEntries(c, myId, entries[..j])
          {
            assert entries[..j + 1][..j] == entries[..j];
            if entries[j].id == myId {
              var p := entries[j].position;
              position := Some(p);
              if p == Pos(1, 2) {
                ledColor := Red;
              } else if p == Pos(2, 1) {
                ledColor := Blue;
              } else if p == Pos(2, 2) {
                ledColor := Green;
              }
            }
            j := j + 1;
          }
          assert entries[..|entries|] == entries;
        }
        i := i + 1;
      }
      assert msgs[..|msgs|] == msgs;
    }

    /** routines.py:169-211: the first branch whose guard holds runs. */
    method SetRecDimension()
      modifies this`count, this`countMessage, this`messageFromCorner, this`ledColor
      ensures Relay(count, countMessage, messageFromCorner, ledColor) ==
              RecDimension(Relay(old(count), old(countMessage), old(messageFromCorner), old(ledColor)),
                           role, position, neighborRoles, NeighborMessages(inbox, neighborIds))
    {
      var msgs := FilterNeighborMessages();
      if count == 0 && role == Border && position.None? {
        BorderCountUpdate(msgs);
      } else if count == 0 && role == Corner && position.None? {
        CornerCountUpdate(msgs);
      } else if position == Some(Pos(1, 2)) && count == 0 {
        SecondCountUpdate(msgs);
      } else if position == Some(Pos(1, 1)) {
        OriginCountUpdate(msgs);
      }
    }

    /** routines.py:173-184. */
    method BorderCountUpdate(msgs: seq<Message>)
      modifies this`count, this`countMessage, this`messageFromCorner, this`ledColor
      ensures Relay(count, countMessage, messageFromCorner, ledColor) ==
              BorderRelay(Relay(old(count), old(countMessage), old(messageFromCorner), old(ledColor)), neighborRoles, msgs)
    {
      ghost var r0 := Relay(count, countMessage, messageFromCorner, ledColor);
      var i := 0;
      while i < |msgs|
        invariant 0 <= i <= |msgs|
        invariant Relay(count, countMessage, messageFromCorner, ledColor) == BorderRelay(r0, neighborRoles, msgs[..i])
      {
        assert msgs[..i + 1][..i] == msgs[..i];
        var m := msgs[i];
        if PlainCount(m) {
          var fromCorner := false;
          var j := 0;
          while j < |neighborRoles|
            invariant 0 <= j <= |neighborRoles|
            invariant fromCorner <==> exists k :: 0 <= k < j && neighborRoles[k].id == m.senderId && neighborRoles[k].role == Corner
          {
            if neighborRoles[j].id == m.senderId && neighborRoles[j].role == Corner {
              fromCorner := true;
            }
            j := j + 1;
          }
          messageFromCorner := fromCorner;
          count := m.content.tally.count + 1;
          countMessage := m.content.tally;
          ledColor := LightBlue;
        }
        i := i + 1;
      }
      assert msgs[..|msgs|] == msgs;
    }

    /** routines.py:187-192. */
    method CornerCountUpdate(msgs: seq<Message>)
      modifies this`count, this`countMessage
      ensures Relay(count, countMessage, messageFromCorner, ledColor) ==
              CornerRelay(Relay(old(count), old(countMessage), messageFromCorner, ledColor), msgs)
    {
      ghost var r0 := Relay(count, countMessage, messageFromCorner, ledColor);
      var i := 0;
      while i < |msgs|
        invariant 0 <= i <= |msgs|
        invariant Relay(count, countMessage, messageFromCorner, ledColor) == CornerRelay(r0, msgs[..i])
      {
        assert msgs[..i + 1][..i] == msgs[..i];
        if CornerCount(msgs[i]) {
          count := msgs[i].content.tally.count + 1;
          countMessage := msgs[i].content.tally;
        }
        i := i + 1;
      }
      assert msgs[..|msgs|] == msgs;
    }

    /** routines.py:196-202. */
    method SecondCountUpdate(msgs: seq<Message>)
      modifies this`count, this`countMessage
      ensures Relay(count, countMessage, messageFromCorner, ledColor) ==
              SecondRelay(Relay(old(count), old(countMessage), messageFromCorner, ledColor), msgs)
    {
      ghost var r0 := Relay(count, countMessage, messageFromCorner, ledColor);
      var i := 0;
      while i < |msgs|
        invariant 0 <= i <= |msgs|
        invariant Relay(count, countMessage, messageFromCorner, ledColor) == SecondRelay(r0, msgs[..i])
      {
        assert msgs[..i + 1][..i] == msgs[..i];
        if msgs[i].content.Counting? && msgs[i].content.tally.count > 2 {
          count := msgs[i].content.tally.count + 1;
          countMessage := msgs[i].content.tally;
        }
        i := i + 1;
      }
      assert msgs[..|msgs|] == msgs;
    }

    /** routines.py:205-211. */
    method OriginCountUpdate(msgs: seq<Message>)
      modifies this`count, this`countMessage
      ensures Relay(count, countMessage, messageFromCorner, ledColor) ==
              OriginRelay(Relay(old(count), old(countMessage), messageFromCorner, ledColor), msgs)
    {
      ghost var r0 := Relay(count, countMessage, messageFromCorner, ledColor);
      var i := 0;
      while i < |msgs|
        invariant 0 <= i <= |msgs|
        invariant Relay(count, countMessage, messageFromCorner, ledColor) == OriginRelay(r0, msgs[..i])
      {
        assert msgs[..i + 1][..i] == msgs[..i];
        if msgs[i].content.Counting? {
          count := 1;
          if msgs[i].content.tally.count > 2 {
            countMessage := msgs[i].content.tally;
          }
        }
        i := i + 1;
      }
      assert msgs[..|msgs|] == msgs;
    }

    /** routines.py:214-243. */
    method SetRelativePosition()
      modifies this`countMessage, this`countFullMessage, this`position
      ensures Summary(countMessage, countFullMessage, position) ==
              RelativePosition(Summary(old(countMessage), old(countFullMessage), old(position)), role, count, NeighborMessages(inbox, neighborIds))
    {
      var msgs := FilterNeighborMessages();
      if position == Some(Pos(1, 1)) && countFullMessage.None? {
        countMessage := countMessage.(check := true);
        countFullMessage := Some(countMessage);
      } else {
        CollectFullCount(msgs);
      }
      if position.None? && (role == Border || role == Corner) && countFullMessage.Some? {
        PlaceFromCounts(msgs);
      }
    }

    /** routines.py:224-227: a robot adopts every count dictionary marked `check` it hears. */
    method CollectFullCount(msgs: seq<Message>)
      modifies this`countFullMessage
      ensures countFullMessage == AdoptSummary(old(countFullMessage), msgs)
    {
      var i := 0;
      while i < |msgs|
        invariant 0 <= i <= |msgs|
        invariant countFullMessage == AdoptSummary(old(countFullMessage), msgs[..i])
      {
        assert msgs[..i + 1][..i] == msgs[..i];
        if msgs[i].content.Counting? && msgs[i].content.tally.check {
          countFullMessage := Some(msgs[i].content.tally);
        }
        i := i + 1;
      }
      assert msgs[..|msgs|] == msgs;
    }

    /** routines.py:232-243: each count dictionary heard replaces the summary and gives the position on the perimeter. */
    method PlaceFromCounts(msgs: seq<Message>)
      modifies this`countFullMessage, this`position
      ensures Summary(countMessage, countFullMessage, position) ==
              PlaceOnPerimeter(Summary(countMessage, old(countFullMessage), old(position)), count, msgs)
    {
      ghost var s1 := Summary(countMessage, countFullMessage, position);
      var i := 0;
      while i < |msgs|
        invariant 0 <= i <= |msgs|
        invariant Summary(countMessage, countFullMessage, position) == PlaceOnPerimeter(s1, count, msgs[..i])
      {
        assert msgs[..i + 1][..i] == msgs[..i];
        if msgs[i].content.Counting? {
          var full := msgs[i].content.tally;
          countFullMessage := Some(full);
          if countMessage.count < full.c1 {
            position := Some(Pos(count, 1));
          } else if full.c1 < count <= full.c2 {
            position := Some(Pos(full.c1, count - full.c1 + 1));
          } else if full.c2 < count <= full.c3 {
            position := Some(Pos(full.c1 - (count - full.c2), full.c2 - full.c1 + 1));
          } else {
            position := Some(Pos(1, (full.c2 - full.c1 + 1) - (count - full.c3)));
          }
        }
        i := i + 1;
      }
      assert msgs[..|msgs|] == msgs;
    }

    /**
     * routines.py:249-266: an interior robot without position resolves
     * `auxPosition` from the positions its neighbours report and adopts it once
     * both coordinates are known.
     */
    method SetGlobalPosition()
      modifies this`ledColor, this`position, this`auxPosition
      ensures ledColor == LightGreen
      ensures GlobalPositionSet(old(position), old(auxPosition), role == Middle, PositionsHeard(NeighborMessages(inbox, neighborIds)),
                                position, auxPosition)
    {
      ledColor := LightGreen;
      if position.None? && role == Middle {
        var msgs := FilterNeighborMessages();
        var neighborsPositions := CollectPositions(msgs);
        if neighborsPositions != [] {
          CheckPosition(neighborsPositions);
          if auxPosition.x != -1 && auxPosition.y != -1 {
            position := Some(auxPosition);
          }
        }
      }
    }

    /** routines.py:257-259: the position lists among the messages, in order of arrival. */
    method CollectPositions(msgs: seq<Message>) returns (positions: seq<Pos>)
      ensures positions == PositionsHeard(msgs)
    {
      positions := [];
      var i := 0;
      while i < |msgs|
        invariant 0 <= i <= |msgs|
        invariant positions == PositionsHeard(msgs[..i])
      {
        assert msgs[..i + 1][..i] == msgs[..i];
        if Truthy(msgs[i].content) && msgs[i].content.Coordinates? {
          positions := positions + [msgs[i].content.pos];
        }
        i := i + 1;
      }
      assert msgs[..|msgs|] == msgs;
    }
  }
}
