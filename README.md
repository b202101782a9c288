# Kilobot decentralised grid localisation — a Dafny model

The system is a swarm of kilobots, which are small robots placed in a rectangular grid. Each robot only
hears the infrared messages of robots within range. Starting from random numbers, the swarm works out
the following, with no central coordinator:

- a unique id for every robot (routine SR1a);
- each robot's immediate neighbours (SR1b);
- whether the robot is a `CORNER`, `BORDER` or `MIDDLE` of the rectangle (SR1c);
- a single origin corner at grid position (1,1) (SR2a);
- the rectangle's dimensions, found by relaying a hop count around the perimeter (SR2b);
- a grid position for every robot (SR2c).

Every robot is an agent of a two-phase scheduler. At `step` it broadcasts a message whose content
depends on its current state. At `advance` it moves forward along a fixed clock schedule, then runs the
handler of that state on the messages it received.

The project models `agent.py` (class `Kilobot`) and `routines.py` (the handlers SR1a–SR2c):

- `types.dfy` defines the value types:
  - states, roles and LED colours;
  - message contents, one constructor per shape the source sends;
  - the count dictionary `Tally`;
  - the constants.
- `schedule.dfy` defines the clock schedule of `advance`.
- `routines_r1.dfy` and `routines_r2.dfy` state each handler's effect as a function of the old fields
  and the inbox, read as a left-to-right fold over the messages. Lemmas there characterise each
  effect outright. Examples: the last matching message wins; the count relay records its
  predecessor; the perimeter mapping is injective and lands on the rectangle's boundary.
- `agent_helpers.dfy` states the helper computations of `agent.py`:
  - the neighbour filter;
  - the sorted coordinate sets and the run search of `check_position`;
  - the origin's hand-out plan;
  - the threshold sealing done by a corner;
  - the corner-neighbour lookup.
- `agent.dfy` is the class `Kilobot`. It has the source's fields, and `Fields` is a snapshot of all of
  them. Three relations on snapshots say, state by state, what the class does:
  - `Broadcasts` gives what each state sends;
  - `Handled` gives what the handler of each state computes;
  - `PhaseLed` gives the LED colour on entering a phase.
- Each handler method in `agent.dfy` runs the source's loop over the inbox and is proved against the
  specification function of its routine.
- `BroadcastPresence` and `Step` are proved against `Broadcasts`; `RunHandler` and `Advance` against
  `Handled`. Each of these pins down every field afterwards, not only the ones the state's routine
  changes.
- `Valid()` is preserved across `Step` and `Advance`. It says that:
  - the state matches the clock, or, between `Step` and the matching `Advance`, the clock is one tick
    ahead of the state;
  - the robot's own id is in the range 1..255;
  - the neighbour lists hold no duplicates.

A message carries its sender's id, a content and a distance.

Python content values that a handler would fail on are treated as messages the handler skips:
- a bare integer where a dictionary is indexed;
- a role notice where a count is read.

The test `"sender_position" in msg` in `set_relative_position` looks at the message's own keys. Those
keys are `sender_id`, `content` and `dist`, so the test is always false and has no effect. The model
follows the code: during that phase the only truthy content robots send is a count dictionary, and
the test lets every such content through.

## Model

| member | source | states |
|---|---|---|
| Schedule.ScheduledExactlyAtTicks | agent.py:69-110 | `advance` assigns a state exactly at clock values 1, 60, 140, 180, 260, 320, 370, 400, 970, 1070, 1270 and 1300 |
| Schedule.ScheduleStrictlyLater | agent.py:69-110 | a later scheduled tick always assigns a strictly later state |
| Schedule.NextStateFollowsClock | agent.py:69-110 | resolving tick `c` from the state of tick `c-1` gives the state of tick `c`; resolving it again changes nothing |
| Schedule.StateForMonotone | agent.py:69-110 | the state of a robot never moves backwards along the schedule |
| RoutinesR1.Sr1aMinDist | routines.py:40-43 | after SR1a, `min_dist_seen` is at most its old value and every heard distance, and it equals one of them |
| RoutinesR1.Sr1aGrows | routines.py:12-38 | SR1a only adds to `neighbor_ids_randomNum` and to the blacklist |
| RoutinesR1.RedrawKeepsIdsValid | routines.py:24-28 | a redraw blacklists the old id and picks a new id in 1..255 outside the blacklist |
| RoutinesR1.ScanPeersKeepsIdsValid | routines.py:31-38 | scanning a peer's neighbour list keeps the own id valid |
| RoutinesR1.Sr1aKeepsIdsValid | routines.py:9-43 | SR1a keeps the own id in 1..255 and off the blacklist |
| RoutinesR1.Sr1aLearnsSenders | routines.py:13-21 | after SR1a every announcing sender is known, with no sender listed twice |
| RoutinesR1.ScanPeersRedrawsIff | routines.py:31-38 | while a neighbour list is scanned, nothing changes if no listed peer has the current id with a different random number; if one does, the blacklist grows |
| RoutinesR1.MessageRedrawsIff | routines.py:12-38 | one announcement leaves the id and the blacklist alone unless its sender or one of its listed peers collides with the own id, in which case the blacklist grows |
| RoutinesR1.Sr1aRedrawsIff | routines.py:9-38 | if no announcement in the inbox collides with the starting id, the id and the blacklist stay the same; if one does, the blacklist grows |
| RoutinesR1.DirectCollisionRedraws | routines.py:23-28 | a sender using the own id with a different random number forces a redraw |
| RoutinesR1.Sr1bSpec | routines.py:48-62 | SR1b keeps the old list and adds, once each, exactly the integer ids heard within 1.5 times the minimum distance plus 0.1 |
| RoutinesR1.Sr1cCountsSpec | routines.py:68-75 | SR1c maps each sender that reported an integer to its last reported count and keeps every other entry |
| RoutinesR1.Extremes | routines.py:87-89 | returns the least and the greatest neighbour count |
| RoutinesR1.RoleOfClassifies | routines.py:81-104 | the role is CORNER for the fewest neighbours, MIDDLE for the most and BORDER otherwise, with ties broken as in the source |
| RoutinesR1.RolesAfterSpec | routines.py:106-114 | each role notice from a new id is recorded; an id never appears twice; the old entries stay |
| RoutinesR2.Sr2aNonCornerTakesMin | routines.py:122-128 | a non-corner's number becomes the minimum of its own and every number heard; the LED turns pink iff the number dropped |
| RoutinesR2.Sr2aCornerKeepsNumber | routines.py:129-133 | a corner keeps its number; the last number heard makes the LED black if it equals the corner's number, purple otherwise |
| RoutinesR2.SetOriginSpec | routines.py:136-148 | only a corner that hears its own number claims (1,1); the LED reflects the last number heard (black if the corner's own, gray otherwise) |
| RoutinesR2.AdoptEntriesSpec | routines.py:156-164 | within one hand-out list, the last entry addressed to the robot sets its position |
| RoutinesR2.AdoptPositionsSpec | routines.py:151-164 | a robot that is never addressed keeps its position; otherwise it takes the last position addressed to it, with the red/blue/green LED of (1,2)/(2,1)/(2,2) |
| RoutinesR2.BorderRelaySpec | routines.py:173-184 | a border without a count takes the last sent count plus one, notes whether a corner sent it, and turns light blue |
| RoutinesR2.CornerRelaySpec | routines.py:187-192 | a corner without a position takes the count of the last count message carrying a `corner_id`, plus one; its corner flag and LED stay |
| RoutinesR2.SecondRelaySpec | routines.py:196-202 | the robot at (1,2) takes the last count above 2 it hears, plus one, so a changed count exceeds 3 |
| RoutinesR2.OriginRelayCount | routines.py:205-210 | the origin sets its count to 1 once it hears any count dictionary, and changes nothing if it hears none; its corner flag and LED stay |
| RoutinesR2.OriginRelaySpec | routines.py:205-211 | the origin stores the last count dictionary above 2 it hears, and keeps its stored dictionary if it hears none |
| RoutinesR2.BorderRelayPredecessor | routines.py:173-184 | a border that takes a count stores the dictionary whose count is one less |
| RoutinesR2.CornerRelayPredecessor | routines.py:187-192 | a corner that takes a count stores the dictionary whose count is one less |
| RoutinesR2.SecondRelayPredecessor | routines.py:196-202 | the robot at (1,2), when it takes a count, stores the dictionary whose count is one less |
| RoutinesR2.RecDimensionRecordsPredecessor | routines.py:173-202 | away from the origin, a count taken from a message is one more than the stored dictionary's count |
| RoutinesR2.RecDimensionCountSticky | routines.py:169-211 | once a robot other than the origin has a count, `setRecDimension` leaves its count state unchanged |
| RoutinesR2.PerimeterOnBoundary | routines.py:236-243 | for thresholds of a rectangle, every count on the perimeter walk maps to a cell on the rectangle's boundary |
| RoutinesR2.PerimeterInjective | routines.py:236-243 | distinct counts on the perimeter walk map to distinct cells |
| RoutinesR2.PerimeterEnds | routines.py:236-243 | the walk starts at (1,1), passes (2,1), and its last count maps to (1,2), next to the origin |
| RoutinesR2.UncountedRobotAtColumnZero | routines.py:236-237 | a robot whose stored count is below C1 is placed in column `count`, so one with count 0 lands at (0,1), outside the grid |
| RoutinesR2.AdoptSummarySpec | routines.py:224-227 | the full count kept is the one carried by the last `check` dictionary heard; with none heard the old one stays |
| RoutinesR2.PlaceOnPerimeterSpec | routines.py:231-243 | the last count message heard yields the robot's perimeter cell |
| RoutinesR2.RelativePositionSpec | routines.py:214-243 | a known position is kept; a border or corner without a position, once it holds the full count, takes its perimeter cell; other roles are unchanged |
| RoutinesR2.PositionsHeardSpec | routines.py:256-259 | a position is heard iff some message carries it as coordinates; no more positions than messages |
| AgentHelpers.NeighborMessagesSpec | agent.py:185-194 | a message passes the filter iff it is in the inbox and its sender is in `neighbor_ids`; an inbox of neighbours only passes unchanged |
| AgentHelpers.NeighborMessagesAppend | agent.py:188-194 | the filter keeps inbox order and multiplicity: filtering two inboxes joined gives their filtered parts joined, so the last message heard from a neighbour is the last such message of the inbox |
| AgentHelpers.Insert | agent.py:167-168 | inserting into a strictly sorted list keeps it strictly sorted and adds exactly the new value |
| AgentHelpers.SortedSet | agent.py:167-168 | `sorted(set(xs))` is strictly sorted with the same members as `xs` |
| AgentHelpers.SameValuesSameRuns | agent.py:170-182 | the run search depends only on the set of coordinate values |
| AgentHelpers.AxisResolvedUnique | agent.py:170-182 | the coordinate resolved from a value set is unique |
| AgentHelpers.FindRunMiddle | agent.py:170-182 | finds the middle of the first three consecutive values, or reports that no such run exists |
| AgentHelpers.IdsWithRoleSpec | agent.py:243-247 | lists exactly the neighbour ids recorded with a role, with no duplicates |
| AgentHelpers.IdsWithRoleAppend | agent.py:243-247 | the selection keeps the order of `neighbor_roles`: selecting from two lists joined is joining their selections |
| AgentHelpers.NoneSelected | agent.py:243-247 | a prefix of `neighbor_roles` with no matching entry selects nothing |
| AgentHelpers.FirstSelectedPrefix | agent.py:243-247 | up to and including the first matching entry, only its id is selected |
| AgentHelpers.SecondSelectedPrefix | agent.py:243-247 | up to the second matching entry, only the first one's id is selected |
| AgentHelpers.FirstSelectedLeads | agent.py:243-247 | the first matching entry gives the first id selected |
| AgentHelpers.FirstTwoSelectedLead | agent.py:243-247 | the first two matching entries give the first two ids selected, in that order |
| AgentHelpers.OriginPlanSpec | agent.py:249-256 | a plan exists iff there are two borders and one middle; (2,1) and (1,2) go to the first two border ids listed, the smaller one getting (2,1); (2,2) goes to the first middle id; the three are different robots |
| AgentHelpers.OriginPlanFirstEntries | agent.py:243-256 | (2,1) and (1,2) go to the first two `neighbor_roles` entries that list a border neighbour, and (2,2) to the first that lists a middle neighbour |
| AgentHelpers.RoleListsDisjoint | agent.py:243-247 | no id is listed with two roles |
| AgentHelpers.SealThresholdsSpec | agent.py:286-291 | a corner fills the first empty threshold among C1, C2, C3 with its count, unless the count already equals an earlier threshold; no other threshold or field changes |
| AgentHelpers.SealThresholdsIdempotent | agent.py:286-291 | sealing twice with the same count is the same as sealing once |
| AgentHelpers.SealThresholdsAscending | agent.py:286-291 | with rising counts at successive corners, the thresholds are filled in ascending order |
| AgentHelpers.LastCornerIdSpec | agent.py:306-311 | the corner id found is the id of the last corner in the role list, if any |
| Agent.Kilobot.constructor | agent.py:8-35 | every initial field value; the new robot satisfies `Valid()` and its state matches its clock |
| Agent.Kilobot.ReceiveMessage | agent.py:375-378 | a delivered message is appended to the inbox; a lost one changes nothing |
| Agent.HandledKeeps | agent.py:113-149 | no handler changes the state, the clock, the failure flag or the inbox; the id and blacklist change only in SR1a; from SR2b on a known position is kept |
| Agent.HandledKeepsConsistent | agent.py:113-149 | every handler keeps the id in 1..255 and off the blacklist, and the neighbour lists free of duplicates |
| Agent.Kilobot.Step | agent.py:40-55 | at clock 100 mod 150 a failure breaks the robot for good; a broken robot turns brown and neither counts nor sends; otherwise the clock advances and the robot sends and updates exactly what `Broadcasts` gives for its state |
| Agent.Kilobot.Advance | agent.py:57-152 | a broken robot changes nothing; a working one moves to the scheduled state and takes the `PhaseLed` colour, then every field becomes what `Handled` gives for that state, and the inbox is cleared; states never go backwards; the id is fixed after SR1a; a known position is kept from SR2b on |
| Agent.Kilobot.UpdateState | agent.py:69-110 | the state follows the schedule; the LED turns grey at ticks 1, 260 and 970, light blue at 60 and orange at 140, and stays as it was otherwise; nothing else changes |
| Agent.Kilobot.Resolve | agent.py:113-152 | every field except the inbox becomes what `Handled` gives for the current state, the inbox is cleared, and the invariants hold |
| Agent.Kilobot.RunHandler | agent.py:113-149 | every field becomes what `Handled` gives for the current state; the id and neighbour-list invariants are kept |
| Agent.Kilobot.RunR1Handler | agent.py:115-125 | SR1a sets the id fields to `Sr1a`; SR1b sets `neighbor_ids` to `Sr1b` with the distance threshold; SR1c sets the counts to `Sr1cCounts` or the role as `determine_role` does; nothing else changes |
| Agent.Kilobot.RunR2Handler | agent.py:127-149 | each SR2 state sets the fields its routine updates to that routine's function of the neighbour messages (`Sr2a`, `SetOrigin`, `AdoptPositions`, `RecDimension`, `RelativePosition`, the SR2c position rule); the R3 states change nothing |
| Agent.Kilobot.FilterNeighborMessages | agent.py:185-194 | returns the inbox restricted to neighbour senders |
| Agent.Kilobot.CheckPosition | agent.py:160-182 | with fewer than three positions, `auxPosition` is unchanged; otherwise each axis is resolved from its run of three values |
| Agent.Kilobot.BroadcastPresence | agent.py:201-362 | what is sent and the updated fields are those `Broadcasts` gives: the id announcement, id, neighbour count or role in R1; the corners' candidate draw; the black origin's plan; the count relay with threshold sealing; the full count; the position; nothing in R3 |
| Agent.Kilobot.BroadcastR1 | agent.py:213-227 | the R1 states send the announcement, the id, the neighbour count or the role notice, and change nothing |
| Agent.Kilobot.BroadcastR2 | agent.py:228-268 | a corner draws its candidate once, the black origin at (1,1) sends its plan, then the full count and the position are sent, as `Broadcasts` gives |
| Agent.Kilobot.BroadcastCount | agent.py:269-325 | the robot at (2,1) starts the count at 2, a corner without position seals a threshold, and the count dictionary is sent, as `Broadcasts` gives |
| Agent.Kilobot.OriginHandOut | agent.py:239-256 | sends the origin plan's assignments, or nothing when no plan exists; the test for the black origin at (1,1) is made by the caller |
| Agent.Kilobot.CornerNeighbor | agent.py:306-311 | finds the last corner among the recorded neighbour roles |
| Agent.Kilobot.RunSr1a | routines.py:9-43 | the id fields become `Sr1a` of the old id fields and the inbox |
| Agent.Kilobot.AnnounceOnce | routines.py:13-43 | the id fields after one message are `AnnounceStep` of the fields before it |
| Agent.Kilobot.LearnSender | routines.py:13-21 | a sender whose id is not listed yet is appended with its random number; a listed one changes nothing |
| Agent.Kilobot.ScanPeerList | routines.py:31-38 | the id fields become `ScanPeers` of the sender's neighbour list |
| Agent.Kilobot.RunSr1b | routines.py:48-62 | `neighbor_ids` becomes `Sr1b` of the old list, the distance threshold and the inbox |
| Agent.Kilobot.RunSr1cCollection | routines.py:68-75 | `neighbor_counts` becomes `Sr1cCounts` of the old map and the inbox |
| Agent.Kilobot.DetermineRole | routines.py:78-114 | with no counts nothing changes; otherwise the role is the classified role, with its LED, and the neighbour roles are updated |
| Agent.Kilobot.MergeRoles | routines.py:106-114 | `neighbor_roles` becomes `RolesAfter` of the messages |
| Agent.Kilobot.RunSr2aOriginAssignment | routines.py:119-133 | number and LED become `Sr2a` of the neighbour messages |
| Agent.Kilobot.SetOriginAssignment | routines.py:136-148 | position and LED become `SetOrigin` of the neighbour messages |
| Agent.Kilobot.SetOriginNeighborsPosition | routines.py:151-164 | position and LED become `AdoptPositions` of the neighbour messages |
| Agent.Kilobot.SetRecDimension | routines.py:169-211 | the count fields become `RecDimension` of the neighbour messages |
| Agent.Kilobot.BorderCountUpdate | routines.py:173-184 | the count fields become `BorderRelay` of the messages |
| Agent.Kilobot.CornerCountUpdate | routines.py:187-192 | the count fields become `CornerRelay` of the messages |
| Agent.Kilobot.SecondCountUpdate | routines.py:196-202 | the count fields become `SecondRelay` of the messages |
| Agent.Kilobot.OriginCountUpdate | routines.py:205-211 | the count fields become `OriginRelay` of the messages |
| Agent.Kilobot.SetRelativePosition | routines.py:214-243 | count dictionaries and position become `RelativePosition` of the neighbour messages |
| Agent.Kilobot.CollectFullCount | routines.py:224-227 | the full count becomes `AdoptSummary` of the messages: by `AdoptSummarySpec`, the last dictionary marked `check` heard, or the old one when none is heard |
| Agent.Kilobot.PlaceFromCounts | routines.py:232-243 | full count and position become `PlaceOnPerimeter` of the messages |
| Agent.Kilobot.SetGlobalPosition | routines.py:249-266 | the LED turns light green; a MIDDLE robot without a position that hears positions resolves `auxPosition` from them and adopts it once both coordinates are set |
| Agent.Kilobot.CollectPositions | routines.py:256-259 | returns `PositionsHeard` of the messages |

## Left out

- The Mesa model, scheduler, grid, server and batch runner (`model.py`, `server.py`, `run_batch.py`) are not part of this model. The alternation of `step` and `advance` appears only as the preconditions of `Kilobot.Step` and `Kilobot.Advance`.
- Agent.Kilobot.Step: requires the state to match the clock (`Synced`), which the scheduler's alternation of `step` and `advance` guarantees. The model does not cover a second `step` before `advance`.
- The R3 display routines (`set_animation_sincronization`, `set_role_color`, `smiley_face`, the wave and wasp animations, routines.py:270-477) are left out. They only set LED colours from the clock and the position. In the model those two states run no handler and send nothing.
- `calculate_distance` (agent.py:365-373) is geometry on the simulation grid. The distance arrives as the `dist` field of each message, an exact real.
- Floating-point rounding of the distance threshold `1.5 * min_dist_seen` is not modelled; it is exact real arithmetic.
- Randomness is passed in as parameters:
  - the failure draw against `failure_prob` is the `fails` argument of `Step`;
  - the corner's candidate number drawn in 0..200000 is `candidate`;
  - the loss in `receive_message` is `delivered`;
  - the id redraw is the `draw` function.
- Agent.Kilobot.RunSr1a: the `while new_id in blacklist` redraw loop is folded into `draw`, which must return an id in 1..255 outside the blacklist. The model therefore does not cover the source's endless loop once all 255 ids are blacklisted.
- Python object aliasing is not modelled; the model has value semantics. After `countFullMessage = msg['content']`, the source's dictionary is shared with the sender's message, `auxPosition`/`position` share a list after `set_global_position`, and the SR1a announcement's `"neighbors"` is the sender's live `neighbor_ids_randomNum` list (agent.py:215), so a receiver handled after its sender in the same tick scans ids the sender learned that tick, where the model sends the list as it was at `step`.
- Content shapes a handler would fail on (a `TypeError`/`KeyError` in the source, which aborts the run) are skipped by the model's handlers instead.
- Messages sent in the SR2A hand-out, SR2B and relative-position phases carry no `dist` key in the source. In the model they carry a distance, which no handler of those phases reads.
- Fields no decision of the source reads are not modelled: `messages_sent_count`, `neighbors_count`, `neighbor_positions`, `sentCount`, `sentFullCount`.
- Agent.Kilobot.CheckPosition: returns nothing. The source's early exit returns `auxPosition` and its only caller ignores that value, so the model keeps only the update of `auxPosition`.
- RoutinesR1.Sr1b: accepts only integer contents. The source's `isinstance(..., dict)` test would also let a list or `None` content through, but no robot sends either in that phase.
