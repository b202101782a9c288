/**
 * Routine R2 (routines.py, class RoutineR2): origin election, the origin's
 * position hand-out, the perimeter count relay and the mapping of a
 * perimeter index to a rectangle coordinate. As in RoutinesR1, each
 * handler's walk over the (neighbour-filtered) inbox is a fold over the
 * messages, and the lemmas state what the source promises of it.
 */
module RoutinesR2 {
  import opened Types

  /** Message `i` is the last one in `msgs` that satisfies `p`. */
  ghost predicate IsLastWhere(msgs: seq<Message>, i: int, p: Message -> bool)
  {
    0 <= i < |msgs| && p(msgs[i]) && forall j :: i < j < |msgs| ==> !p(msgs[j])
  }

  lemma LastOfPrefix(msgs: seq<Message>, i: int, p: Message -> bool)
    requires IsLastWhere(msgs, i, p) && i < |msgs| - 1
    ensures IsLastWhere(msgs[..|msgs| - 1], i, p)
  {
  }

  // ---------------------------------------------------------------------
  // SR2a phase 1: flood-min election among the corners
  // ---------------------------------------------------------------------

  /** The fields `run_sr2a_origin_assignment` updates. */
  datatype Election = Election(num: int, led: Color)

  predicate IsNumber(m: Message)
  {
    m.content.Number?
  }

  /** One iteration of routines.py:122-133. */
  function ElectionStep(e: Election, isCorner: bool, m: Message): Election
  {
    match m.content
    case Number(n) =>
      if !isCorner then (if n < e.num then Election(n, Pink) else e)
      else Election(e.num, if e.num == n then Black else Purple)
    case _ => e
  }

  /** The fields after `run_sr2a_origin_assignment` has processed `msgs`. */
  function Sr2a(e: Election, isCorner: bool, msgs: seq<Message>): Election
    decreases |msgs|
  {
    if msgs == [] then e else ElectionStep(Sr2a(e, isCorner, msgs[..|msgs| - 1]), isCorner, msgs[|msgs| - 1])
  }

  /**
   * A non-corner relays the minimum: `numOriginAssigment` becomes the least of
   * its old value and every number heard, and the LED turns pink exactly when
   * that lowered it.
   */
  lemma {:induction false} Sr2aNonCornerTakesMin(e: Election, msgs: seq<Message>)
    ensures Sr2a(e, false, msgs).num <= e.num
    ensures forall i :: 0 <= i < |msgs| && msgs[i].content.Number? ==> Sr2a(e, false, msgs).num <= msgs[i].content.n
    ensures Sr2a(e, false, msgs).num == e.num
         || exists i :: 0 <= i < |msgs| && msgs[i].content == Number(Sr2a(e, false, msgs).num)
    ensures Sr2a(e, false, msgs).led == if Sr2a(e, false, msgs).num < e.num then Pink else e.led
    decreases |msgs|
  {
    if msgs != [] {
      var n := |msgs| - 1;
      var pre := msgs[..n];
      Sr2aNonCornerTakesMin(e, pre);
      assert forall i :: 0 <= i < n ==> pre[i] == msgs[i];
    }
  }

  /**
   * A corner keeps its own number; its LED is decided by the last number it
   * hears: black when that number is its own, purple otherwise.
   */
  lemma {:induction false} Sr2aCornerKeepsNumber(e: Election, msgs: seq<Message>)
    ensures Sr2a(e, true, msgs).num == e.num
    ensures (forall i :: 0 <= i < |msgs| ==> !IsNumber(msgs[i])) ==> Sr2a(e, true, msgs).led == e.led
    ensures forall i :: IsLastWhere(msgs, i, IsNumber) ==>
              Sr2a(e, true, msgs).led == if msgs[i].content.n == e.num then Black else Purple
    decreases |msgs|
  {
    if msgs != [] {
      var n := |msgs| - 1;
      var pre := msgs[..n];
      var d := Sr2a(e, true, pre);
      Sr2aCornerKeepsNumber(e, pre);
      assert Sr2a(e, true, msgs) == ElectionStep(d, true, msgs[n]);
      if IsNumber(msgs[n]) {
        assert ElectionStep(d, true, msgs[n]) == Election(d.num, if d.num == msgs[n].content.n then Black else Purple);
        forall i | IsLastWhere(msgs, i, IsNumber)
          ensures i == n
        {
        }
      } else {
        assert ElectionStep(d, true, msgs[n]) == d;
        forall i | IsLastWhere(msgs, i, IsNumber)
          ensures Sr2a(e, true, msgs).led == if msgs[i].content.n == e.num then Black else Purple
        {
          LastOfPrefix(msgs, i, IsNumber);
          assert pre[i] == msgs[i];
        }
      }
    }
  }

  // ---------------------------------------------------------------------
  // SR2a phase 2: a corner that hears its own number becomes [1,1]
  // ---------------------------------------------------------------------

  /** `position` and `led_color`, the fields the position handlers update. */
  datatype Claim = Claim(position: Option<Pos>, led: Color)

  /** One iteration of routines.py:139-148. */
  function SetOriginStep(c: Claim, isCorner: bool, num: int, m: Message): Claim
  {
    if !isCorner then c.(led := Gray)
    else if m.content == Number(num) then Claim(Some(Pos(1, 1)), Black)
    else c.(led := Gray)
  }

  /** The fields after `setOriginAssignment` has processed `msgs`. */
  function SetOrigin(c: Claim, isCorner: bool, num: int, msgs: seq<Message>): Claim
    decreases |msgs|
  {
    if msgs == [] then c
    else SetOriginStep(SetOrigin(c, isCorner, num, msgs[..|msgs| - 1]), isCorner, num, msgs[|msgs| - 1])
  }

  /**
   * Only a corner that hears its own number echoed takes position [1,1]; the
   * LED ends black exactly when the last message heard is that number.
   */
  lemma {:induction false} SetOriginSpec(c: Claim, isCorner: bool, num: int, msgs: seq<Message>)
    ensures !isCorner ==> SetOrigin(c, isCorner, num, msgs).position == c.position
    ensures isCorner ==> (SetOrigin(c, isCorner, num, msgs).position ==
              if exists i :: 0 <= i < |msgs| && msgs[i].content == Number(num) then Some(Pos(1, 1)) else c.position)
    ensures msgs == [] ==> SetOrigin(c, isCorner, num, msgs).led == c.led
    ensures msgs != [] ==> (SetOrigin(c, isCorner, num, msgs).led ==
              if isCorner && msgs[|msgs| - 1].content == Number(num) then Black else Gray)
    decreases |msgs|
  {
    if msgs != [] {
      var n := |msgs| - 1;
      var pre := msgs[..n];
      SetOriginSpec(c, isCorner, num, pre);
      if isCorner && (exists i :: 0 <= i < |msgs| && msgs[i].content == Number(num)) && msgs[n].content != Number(num) {
        var i :| 0 <= i < |msgs| && msgs[i].content == Number(num);
        assert pre[i].content == Number(num);
      }
    }
  }

  // ---------------------------------------------------------------------
  // SR2a phase 3: adopting the position the origin addressed to me
  // ---------------------------------------------------------------------

  /** The LED colour set for each handed-out position (routines.py:159-164). */
  function LedFor(p: Pos, led: Color): Color
  {
    if p == Pos(1, 2) then Red
    else if p == Pos(2, 1) then Blue
    else if p == Pos(2, 2) then Green
    else led
  }

  /** The inner loop over one hand-out list (routines.py:156-164). */
  function AdoptEntries(c: Claim, myId: int, entries: seq<Assignment>): Claim
    decreases |entries|
  {
    if entries == [] then c
    else
      var d := AdoptEntries(c, myId, entries[..|entries| - 1]);
      var e := entries[|entries| - 1];
      if e.id == myId then Claim(Some(e.position), LedFor(e.position, d.led)) else d
  }

  /** The fields after `setOriginNeighborsPosition` has processed `msgs`. */
  function AdoptPositions(c: Claim, myId: int, msgs: seq<Message>): Claim
    decreases |msgs|
  {
    if msgs == [] then c
    else
      var d := AdoptPositions(c, myId, msgs[..|msgs| - 1]);
      var m := msgs[|msgs| - 1];
      if m.content.Assignments? then AdoptEntries(d, myId, m.content.entries) else d
  }

  /** The positions addressed to `myId` in one hand-out list, in order. */
  function AddressedIn(myId: int, entries: seq<Assignment>): seq<Pos>
    decreases |entries|
  {
    if entries == [] then []
    else
      var e := entries[|entries| - 1];
      AddressedIn(myId, entries[..|entries| - 1]) + (if e.id == myId then [e.position] else [])
  }

  /** Every position addressed to `myId` in the messages, in order of arrival. */
  function Addressed(myId: int, msgs: seq<Message>): seq<Pos>
    decreases |msgs|
  {
    if msgs == [] then []
    else
      var m := msgs[|msgs| - 1];
      Addressed(myId, msgs[..|msgs| - 1]) + (if m.content.Assignments? then AddressedIn(myId, m.content.entries) else [])
  }

  predicate IsHandOut(p: Pos)
  {
    p == Pos(1, 2) || p == Pos(2, 1) || p == Pos(2, 2)
  }

  lemma {:induction false} AdoptEntriesSpec(c: Claim, myId: int, entries: seq<Assignment>)
    ensures AddressedIn(myId, entries) == [] ==> AdoptEntries(c, myId, entries) == c
    ensures AddressedIn(myId, entries) != [] ==>
              AdoptEntries(c, myId, entries).position == Some(AddressedIn(myId, entries)[|AddressedIn(myId, entries)| - 1])
    ensures AddressedIn(myId, entries) != [] && IsHandOut(AddressedIn(myId, entries)[|AddressedIn(myId, entries)| - 1]) ==>
              AdoptEntries(c, myId, entries).led == LedFor(AddressedIn(myId, entries)[|AddressedIn(myId, entries)| - 1], c.led)
    decreases |entries|
  {
    if entries != [] {
      AdoptEntriesSpec(c, myId, entries[..|entries| - 1]);
    }
  }

  /**
   * A robot adopts the last position addressed to its id and keeps its
   * position and LED when nothing is addressed to it.
   */
  lemma {:induction false} AdoptPositionsSpec(c: Claim, myId: int, msgs: seq<Message>)
    ensures Addressed(myId, msgs) == [] ==> AdoptPositions(c, myId, msgs) == c
    ensures Addressed(myId, msgs) != [] ==>
              AdoptPositions(c, myId, msgs).position == Some(Addressed(myId, msgs)[|Addressed(myId, msgs)| - 1])
    ensures Addressed(myId, msgs) != [] && IsHandOut(Addressed(myId, msgs)[|Addressed(myId, msgs)| - 1]) ==>
              AdoptPositions(c, myId, msgs).led == LedFor(Addressed(myId, msgs)[|Addressed(myId, msgs)| - 1], c.led)
    decreases |msgs|
  {
    if msgs != [] {
      var pre := msgs[..|msgs| - 1];
      var m := msgs[|msgs| - 1];
      var d := AdoptPositions(c, myId, pre);
      AdoptPositionsSpec(c, myId, pre);
      if m.content.Assignments? {
        var b := AddressedIn(myId, m.content.entries);
        assert Addressed(myId, msgs) == Addressed(myId, pre) + b;
        AdoptEntriesSpec(d, myId, m.content.entries);
        if b != [] {
          assert Addressed(myId, msgs)[|Addressed(myId, msgs)| - 1] == b[|b| - 1];
          if IsHandOut(b[|b| - 1]) {
            assert LedFor(b[|b| - 1], d.led) == LedFor(b[|b| - 1], c.led);
          }
        }
      } else {
        assert Addressed(myId, msgs) == Addressed(myId, pre);
      }
    }
  }

  // ---------------------------------------------------------------------
  // SR2b phase 1: counting along the perimeter
  // ---------------------------------------------------------------------

  /** `count`, `countMessage`, `messageFromCorner` and `led_color`, the fields `setRecDimension` updates. */
  datatype Relay = Relay(count: int, countMessage: Tally, fromCorner: bool, led: Color)

  /** The sender is listed in `neighbor_roles` as a CORNER (routines.py:178-180). */
  predicate SentByCorner(roles: seq<RoleEntry>, id: int)
  {
    exists i :: 0 <= i < |roles| && roles[i].id == id && roles[i].role == Corner
  }

  /** A count dictionary without `corner_id`. */
  predicate PlainCount(m: Message)
  {
    m.content.Counting? && m.content.tally.cornerId.None?
  }

  /** A count dictionary with `corner_id`. */
  predicate CornerCount(m: Message)
  {
    m.content.Counting? && m.content.tally.cornerId.Some?
  }

  /** A count dictionary whose count exceeds 2. */
  predicate LongCount(m: Message)
  {
    m.content.Counting? && m.content.tally.count > 2
  }

  predicate IsCounting(m: Message)
  {
    m.content.Counting?
  }

  /** A BORDER without position and with count 0 (routines.py:173-184). */
  function BorderRelay(r: Relay, roles: seq<RoleEntry>, msgs: seq<Message>): Relay
    decreases |msgs|
  {
    if msgs == [] then r
    else
      var d := BorderRelay(r, roles, msgs[..|msgs| - 1]);
      var m := msgs[|msgs| - 1];
      if PlainCount(m) then Relay(m.content.tally.count + 1, m.content.tally, SentByCorner(roles, m.senderId), LightBlue) else d
  }

  /** A CORNER without position and with count 0 (routines.py:187-192). */
  function CornerRelay(r: Relay, msgs: seq<Message>): Relay
    decreases |msgs|
  {
    if msgs == [] then r
    else
      var d := CornerRelay(r, msgs[..|msgs| - 1]);
      var m := msgs[|msgs| - 1];
      if CornerCount(m) then d.(count := m.content.tally.count + 1, countMessage := m.content.tally) else d
  }

  /** The robot at [1,2] while its count is 0 (routines.py:196-202). */
  function SecondRelay(r: Relay, msgs: seq<Message>): Relay
    decreases |msgs|
  {
    if msgs == [] then r
    else
      var d := SecondRelay(r, msgs[..|msgs| - 1]);
      var m := msgs[|msgs| - 1];
      if LongCount(m) then d.(count := m.content.tally.count + 1, countMessage := m.content.tally) else d
  }

  /** The origin [1,1] (routines.py:205-211). */
  function OriginRelay(r: Relay, msgs: seq<Message>): Relay
    decreases |msgs|
  {
    if msgs == [] then r
    else
      var d := OriginRelay(r, msgs[..|msgs| - 1]);
      var m := msgs[|msgs| - 1];
      if !IsCounting(m) then d
      else if m.content.tally.count > 2 then d.(count := 1, countMessage := m.content.tally)
      else d.(count := 1)
  }

  /** The fields after `setRecDimension`: the first branch whose guard holds runs. */
  function RecDimension(r: Relay, role: Role, position: Option<Pos>, roles: seq<RoleEntry>, msgs: seq<Message>): Relay
  {
    if r.count == 0 && role == Border && position.None? then BorderRelay(r, roles, msgs)
    else if r.count == 0 && role == Corner && position.None? then CornerRelay(r, msgs)
    else if position == Some(Pos(1, 2)) && r.count == 0 then SecondRelay(r, msgs)
    else if position == Some(Pos(1, 1)) then OriginRelay(r, msgs)
    else r
  }

  /**
   * A BORDER takes the count of the last plain count message plus one (and
   * its dictionary), ignoring messages that carry `corner_id`; the flag
   * records whether that message came from a CORNER neighbour.
   */
  lemma {:induction false} BorderRelaySpec(r: Relay, roles: seq<RoleEntry>, msgs: seq<Message>)
    ensures (forall i :: 0 <= i < |msgs| ==> !PlainCount(msgs[i])) ==> BorderRelay(r, roles, msgs) == r
    ensures forall i :: IsLastWhere(msgs, i, PlainCount) ==>
              BorderRelay(r, roles, msgs) ==
              Relay(msgs[i].content.tally.count + 1, msgs[i].content.tally, SentByCorner(roles, msgs[i].senderId), LightBlue)
    decreases |msgs|
  {
    if msgs != [] {
      var n := |msgs| - 1;
      var pre := msgs[..n];
      var d := BorderRelay(r, roles, pre);
      BorderRelaySpec(r, roles, pre);
      if PlainCount(msgs[n]) {
        assert BorderRelay(r, roles, msgs) == Relay(msgs[n].content.tally.count + 1, msgs[n].content.tally, SentByCorner(roles, msgs[n].senderId), LightBlue);
        forall i | IsLastWhere(msgs, i, PlainCount)
          ensures i == n
        {
        }
      } else {
        assert BorderRelay(r, roles, msgs) == d;
        forall i | IsLastWhere(msgs, i, PlainCount)
          ensures IsLastWhere(pre, i, PlainCount) && pre[i] == msgs[i]
        {
          LastOfPrefix(msgs, i, PlainCount);
        }
      }
    }
  }

  /** A CORNER takes the count of the last message carrying `corner_id`, plus one. */
  lemma {:induction false} CornerRelaySpec(r: Relay, msgs: seq<Message>)
    ensures CornerRelay(r, msgs).fromCorner == r.fromCorner && CornerRelay(r, msgs).led == r.led
    ensures (forall i :: 0 <= i < |msgs| ==> !CornerCount(msgs[i])) ==> CornerRelay(r, msgs) == r
    ensures forall i :: IsLastWhere(msgs, i, CornerCount) ==>
              CornerRelay(r, msgs) == r.(count := msgs[i].content.tally.count + 1, countMessage := msgs[i].content.tally)
    decreases |msgs|
  {
    if msgs != [] {
      var n := |msgs| - 1;
      var pre := msgs[..n];
      var d := CornerRelay(r, pre);
      CornerRelaySpec(r, pre);
      if CornerCount(msgs[n]) {
        assert CornerRelay(r, msgs) == d.(count := msgs[n].content.tally.count + 1, countMessage := msgs[n].content.tally);
        forall i | IsLastWhere(msgs, i, CornerCount)
          ensures i == n
        {
        }
      } else {
        assert CornerRelay(r, msgs) == d;
        forall i | IsLastWhere(msgs, i, CornerCount)
          ensures IsLastWhere(pre, i, CornerCount) && pre[i] == msgs[i]
        {
          LastOfPrefix(msgs, i, CornerCount);
        }
      }
    }
  }

  /** [1,2] only accepts counts above 2, so it never re-derives its count from [2,1]. */
  lemma {:induction false} SecondRelaySpec(r: Relay, msgs: seq<Message>)
    ensures SecondRelay(r, msgs).fromCorner == r.fromCorner && SecondRelay(r, msgs).led == r.led
    ensures (forall i :: 0 <= i < |msgs| ==> !LongCount(msgs[i])) ==> SecondRelay(r, msgs) == r
    ensures forall i :: IsLastWhere(msgs, i, LongCount) ==>
              SecondRelay(r, msgs) == r.(count := msgs[i].content.tally.count + 1, countMessage := msgs[i].content.tally)
    ensures SecondRelay(r, msgs) != r ==> SecondRelay(r, msgs).count > 3
    decreases |msgs|
  {
    if msgs != [] {
      var n := |msgs| - 1;
      var pre := msgs[..n];
      var d := SecondRelay(r, pre);
      SecondRelaySpec(r, pre);
      if LongCount(msgs[n]) {
        assert SecondRelay(r, msgs) == d.(count := msgs[n].content.tally.count + 1, countMessage := msgs[n].content.tally);
        forall i | IsLastWhere(msgs, i, LongCount)
          ensures i == n
        {
        }
      } else {
        assert SecondRelay(r, msgs) == d;
        forall i | IsLastWhere(msgs, i, LongCount)
          ensures IsLastWhere(pre, i, LongCount) && pre[i] == msgs[i]
        {
          LastOfPrefix(msgs, i, LongCount);
        }
      }
    }
  }

  /** The origin sets its count to 1 on any count message and changes nothing else without one. */
  lemma {:induction false} OriginRelayCount(r: Relay, msgs: seq<Message>)
    ensures (forall i :: 0 <= i < |msgs| ==> !IsCounting(msgs[i])) ==> OriginRelay(r, msgs) == r
    ensures (exists i :: 0 <= i < |msgs| && IsCounting(msgs[i])) ==> OriginRelay(r, msgs).count == 1
    ensures OriginRelay(r, msgs).fromCorner == r.fromCorner && OriginRelay(r, msgs).led == r.led
    decreases |msgs|
  {
    if msgs != [] {
      var n := |msgs| - 1;
      var pre := msgs[..n];
      OriginRelayCount(r, pre);
      if !IsCounting(msgs[n]) {
        assert OriginRelay(r, msgs) == OriginRelay(r, pre);
        if exists i :: 0 <= i < |msgs| && IsCounting(msgs[i]) {
          var i :| 0 <= i < |msgs| && IsCounting(msgs[i]);
          assert pre[i] == msgs[i];
        }
        if forall i :: 0 <= i < |msgs| ==> !IsCounting(msgs[i]) {
          forall i | 0 <= i < n
            ensures !IsCounting(pre[i])
          {
            assert pre[i] == msgs[i];
          }
        }
      }
    }
  }

  /** The origin keeps only count dictionaries whose count exceeds 2: the last of them. */
  lemma {:induction false} OriginRelaySpec(r: Relay, msgs: seq<Message>)
    ensures (forall i :: 0 <= i < |msgs| ==> !LongCount(msgs[i])) ==> OriginRelay(r, msgs).countMessage == r.countMessage
    ensures forall i :: IsLastWhere(msgs, i, LongCount) ==> OriginRelay(r, msgs).countMessage == msgs[i].content.tally
    decreases |msgs|
  {
    if msgs != [] {
      var n := |msgs| - 1;
      var pre := msgs[..n];
      var d := OriginRelay(r, pre);
      OriginRelaySpec(r, pre);
      if LongCount(msgs[n]) {
        assert OriginRelay(r, msgs) == d.(count := 1, countMessage := msgs[n].content.tally);
        forall i | IsLastWhere(msgs, i, LongCount)
          ensures i == n
        {
        }
      } else {
        assert OriginRelay(r, msgs).countMessage == d.countMessage;
        if forall i :: 0 <= i < |msgs| ==> !LongCount(msgs[i]) {
          forall i | 0 <= i < n
            ensures !LongCount(pre[i])
          {
            assert pre[i] == msgs[i];
          }
        }
        forall i | IsLastWhere(msgs, i, LongCount)
          ensures IsLastWhere(pre, i, LongCount) && pre[i] == msgs[i]
        {
          LastOfPrefix(msgs, i, LongCount);
        }
      }
    }
  }

  /** A count taken from a message is one more than the count of the dictionary stored with it. */
  predicate RecordsPredecessor(r: Relay)
  {
    r.count == r.countMessage.count + 1
  }

  lemma {:induction false} BorderRelayPredecessor(r: Relay, roles: seq<RoleEntry>, msgs: seq<Message>)
    ensures BorderRelay(r, roles, msgs) == r || RecordsPredecessor(BorderRelay(r, roles, msgs))
    decreases |msgs|
  {
    if msgs != [] {
      BorderRelayPredecessor(r, roles, msgs[..|msgs| - 1]);
    }
  }

  lemma {:induction false} CornerRelayPredecessor(r: Relay, msgs: seq<Message>)
    ensures CornerRelay(r, msgs) == r || RecordsPredecessor(CornerRelay(r, msgs))
    decreases |msgs|
  {
    if msgs != [] {
      CornerRelayPredecessor(r, msgs[..|msgs| - 1]);
    }
  }

  lemma {:induction false} SecondRelayPredecessor(r: Relay, msgs: seq<Message>)
    ensures SecondRelay(r, msgs) == r || RecordsPredecessor(SecondRelay(r, msgs))
    decreases |msgs|
  {
    if msgs != [] {
      SecondRelayPredecessor(r, msgs[..|msgs| - 1]);
    }
  }

  /**
   * Away from the origin, a robot whose count `setRecDimension` sets keeps the
   * dictionary it came from, so `countMessage['count'] == count - 1`: the
   * hypothesis under which the perimeter mapping below is proved.
   */
  lemma RecDimensionRecordsPredecessor(r: Relay, role: Role, position: Option<Pos>, roles: seq<RoleEntry>, msgs: seq<Message>)
    requires position != Some(Pos(1, 1))
    ensures RecDimension(r, role, position, roles, msgs) == r || RecordsPredecessor(RecDimension(r, role, position, roles, msgs))
  {
    BorderRelayPredecessor(r, roles, msgs);
    CornerRelayPredecessor(r, msgs);
    SecondRelayPredecessor(r, msgs);
  }

  /** Once a robot other than the origin has a count, `setRecDimension` changes nothing. */
  lemma RecDimensionCountSticky(r: Relay, role: Role, position: Option<Pos>, roles: seq<RoleEntry>, msgs: seq<Message>)
    requires r.count != 0 && position != Some(Pos(1, 1))
    ensures RecDimension(r, role, position, roles, msgs) == r
  {
  }

  // ---------------------------------------------------------------------
  // SR2b phase 2: perimeter index to rectangle coordinate
  // ---------------------------------------------------------------------

  /**
   * routines.py:236-243. `prevCount` is `countMessage['count']`, which the
   * first side test reads in place of `count`.
   */
  function PerimeterPosition(prevCount: int, count: int, t: Tally): Pos
  {
    if prevCount < t.c1 then Pos(count, 1)
    else if t.c1 < count <= t.c2 then Pos(t.c1, count - t.c1 + 1)
    else if t.c2 < count <= t.c3 then Pos(t.c1 - (count - t.c2), t.c2 - t.c1 + 1)
    else Pos(1, (t.c2 - t.c1 + 1) - (count - t.c3))
  }

  /**
   * Thresholds of a walk around a `c1` by `c2 - c1 + 1` rectangle starting at
   * [1,1]: the three corners after the origin are met at counts c1, c2, c3.
   */
  predicate RectangleThresholds(t: Tally)
  {
    2 <= t.c1 < t.c2 && t.c3 == t.c2 + t.c1 - 1
  }

  /** The number of cells on the perimeter of that rectangle. */
  function PerimeterLength(t: Tally): int
  {
    2 * t.c1 + 2 * (t.c2 - t.c1 + 1) - 4
  }

  predicate OnBoundary(p: Pos, t: Tally)
  {
    1 <= p.x <= t.c1 && 1 <= p.y <= t.c2 - t.c1 + 1
    && (p.x == 1 || p.x == t.c1 || p.y == 1 || p.y == t.c2 - t.c1 + 1)
  }

  /**
   * For a robot whose count came from a neighbour (so `prevCount == count - 1`),
   * every count along the perimeter maps onto a boundary cell of the rectangle.
   */
  lemma PerimeterOnBoundary(count: int, t: Tally)
    requires RectangleThresholds(t) && 1 <= count <= PerimeterLength(t)
    ensures OnBoundary(PerimeterPosition(count - 1, count, t), t)
  {
  }

  /** Different perimeter counts map to different cells. */
  lemma PerimeterInjective(a: int, b: int, t: Tally)
    requires RectangleThresholds(t) && 1 <= a <= PerimeterLength(t) && 1 <= b <= PerimeterLength(t)
    requires PerimeterPosition(a - 1, a, t) == PerimeterPosition(b - 1, b, t)
    ensures a == b
  {
  }

  /** The walk starts at the origin, passes [2,1] and ends at [1,2], matching the origin's hand-out. */
  lemma PerimeterEnds(t: Tally)
    requires RectangleThresholds(t)
    ensures PerimeterPosition(0, 1, t) == Pos(1, 1)
    ensures PerimeterPosition(1, 2, t) == Pos(2, 1)
    ensures PerimeterPosition(PerimeterLength(t) - 1, PerimeterLength(t), t) == Pos(1, 2)
  {
  }

  /**
   * Because the first test reads `countMessage['count']`, a robot whose count
   * never arrived (count 0, initial dictionary) is placed at column 0.
   */
  lemma UncountedRobotAtColumnZero(t: Tally)
    requires t.c1 > 0
    ensures PerimeterPosition(InitialTally.count, 0, t) == Pos(0, 1)
  {
  }

  /** `countMessage`, `countFullMessage` and `position`, the fields `set_relative_position` updates. */
  datatype Summary = Summary(countMessage: Tally, full: Option<Tally>, position: Option<Pos>)

  predicate IsFullCount(m: Message)
  {
    m.content.Counting? && m.content.tally.check
  }

  /** routines.py:224-227: adopt every full summary heard. */
  function AdoptSummary(full: Option<Tally>, msgs: seq<Message>): Option<Tally>
    decreases |msgs|
  {
    if msgs == [] then full
    else
      var m := msgs[|msgs| - 1];
      if IsFullCount(m) then Some(m.content.tally) else AdoptSummary(full, msgs[..|msgs| - 1])
  }

  /**
   * The last full summary heard is the one kept; with none heard the summary
   * held before stays.
   */
  lemma {:induction false} AdoptSummarySpec(full: Option<Tally>, msgs: seq<Message>)
    ensures (forall i :: 0 <= i < |msgs| ==> !IsFullCount(msgs[i])) ==> AdoptSummary(full, msgs) == full
    ensures forall i :: IsLastWhere(msgs, i, IsFullCount) ==> AdoptSummary(full, msgs) == Some(msgs[i].content.tally)
    decreases |msgs|
  {
    if msgs != [] {
      var n := |msgs| - 1;
      var pre := msgs[..n];
      AdoptSummarySpec(full, pre);
      if IsFullCount(msgs[n]) {
        assert AdoptSummary(full, msgs) == Some(msgs[n].content.tally);
        forall i | IsLastWhere(msgs, i, IsFullCount)
          ensures i == n
        {
        }
      } else {
        assert AdoptSummary(full, msgs) == AdoptSummary(full, pre);
        forall i | IsLastWhere(msgs, i, IsFullCount)
          ensures IsLastWhere(pre, i, IsFullCount) && pre[i] == msgs[i]
        {
          LastOfPrefix(msgs, i, IsFullCount);
        }
        if forall i :: 0 <= i < |msgs| ==> !IsFullCount(msgs[i]) {
          assert forall i :: 0 <= i < n ==> !IsFullCount(pre[i]) by {
            forall i | 0 <= i < n ensures !IsFullCount(pre[i]) {
              assert pre[i] == msgs[i];
            }
          }
        }
      }
    }
  }

  /** routines.py:232-243: every count dictionary heard replaces the summary and re-derives the position. */
  function PlaceOnPerimeter(s: Summary, count: int, msgs: seq<Message>): Summary
    decreases |msgs|
  {
    if msgs == [] then s
    else
      var d := PlaceOnPerimeter(s, count, msgs[..|msgs| - 1]);
      var m := msgs[|msgs| - 1];
      if IsCounting(m)
      then d.(full := Some(m.content.tally), position := Some(PerimeterPosition(s.countMessage.count, count, m.content.tally)))
      else d
  }

  /** The fields after `set_relative_position`. */
  function RelativePosition(s: Summary, role: Role, count: int, msgs: seq<Message>): Summary
  {
    var s1 :=
      if s.position == Some(Pos(1, 1)) && s.full.None? then
        var cm := s.countMessage.(check := true);
        s.(countMessage := cm, full := Some(cm))
      else s.(full := AdoptSummary(s.full, msgs));
    if s1.position.None? && (role == Border || role == Corner) && s1.full.Some?
    then PlaceOnPerimeter(s1, count, msgs)
    else s1
  }

  lemma {:induction false} PlaceOnPerimeterSpec(s: Summary, count: int, msgs: seq<Message>)
    ensures PlaceOnPerimeter(s, count, msgs).countMessage == s.countMessage
    ensures (forall i :: 0 <= i < |msgs| ==> !IsCounting(msgs[i])) ==> PlaceOnPerimeter(s, count, msgs) == s
    ensures forall i :: IsLastWhere(msgs, i, IsCounting) ==>
              PlaceOnPerimeter(s, count, msgs).position == Some(PerimeterPosition(s.countMessage.count, count, msgs[i].content.tally))
              && PlaceOnPerimeter(s, count, msgs).full == Some(msgs[i].content.tally)
    decreases |msgs|
  {
    if msgs != [] {
      var n := |msgs| - 1;
      var pre := msgs[..n];
      var d := PlaceOnPerimeter(s, count, pre);
      PlaceOnPerimeterSpec(s, count, pre);
      if IsCounting(msgs[n]) {
        assert PlaceOnPerimeter(s, count, msgs) == d.(full := Some(msgs[n].content.tally), position := Some(PerimeterPosition(s.countMessage.count, count, msgs[n].content.tally)));
        forall i | IsLastWhere(msgs, i, IsCounting)
          ensures i == n
        {
        }
      } else {
        assert PlaceOnPerimeter(s, count, msgs) == d;
        forall i | IsLastWhere(msgs, i, IsCounting)
          ensures IsLastWhere(pre, i, IsCounting) && pre[i] == msgs[i]
        {
          LastOfPrefix(msgs, i, IsCounting);
        }
      }
    }
  }

  /**
   * A known position is never changed; a BORDER or CORNER without one that holds
   * a summary takes the perimeter cell given by the last count dictionary heard.
   */
  lemma RelativePositionSpec(s: Summary, role: Role, count: int, msgs: seq<Message>)
    ensures s.position.Some? ==> RelativePosition(s, role, count, msgs).position == s.position
    ensures s.position.None? && (role == Border || role == Corner) && AdoptSummary(s.full, msgs).Some? ==>
              forall i :: IsLastWhere(msgs, i, IsCounting) ==>
                RelativePosition(s, role, count, msgs).position == Some(PerimeterPosition(s.countMessage.count, count, msgs[i].content.tally))
    ensures !(role == Border || role == Corner) ==> RelativePosition(s, role, count, msgs).position == s.position
  {
    if s.position.None? {
      PlaceOnPerimeterSpec(s.(full := AdoptSummary(s.full, msgs)), count, msgs);
    }
  }

  // ---------------------------------------------------------------------
  // SR2c: positions heard by an interior robot
  // ---------------------------------------------------------------------

  /** routines.py:257-259: the position lists heard, in order. */
  function PositionsHeard(msgs: seq<Message>): seq<Pos>
    decreases |msgs|
  {
    if msgs == [] then []
    else
      var m := msgs[|msgs| - 1];
      PositionsHeard(msgs[..|msgs| - 1]) + (if Truthy(m.content) && m.content.Coordinates? then [m.content.pos] else [])
  }

  /** Exactly the positions carried by the messages are collected. */
  lemma {:induction false} PositionsHeardSpec(msgs: seq<Message>)
    ensures forall p :: p in PositionsHeard(msgs) <==> exists i :: 0 <= i < |msgs| && msgs[i].content == Coordinates(p)
    ensures |PositionsHeard(msgs)| <= |msgs|
    decreases |msgs|
  {
    if msgs != [] {
      var n := |msgs| - 1;
      PositionsHeardSpec(msgs[..n]);
      assert forall i :: 0 <= i < n ==> msgs[..n][i] == msgs[i];
    }
  }
}
