/**
 * The value-level pieces of agent.py: the neighbour filter, the sorted set of
 * coordinates and the run search of `check_position`, the origin's hand-out
 * plan, the corner's threshold sealing and the corner lookup of the SR2b
 * broadcast. The `Kilobot` class (module Agent) runs the loops; these
 * definitions are what those loops are proved against.
 */
module AgentHelpers {
  import opened Types
  import RoutinesR1

  // ---------------------------------------------------------------------
  // filter_neighbors_message
  // ---------------------------------------------------------------------

  /** The messages of `inbox` whose sender is in `ids`, in order (agent.py:188-194). */
  function NeighborMessages(inbox: seq<Message>, ids: seq<int>): seq<Message>
    decreases |inbox|
  {
    if inbox == [] then []
    else
      var m := inbox[|inbox| - 1];
      NeighborMessages(inbox[..|inbox| - 1], ids) + (if m.senderId in ids then [m] else [])
  }

  /** The filter keeps exactly the messages from listed neighbours, and never adds one. */
  lemma {:induction false} NeighborMessagesSpec(inbox: seq<Message>, ids: seq<int>)
    ensures forall m :: m in NeighborMessages(inbox, ids) <==> m in inbox && m.senderId in ids
    ensures |NeighborMessages(inbox, ids)| <= |inbox|
    ensures (forall i :: 0 <= i < |inbox| ==> inbox[i].senderId in ids) ==> NeighborMessages(inbox, ids) == inbox
    decreases |inbox|
  {
    if inbox != [] {
      var n := |inbox| - 1;
      NeighborMessagesSpec(inbox[..n], ids);
      assert inbox == inbox[..n] + [inbox[n]];
      assert forall i :: 0 <= i < n ==> inbox[..n][i] == inbox[i];
    }
  }

  /**
   * The filter keeps inbox order and multiplicity: filtering two inboxes joined is
   * joining their filtered parts.
   */
  lemma {:induction false} NeighborMessagesAppend(xs: seq<Message>, ys: seq<Message>, ids: seq<int>)
    ensures NeighborMessages(xs + ys, ids) == NeighborMessages(xs, ids) + NeighborMessages(ys, ids)
    decreases |ys|
  {
    if ys == [] {
      assert xs + ys == xs;
    } else {
      var n := |ys| - 1;
      NeighborMessagesAppend(xs, ys[..n], ids);
      assert (xs + ys)[..|xs + ys| - 1] == xs + ys[..n];
      assert (xs + ys)[|xs + ys| - 1] == ys[n];
    }
  }

  // ---------------------------------------------------------------------
  // check_position: sorted(set(...)) and the search for three consecutive values
  // ---------------------------------------------------------------------

  predicate StrictlySorted(s: seq<int>)
  {
    forall i, j :: 0 <= i < j < |s| ==> s[i] < s[j]
  }

  function Insert(x: int, s: seq<int>): (r: seq<int>)
    requires StrictlySorted(s)
    ensures StrictlySorted(r)
    ensures forall y :: y in r <==> y == x || y in s
    decreases |s|
  {
    if s == [] then [x]
    else if x < s[0] then [x] + s
    else if x == s[0] then s
    else
      var t := Insert(x, s[1..]);
      assert forall y :: y in s <==> y == s[0] || y in s[1..];
      assert forall k :: 0 <= k < |t| ==> s[0] < t[k] by {
        forall k | 0 <= k < |t| ensures s[0] < t[k] {
          assert t[k] in t;
        }
      }
      [s[0]] + t
  }

  /** `sorted(set(s))`: the distinct values of `s` in increasing order. */
  function SortedSet(s: seq<int>): (r: seq<int>)
    ensures StrictlySorted(r)
    ensures forall y :: y in r <==> y in s
    decreases |s|
  {
    if s == [] then []
    else
      var r := Insert(s[|s| - 1], SortedSet(s[..|s| - 1]));
      assert forall y :: y in s <==> y == s[|s| - 1] || y in s[..|s| - 1];
      r
  }

  /** The first coordinates `p[0]` of the positions heard. */
  function Xs(ps: seq<Pos>): seq<int>
  {
    seq(|ps|, i requires 0 <= i < |ps| => ps[i].x)
  }

  /** The second coordinates `p[1]` of the positions heard. */
  function Ys(ps: seq<Pos>): seq<int>
  {
    seq(|ps|, i requires 0 <= i < |ps| => ps[i].y)
  }

  /** `m` is the middle of three consecutive values among `vals`, and not the sentinel -1. */
  ghost predicate IsRunMiddle(vals: seq<int>, m: int)
  {
    m - 1 in vals && m in vals && m + 1 in vals && m != -1
  }

  /** `m` is the least such middle: the one the scan of a sorted list stops at. */
  ghost predicate IsLeastRunMiddle(vals: seq<int>, m: int)
  {
    IsRunMiddle(vals, m) && forall k :: k < m ==> !IsRunMiddle(vals, k)
  }

  /** One coordinate of `auxPosition` after `check_position`: the least run middle, if any, else unchanged. */
  ghost predicate AxisResolved(before: int, vals: seq<int>, after: int)
  {
    IsLeastRunMiddle(vals, after) || ((forall k :: !IsRunMiddle(vals, k)) && after == before)
  }

  /** Runs depend only on which values occur, so `sorted(set(...))` has the same runs as the raw values. */
  lemma SameValuesSameRuns(a: seq<int>, b: seq<int>)
    requires forall y :: y in a <==> y in b
    ensures forall m :: IsRunMiddle(a, m) <==> IsRunMiddle(b, m)
    ensures forall m :: IsLeastRunMiddle(a, m) <==> IsLeastRunMiddle(b, m)
  {
  }

  /** The axis update is determined: there is only one outcome. */
  lemma AxisResolvedUnique(before: int, vals: seq<int>, a: int, b: int)
    requires AxisResolved(before, vals, a) && AxisResolved(before, vals, b)
    ensures a == b
  {
  }

  /** In a strictly sorted list, a successor value present must sit at the next index. */
  lemma SuccessorIsNext(xs: seq<int>, j: int, k: int)
    requires StrictlySorted(xs) && 0 <= j < |xs| && 0 <= k < |xs| && xs[k] == xs[j] + 1
    ensures k == j + 1
  {
    if j + 1 < |xs| {
      assert xs[j] < xs[j + 1];
    }
  }

  /** In a strictly sorted list, a run middle `m` is found as three adjacent entries. */
  lemma RunIsAdjacent(xs: seq<int>, m: int) returns (j: int)
    requires StrictlySorted(xs) && IsRunMiddle(xs, m)
    ensures 0 <= j && j + 2 < |xs| && xs[j] == m - 1 && xs[j + 1] == m && xs[j + 2] == m + 1
  {
    j :| 0 <= j < |xs| && xs[j] == m - 1;
    var k :| 0 <= k < |xs| && xs[k] == m;
    var l :| 0 <= l < |xs| && xs[l] == m + 1;
    SuccessorIsNext(xs, j, k);
    SuccessorIsNext(xs, k, l);
  }

  /** `xs[j]`, `xs[j+1]`, `xs[j+2]` are consecutive and the middle is not the sentinel. */
  predicate RunStartsAt(xs: seq<int>, j: int)
    requires 0 <= j && j + 2 < |xs|
  {
    xs[j + 1] == xs[j] + 1 && xs[j + 2] == xs[j] + 2 && xs[j + 1] != -1
  }

  /** If no run starts before index `i`, every run middle sits at some index from `i + 1` on. */
  lemma RunsFromIndex(xs: seq<int>, i: int)
    requires StrictlySorted(xs) && 0 <= i
    requires forall j :: 0 <= j < i && j + 2 < |xs| ==> !RunStartsAt(xs, j)
    ensures forall k :: IsRunMiddle(xs, k) ==> exists j :: i < j && j + 1 < |xs| && xs[j] == k
  {
    forall k | IsRunMiddle(xs, k) ensures exists j :: i < j && j + 1 < |xs| && xs[j] == k {
      var j := RunIsAdjacent(xs, k);
      assert RunStartsAt(xs, j);
      assert xs[j + 1] == k;
    }
  }

  /** The search of agent.py:171-175 (and 178-182) over a sorted, duplicate-free list. */
  method FindRunMiddle(xs: seq<int>) returns (found: Option<int>)
    requires StrictlySorted(xs)
    ensures found.Some? ==> IsLeastRunMiddle(xs, found.value)
    ensures found.None? ==> forall k :: !IsRunMiddle(xs, k)
  {
    found := None;
    var i := 0;
    while i < |xs| - 2
      invariant 0 <= i <= |xs|
      invariant forall j :: 0 <= j < i && j + 2 < |xs| ==> !RunStartsAt(xs, j)
    {
      if xs[i + 1] == xs[i] + 1 && xs[i + 2] == xs[i] + 2 && xs[i + 1] != -1 {
        found := Some(xs[i + 1]);
        RunsFromIndex(xs, i);
        assert RunStartsAt(xs, i);
        return;
      }
      i := i + 1;
    }
    RunsFromIndex(xs, i);
  }

  // ---------------------------------------------------------------------
  // SR2a phase 3: the origin's hand-out plan
  // ---------------------------------------------------------------------

  /** The ids of `roles` entries with role `r` whose id is a neighbour, in order (agent.py:243-247). */
  function IdsWithRole(roles: seq<RoleEntry>, ids: seq<int>, r: Role): seq<int>
    decreases |roles|
  {
    if roles == [] then []
    else
      var e := roles[|roles| - 1];
      IdsWithRole(roles[..|roles| - 1], ids, r) + (if e.id in ids && e.role == r then [e.id] else [])
  }

  /**
   * The positions the origin hands out (agent.py:249-256): nothing unless it
   * has two BORDER and one MIDDLE neighbour; then the lower of the first two
   * BORDER ids gets [2,1], the other [1,2], and the first MIDDLE id [2,2].
   */
  function OriginPlan(roles: seq<RoleEntry>, ids: seq<int>): Option<seq<Assignment>>
  {
    var b := IdsWithRole(roles, ids, Border);
    var m := IdsWithRole(roles, ids, Middle);
    if |b| < 2 || |m| < 1 then None
    else if b[0] > b[1] then Some([Assignment(b[1], Pos(2, 1)), Assignment(b[0], Pos(1, 2)), Assignment(m[0], Pos(2, 2))])
    else Some([Assignment(b[0], Pos(2, 1)), Assignment(b[1], Pos(1, 2)), Assignment(m[0], Pos(2, 2))])
  }

  /** Every id selected is a listed neighbour with that role, and (with distinct entries) none repeats. */
  lemma {:induction false} IdsWithRoleSpec(roles: seq<RoleEntry>, ids: seq<int>, r: Role)
    ensures forall x :: x in IdsWithRole(roles, ids, r) <==>
              x in ids && exists k :: 0 <= k < |roles| && roles[k].id == x && roles[k].role == r
    ensures RoutinesR1.RolesDistinct(roles) ==> Distinct(IdsWithRole(roles, ids, r))
    decreases |roles|
  {
    if roles != [] {
      var n := |roles| - 1;
      var pre := roles[..n];
      IdsWithRoleSpec(pre, ids, r);
      assert forall k :: 0 <= k < n ==> pre[k] == roles[k];
      var s := IdsWithRole(pre, ids, r);
      if RoutinesR1.RolesDistinct(roles) {
        assert RoutinesR1.RolesDistinct(pre);
        if roles[n].id in ids && roles[n].role == r {
          forall i | 0 <= i < |s| ensures s[i] != roles[n].id {
            assert s[i] in s;
          }
          assert IdsWithRole(roles, ids, r) == s + [roles[n].id];
        }
      }
    }
  }

  /** Entry `k` of `roles` is a neighbour with role `r`. */
  predicate Selected(roles: seq<RoleEntry>, ids: seq<int>, r: Role, k: int)
  {
    0 <= k < |roles| && roles[k].id in ids && roles[k].role == r
  }

  /** Entry `k` is the first selected one. */
  ghost predicate FirstSelected(roles: seq<RoleEntry>, ids: seq<int>, r: Role, k: int)
  {
    Selected(roles, ids, r, k) && forall l :: 0 <= l < k ==> !Selected(roles, ids, r, l)
  }

  /** Entries `k0` and `k1` are the first two selected ones. */
  ghost predicate FirstTwoSelected(roles: seq<RoleEntry>, ids: seq<int>, r: Role, k0: int, k1: int)
  {
    FirstSelected(roles, ids, r, k0) && k0 < k1 && Selected(roles, ids, r, k1)
    && forall l :: k0 < l < k1 ==> !Selected(roles, ids, r, l)
  }

  /** Selection keeps the order of `roles`: it distributes over concatenation. */
  lemma {:induction false} IdsWithRoleAppend(xs: seq<RoleEntry>, ys: seq<RoleEntry>, ids: seq<int>, r: Role)
    ensures IdsWithRole(xs + ys, ids, r) == IdsWithRole(xs, ids, r) + IdsWithRole(ys, ids, r)
    decreases |ys|
  {
    if ys == [] {
      assert xs + ys == xs;
    } else {
      var n := |ys| - 1;
      IdsWithRoleAppend(xs, ys[..n], ids, r);
      assert (xs + ys)[..|xs + ys| - 1] == xs + ys[..n];
      assert (xs + ys)[|xs + ys| - 1] == ys[n];
    }
  }

  /** A prefix without selected entries selects nothing. */
  lemma {:induction false} NoneSelected(roles: seq<RoleEntry>, ids: seq<int>, r: Role, k: int)
    requires 0 <= k <= |roles|
    requires forall l :: 0 <= l < k ==> !Selected(roles, ids, r, l)
    ensures IdsWithRole(roles[..k], ids, r) == []
    decreases k
  {
    if k > 0 {
      NoneSelected(roles, ids, r, k - 1);
      assert roles[..k][..k - 1] == roles[..k - 1];
      assert !Selected(roles, ids, r, k - 1);
    }
  }

  /** The first selected entry gives the first id, through the entry itself. */
  lemma FirstSelectedPrefix(roles: seq<RoleEntry>, ids: seq<int>, r: Role, k: int)
    requires FirstSelected(roles, ids, r, k)
    ensures IdsWithRole(roles[..k + 1], ids, r) == [roles[k].id]
  {
    NoneSelected(roles, ids, r, k);
    assert roles[..k + 1][..k] == roles[..k];
  }

  /** The first selected entry gives the first id, the second the second. */
  lemma FirstSelectedLeads(roles: seq<RoleEntry>, ids: seq<int>, r: Role, k: int)
    requires FirstSelected(roles, ids, r, k)
    ensures |IdsWithRole(roles, ids, r)| >= 1 && IdsWithRole(roles, ids, r)[0] == roles[k].id
  {
    FirstSelectedPrefix(roles, ids, r, k);
    IdsWithRoleAppend(roles[..k + 1], roles[k + 1..], ids, r);
    assert roles[..k + 1] + roles[k + 1..] == roles;
  }

  /** Up to the second selected entry, only the first is selected. */
  lemma SecondSelectedPrefix(roles: seq<RoleEntry>, ids: seq<int>, r: Role, k0: int, k1: int)
    requires FirstTwoSelected(roles, ids, r, k0, k1)
    ensures IdsWithRole(roles[..k1], ids, r) == [roles[k0].id]
  {
    FirstSelectedPrefix(roles, ids, r, k0);
    var gap := roles[k0 + 1..k1];
    forall l | 0 <= l < |gap| ensures !Selected(gap, ids, r, l) {
      assert gap[l] == roles[k0 + 1 + l];
      assert !Selected(roles, ids, r, k0 + 1 + l);
    }
    NoneSelected(gap, ids, r, |gap|);
    assert gap[..|gap|] == gap;
    IdsWithRoleAppend(roles[..k0 + 1], gap, ids, r);
    assert roles[..k0 + 1] + gap == roles[..k1];
  }

  lemma FirstTwoSelectedLead(roles: seq<RoleEntry>, ids: seq<int>, r: Role, k0: int, k1: int)
    requires FirstTwoSelected(roles, ids, r, k0, k1)
    ensures |IdsWithRole(roles, ids, r)| >= 2
    ensures IdsWithRole(roles, ids, r)[0] == roles[k0].id && IdsWithRole(roles, ids, r)[1] == roles[k1].id
  {
    SecondSelectedPrefix(roles, ids, r, k0, k1);
    var upTo := roles[..k1 + 1];
    assert upTo[..k1] == roles[..k1] && upTo[k1] == roles[k1];
    assert IdsWithRole(upTo, ids, r) == [roles[k0].id, roles[k1].id];
    IdsWithRoleAppend(upTo, roles[k1 + 1..], ids, r);
    assert upTo + roles[k1 + 1..] == roles;
  }

  /**
   * The plan exists exactly when there are two BORDER and one MIDDLE neighbours;
   * it hands out [2,1], [1,2], [2,2] in that order, [2,1] and [1,2] to the
   * first two BORDER ids listed (the lower one gets [2,1]), [2,2] to the first
   * MIDDLE id listed, only to neighbours with the matching role, and (with
   * distinct `neighbor_roles` ids) to three different robots.
   */
  lemma OriginPlanSpec(roles: seq<RoleEntry>, ids: seq<int>)
    ensures OriginPlan(roles, ids).Some? <==>
              |IdsWithRole(roles, ids, Border)| >= 2 && |IdsWithRole(roles, ids, Middle)| >= 1
    ensures OriginPlan(roles, ids).Some? ==>
              var p := OriginPlan(roles, ids).value;
              && |p| == 3
              && p[0].position == Pos(2, 1) && p[1].position == Pos(1, 2) && p[2].position == Pos(2, 2)
              && p[0].id <= p[1].id
              && {p[0].id, p[1].id} == {IdsWithRole(roles, ids, Border)[0], IdsWithRole(roles, ids, Border)[1]}
              && p[2].id == IdsWithRole(roles, ids, Middle)[0]
              && p[0].id in IdsWithRole(roles, ids, Border) && p[1].id in IdsWithRole(roles, ids, Border)
              && p[2].id in IdsWithRole(roles, ids, Middle)
    ensures OriginPlan(roles, ids).Some? && RoutinesR1.RolesDistinct(roles) ==>
              var p := OriginPlan(roles, ids).value;
              p[0].id != p[1].id && p[0].id != p[2].id && p[1].id != p[2].id
  {
    IdsWithRoleSpec(roles, ids, Border);
    IdsWithRoleSpec(roles, ids, Middle);
    var b := IdsWithRole(roles, ids, Border);
    var m := IdsWithRole(roles, ids, Middle);
    if |b| >= 2 && |m| >= 1 && RoutinesR1.RolesDistinct(roles) {
      assert b[0] in b && b[1] in b && m[0] in m;
      RoleListsDisjoint(roles, ids);
    }
  }

  /**
   * agent.py:243-256 in terms of `neighbor_roles` itself: [2,1] and [1,2] go
   * to the first two entries listing a BORDER neighbour, [2,2] to the first
   * listing a MIDDLE neighbour.
   */
  lemma OriginPlanFirstEntries(roles: seq<RoleEntry>, ids: seq<int>)
    ensures forall k0, k1, k :: FirstTwoSelected(roles, ids, Border, k0, k1) && FirstSelected(roles, ids, Middle, k) ==>
              && OriginPlan(roles, ids).Some?
              && {OriginPlan(roles, ids).value[0].id, OriginPlan(roles, ids).value[1].id} == {roles[k0].id, roles[k1].id}
              && OriginPlan(roles, ids).value[2].id == roles[k].id
  {
    forall k0, k1, k | FirstTwoSelected(roles, ids, Border, k0, k1) && FirstSelected(roles, ids, Middle, k)
      ensures && OriginPlan(roles, ids).Some?
              && {OriginPlan(roles, ids).value[0].id, OriginPlan(roles, ids).value[1].id} == {roles[k0].id, roles[k1].id}
              && OriginPlan(roles, ids).value[2].id == roles[k].id
    {
      FirstTwoSelectedLead(roles, ids, Border, k0, k1);
      FirstSelectedLeads(roles, ids, Middle, k);
    }
  }

  /** With distinct `neighbor_roles` ids, no id is listed both as BORDER and as MIDDLE. */
  lemma RoleListsDisjoint(roles: seq<RoleEntry>, ids: seq<int>)
    requires RoutinesR1.RolesDistinct(roles)
    ensures forall x :: x in IdsWithRole(roles, ids, Border) ==> x !in IdsWithRole(roles, ids, Middle)
  {
    IdsWithRoleSpec(roles, ids, Border);
    IdsWithRoleSpec(roles, ids, Middle);
    forall x | x in IdsWithRole(roles, ids, Border) ensures x !in IdsWithRole(roles, ids, Middle) {
      var k :| 0 <= k < |roles| && roles[k].id == x && roles[k].role == Border;
      assert forall l :: 0 <= l < |roles| && roles[l].id == x ==> l == k;
    }
  }

  // ---------------------------------------------------------------------
  // SR2b broadcast: the corner seals the thresholds; the border looks up a corner
  // ---------------------------------------------------------------------

  /** agent.py:286-291: the first unset threshold (in order C1, C2, C3) takes `count`, if it is new. */
  function SealThresholds(t: Tally, count: int): Tally
  {
    if t.c1 == 0 then t.(c1 := count)
    else if t.c2 == 0 && count != t.c1 then t.(c2 := count)
    else if t.c3 == 0 && count != t.c1 && count != t.c2 then t.(c3 := count)
    else t
  }

  /** How many thresholds differ between two dictionaries. */
  function ChangedThresholds(t: Tally, u: Tally): nat
  {
    (if t.c1 != u.c1 then 1 else 0) + (if t.c2 != u.c2 then 1 else 0) + (if t.c3 != u.c3 then 1 else 0)
  }

  /**
   * Sealing writes at most one threshold, only with `count`, never overwrites a
   * non-zero one, fills them in order, and touches nothing else; and the first
   * empty threshold is written whenever `count` differs from the earlier ones.
   */
  lemma SealThresholdsSpec(t: Tally, count: int)
    ensures ChangedThresholds(t, SealThresholds(t, count)) <= 1
    ensures var u := SealThresholds(t, count);
              u.count == t.count && u.cornerId == t.cornerId && u.check == t.check
    ensures var u := SealThresholds(t, count);
              (u.c1 != t.c1 ==> t.c1 == 0 && u.c1 == count)
              && (u.c2 != t.c2 ==> t.c2 == 0 && t.c1 != 0 && u.c2 == count)
              && (u.c3 != t.c3 ==> t.c3 == 0 && t.c1 != 0 && t.c2 != 0 && u.c3 == count)
    ensures var u := SealThresholds(t, count);
              u.c2 != t.c2 || u.c3 != t.c3 ==> count != t.c1
    ensures var u := SealThresholds(t, count);
              u.c3 != t.c3 ==> count != t.c2
    ensures t.c1 == 0 ==> SealThresholds(t, count).c1 == count
    ensures t.c1 != 0 && t.c2 == 0 && count != t.c1 ==> SealThresholds(t, count).c2 == count
    ensures t.c1 != 0 && t.c2 != 0 && t.c3 == 0 && count != t.c1 && count != t.c2 ==>
              SealThresholds(t, count).c3 == count
  {
  }

  /** A corner that keeps its count seals nothing new on the next tick. */
  lemma SealThresholdsIdempotent(t: Tally, count: int)
    requires count != 0
    ensures SealThresholds(SealThresholds(t, count), count) == SealThresholds(t, count)
  {
  }

  /** Thresholds sealed by three corners with rising counts come out in increasing order. */
  lemma SealThresholdsAscending(t: Tally, a: int, b: int, c: int)
    requires t.c1 == 0 && t.c2 == 0 && t.c3 == 0 && 0 < a < b < c
    ensures var u := SealThresholds(SealThresholds(SealThresholds(t, a), b), c);
              u.c1 == a && u.c2 == b && u.c3 == c
  {
  }

  /** The id of the last CORNER entry of `neighbor_roles`, if any (agent.py:306-311). */
  function LastCornerId(roles: seq<RoleEntry>): Option<int>
    decreases |roles|
  {
    if roles == [] then None
    else if roles[|roles| - 1].role == Corner then Some(roles[|roles| - 1].id)
    else LastCornerId(roles[..|roles| - 1])
  }

  /** The lookup finds a corner exactly when one is listed, and returns the last one. */
  lemma {:induction false} LastCornerIdSpec(roles: seq<RoleEntry>)
    ensures LastCornerId(roles).None? <==> forall k :: 0 <= k < |roles| ==> roles[k].role != Corner
    ensures LastCornerId(roles).Some? ==>
              exists k :: 0 <= k < |roles| && roles[k] == RoleEntry(LastCornerId(roles).value, Corner)
                          && forall j :: k < j < |roles| ==> roles[j].role != Corner
    decreases |roles|
  {
    if roles != [] {
      var n := |roles| - 1;
      var pre := roles[..n];
      LastCornerIdSpec(pre);
      if roles[n].role != Corner {
        assert LastCornerId(roles) == LastCornerId(pre);
        if LastCornerId(pre).None? {
          forall k | 0 <= k < |roles|
            ensures roles[k].role != Corner
          {
            if k < n {
              assert pre[k] == roles[k];
            }
          }
        } else {
          var k :| 0 <= k < n && pre[k] == RoleEntry(LastCornerId(pre).value, Corner)
                   && forall j :: k < j < n ==> pre[j].role != Corner;
          assert roles[k] == pre[k];
          forall j | k < j < |roles|
            ensures roles[j].role != Corner
          {
            if j < n {
              assert pre[j] == roles[j];
            }
          }
        }
      }
    }
  }
}
