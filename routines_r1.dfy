/**
 * Routine R1 (routines.py, class RoutineR1): identity resolution, neighbour
 * discovery and role classification. Each handler walks the inbox in order;
 * its effect is given here as a fold over the messages (the value after
 * the last message), and the lemmas state what the source promises of it.
 */
module RoutinesR1 {
  import opened Types

  // ---------------------------------------------------------------------
  // SR1a: identity assignment and minimum distance
  // ---------------------------------------------------------------------

  /** The fields `run_sr1a` updates. */
  datatype IdView = IdView(myId: int, known: seq<IdRandom>, blacklist: seq<int>, minDist: real)

  /**
   * `draw(bl)` stands for the redraw loop at routines.py:25-27 run against the
   * blacklist `bl`: an id in 1..255 that is not in `bl`, as long as `bl` leaves
   * one free (with all 255 ids blacklisted the source's loop never ends).
   */
  ghost predicate DrawOk(draw: seq<int> -> int)
  {
    forall bl: seq<int> :: 1 <= draw(bl) <= MaxId && (|bl| < MaxId ==> draw(bl) !in bl)
  }

  /** Identity invariant: the id is in range, and it is fresh while the blacklist leaves room. */
  ghost predicate IdsValid(v: IdView)
  {
    && 1 <= v.myId <= MaxId
    && (forall i :: 0 <= i < |v.blacklist| ==> 1 <= v.blacklist[i] <= MaxId)
    && (|v.blacklist| < MaxId ==> v.myId !in v.blacklist && Distinct(v.blacklist))
  }

  predicate Knows(known: seq<IdRandom>, id: int)
  {
    exists i :: 0 <= i < |known| && known[i].id == id
  }

  predicate KnownDistinct(known: seq<IdRandom>)
  {
    forall i, j :: 0 <= i < j < |known| ==> known[i].id != known[j].id
  }

  /** A peer that uses my id with a different tie-break number. */
  predicate Collides(p: IdRandom, myId: int, myRandom: int)
  {
    p.id == myId && p.randomNumber != myRandom
  }

  /** A heard message that reveals a collision with `myId`, directly or through the sender's peer list. */
  predicate MessageCollides(m: Message, myId: int, myRandom: int)
  {
    match m.content
    case Announce(sid, rn, peers) =>
      Collides(IdRandom(sid, rn), myId, myRandom)
      || exists i :: 0 <= i < |peers| && Collides(peers[i], myId, myRandom)
    case _ => false
  }

  /** Blacklist the current id and take a new one. */
  function Redraw(v: IdView, draw: seq<int> -> int): IdView
  {
    var bl := v.blacklist + [v.myId];
    v.(myId := draw(bl), blacklist := bl)
  }

  /** The scan of the sender's `neighbors` list (routines.py:31-38). */
  function ScanPeers(v: IdView, myRandom: int, peers: seq<IdRandom>, draw: seq<int> -> int): (w: IdView)
    ensures w.known == v.known && w.minDist == v.minDist
    ensures v.blacklist <= w.blacklist
    decreases |peers|
  {
    if peers == [] then v
    else
      var u := ScanPeers(v, myRandom, peers[..|peers| - 1], draw);
      if Collides(peers[|peers| - 1], u.myId, myRandom) then Redraw(u, draw) else u
  }

  /** Record a sender in `neighbor_ids_randomNum` unless its id is already there. */
  function Learn(known: seq<IdRandom>, id: int, rn: int): seq<IdRandom>
  {
    if Knows(known, id) then known else known + [IdRandom(id, rn)]
  }

  /** One iteration of the loop of `run_sr1a` (routines.py:13-43). */
  function AnnounceStep(v: IdView, myRandom: int, m: Message, draw: seq<int> -> int): (w: IdView)
    ensures v.blacklist <= w.blacklist && v.known <= w.known
  {
    var u :=
      match m.content
      case Announce(sid, rn, peers) =>
        var v1 := v.(known := Learn(v.known, sid, rn));
        if sid == v1.myId && rn != myRandom then Redraw(v1, draw)
        else ScanPeers(v1, myRandom, peers, draw)
      case _ => v;
    if m.dist < u.minDist then u.(minDist := m.dist) else u
  }

  /** The fields after `run_sr1a` has processed `msgs`. */
  function Sr1a(v: IdView, myRandom: int, msgs: seq<Message>, draw: seq<int> -> int): IdView
    decreases |msgs|
  {
    if msgs == [] then v
    else AnnounceStep(Sr1a(v, myRandom, msgs[..|msgs| - 1], draw), myRandom, msgs[|msgs| - 1], draw)
  }

  /** `min_dist_seen` becomes the minimum of its old value and every distance heard. */
  lemma {:induction false} Sr1aMinDist(v: IdView, myRandom: int, msgs: seq<Message>, draw: seq<int> -> int)
    ensures Sr1a(v, myRandom, msgs, draw).minDist <= v.minDist
    ensures forall i :: 0 <= i < |msgs| ==> Sr1a(v, myRandom, msgs, draw).minDist <= msgs[i].dist
    ensures Sr1a(v, myRandom, msgs, draw).minDist == v.minDist
         || exists i :: 0 <= i < |msgs| && Sr1a(v, myRandom, msgs, draw).minDist == msgs[i].dist
    decreases |msgs|
  {
    if msgs != [] {
      var n := |msgs| - 1;
      var pre := msgs[..n];
      Sr1aMinDist(v, myRandom, pre, draw);
      var u := Sr1a(v, myRandom, pre, draw);
      var w := AnnounceStep(u, myRandom, msgs[n], draw);
      assert w.minDist == if msgs[n].dist < u.minDist then msgs[n].dist else u.minDist;
      assert forall i :: 0 <= i < n ==> pre[i] == msgs[i];
    }
  }

  /** The blacklist and the known-peer list only grow: earlier entries are kept in place. */
  lemma {:induction false} Sr1aGrows(v: IdView, myRandom: int, msgs: seq<Message>, draw: seq<int> -> int)
    ensures v.blacklist <= Sr1a(v, myRandom, msgs, draw).blacklist
    ensures v.known <= Sr1a(v, myRandom, msgs, draw).known
    decreases |msgs|
  {
    if msgs != [] {
      Sr1aGrows(v, myRandom, msgs[..|msgs| - 1], draw);
    }
  }

  /** A redraw blacklists the old id and, while the blacklist leaves room, takes an id outside it. */
  lemma RedrawKeepsIdsValid(v: IdView, draw: seq<int> -> int)
    requires IdsValid(v) && DrawOk(draw)
    ensures IdsValid(Redraw(v, draw))
    ensures Redraw(v, draw).blacklist == v.blacklist + [v.myId]
    ensures |v.blacklist| + 1 < MaxId ==> Redraw(v, draw).myId != v.myId
  {
    var w := Redraw(v, draw);
    if |w.blacklist| < MaxId {
      assert v.myId !in v.blacklist && Distinct(v.blacklist);
      assert Distinct(w.blacklist) by {
        forall i, j | 0 <= i < j < |w.blacklist| ensures w.blacklist[i] != w.blacklist[j] {
          if j == |v.blacklist| {
            assert w.blacklist[i] == v.blacklist[i];
          }
        }
      }
    }
  }

  lemma {:induction false} ScanPeersKeepsIdsValid(v: IdView, myRandom: int, peers: seq<IdRandom>, draw: seq<int> -> int)
    requires IdsValid(v) && DrawOk(draw)
    ensures IdsValid(ScanPeers(v, myRandom, peers, draw))
    decreases |peers|
  {
    if peers != [] {
      ScanPeersKeepsIdsValid(v, myRandom, peers[..|peers| - 1], draw);
      RedrawKeepsIdsValid(ScanPeers(v, myRandom, peers[..|peers| - 1], draw), draw);
    }
  }

  /** `run_sr1a` keeps the identity invariant. */
  lemma {:induction false} Sr1aKeepsIdsValid(v: IdView, myRandom: int, msgs: seq<Message>, draw: seq<int> -> int)
    requires IdsValid(v) && DrawOk(draw)
    ensures IdsValid(Sr1a(v, myRandom, msgs, draw))
    decreases |msgs|
  {
    if msgs != [] {
      var u := Sr1a(v, myRandom, msgs[..|msgs| - 1], draw);
      Sr1aKeepsIdsValid(v, myRandom, msgs[..|msgs| - 1], draw);
      match msgs[|msgs| - 1].content
      case Announce(sid, rn, peers) =>
        var v1 := u.(known := Learn(u.known, sid, rn));
        RedrawKeepsIdsValid(v1, draw);
        ScanPeersKeepsIdsValid(v1, myRandom, peers, draw);
      case _ =>
    }
  }

  /** `neighbor_ids_randomNum` lists every sender heard, once per id. */
  lemma {:induction false} Sr1aLearnsSenders(v: IdView, myRandom: int, msgs: seq<Message>, draw: seq<int> -> int)
    requires KnownDistinct(v.known)
    ensures KnownDistinct(Sr1a(v, myRandom, msgs, draw).known)
    ensures forall i :: 0 <= i < |msgs| && msgs[i].content.Announce? ==>
              Knows(Sr1a(v, myRandom, msgs, draw).known, msgs[i].content.senderId)
    decreases |msgs|
  {
    if msgs != [] {
      var n := |msgs| - 1;
      var pre := msgs[..n];
      Sr1aLearnsSenders(v, myRandom, pre, draw);
      var u := Sr1a(v, myRandom, pre, draw);
      var w := AnnounceStep(u, myRandom, msgs[n], draw);
      assert u.known <= w.known;
      forall i | 0 <= i < |msgs| && msgs[i].content.Announce?
        ensures Knows(w.known, msgs[i].content.senderId)
      {
        if i < n {
          assert pre[i] == msgs[i];
          var k :| 0 <= k < |u.known| && u.known[k].id == msgs[i].content.senderId;
          assert w.known[k] == u.known[k];
        } else {
          var c := msgs[n].content;
          var known := Learn(u.known, c.senderId, c.randomNumber);
          if !Knows(u.known, c.senderId) {
            assert known[|u.known|].id == c.senderId;
          }
          assert w.known == known;
        }
      }
    }
  }

  /** The peer-list scan redraws exactly when some listed peer collides with the id I had. */
  lemma {:induction false} ScanPeersRedrawsIff(v: IdView, myRandom: int, peers: seq<IdRandom>, draw: seq<int> -> int)
    ensures (forall i :: 0 <= i < |peers| ==> !Collides(peers[i], v.myId, myRandom))
              ==> ScanPeers(v, myRandom, peers, draw) == v
    ensures (exists i :: 0 <= i < |peers| && Collides(peers[i], v.myId, myRandom))
              ==> |ScanPeers(v, myRandom, peers, draw).blacklist| > |v.blacklist|
    decreases |peers|
  {
    if peers != [] {
      var n := |peers| - 1;
      var pre := peers[..n];
      ScanPeersRedrawsIff(v, myRandom, pre, draw);
      var u := ScanPeers(v, myRandom, pre, draw);
      assert forall i :: 0 <= i < n ==> pre[i] == peers[i];
      if exists i :: 0 <= i < |peers| && Collides(peers[i], v.myId, myRandom) {
        var i :| 0 <= i < |peers| && Collides(peers[i], v.myId, myRandom);
        if i < n {
          assert Collides(pre[i], v.myId, myRandom);
        } else if u != v {
          assert exists j :: 0 <= j < n && Collides(pre[j], v.myId, myRandom);
        }
      }
    }
  }

  /** One message changes my id and blacklist exactly when it reveals a collision with my id. */
  lemma MessageRedrawsIff(v: IdView, myRandom: int, m: Message, draw: seq<int> -> int)
    ensures !MessageCollides(m, v.myId, myRandom) ==>
              AnnounceStep(v, myRandom, m, draw).myId == v.myId
              && AnnounceStep(v, myRandom, m, draw).blacklist == v.blacklist
    ensures MessageCollides(m, v.myId, myRandom) ==>
              |AnnounceStep(v, myRandom, m, draw).blacklist| > |v.blacklist|
  {
    match m.content
    case Announce(sid, rn, peers) =>
      var v1 := v.(known := Learn(v.known, sid, rn));
      ScanPeersRedrawsIff(v1, myRandom, peers, draw);
    case _ =>
  }

  /**
   * `run_sr1a` leaves the id and the blacklist alone exactly when no heard
   * message, directly or through its peer list, uses my id with another number.
   */
  lemma {:induction false} Sr1aRedrawsIff(v: IdView, myRandom: int, msgs: seq<Message>, draw: seq<int> -> int)
    ensures (forall i :: 0 <= i < |msgs| ==> !MessageCollides(msgs[i], v.myId, myRandom)) ==>
              Sr1a(v, myRandom, msgs, draw).myId == v.myId && Sr1a(v, myRandom, msgs, draw).blacklist == v.blacklist
    ensures (exists i :: 0 <= i < |msgs| && MessageCollides(msgs[i], v.myId, myRandom)) ==>
              |Sr1a(v, myRandom, msgs, draw).blacklist| > |v.blacklist|
    decreases |msgs|
  {
    if msgs != [] {
      var n := |msgs| - 1;
      var pre := msgs[..n];
      Sr1aRedrawsIff(v, myRandom, pre, draw);
      var u := Sr1a(v, myRandom, pre, draw);
      MessageRedrawsIff(u, myRandom, msgs[n], draw);
      assert forall i :: 0 <= i < n ==> pre[i] == msgs[i];
      if exists i :: 0 <= i < |msgs| && MessageCollides(msgs[i], v.myId, myRandom) {
        var i :| 0 <= i < |msgs| && MessageCollides(msgs[i], v.myId, myRandom);
        if i < n {
          assert MessageCollides(pre[i], v.myId, myRandom);
        } else if u.blacklist != v.blacklist || u.myId != v.myId {
          Sr1aGrows(v, myRandom, pre, draw);
          assert exists j :: 0 <= j < n && MessageCollides(pre[j], v.myId, myRandom);
        }
      }
    }
  }

  /** A direct collision blacklists exactly the old id and, with room left, yields a different id. */
  lemma DirectCollisionRedraws(v: IdView, myRandom: int, m: Message, draw: seq<int> -> int)
    requires IdsValid(v) && DrawOk(draw)
    requires m.content.Announce? && Collides(IdRandom(m.content.senderId, m.content.randomNumber), v.myId, myRandom)
    ensures AnnounceStep(v, myRandom, m, draw).blacklist == v.blacklist + [v.myId]
    ensures |v.blacklist| + 1 < MaxId ==>
              AnnounceStep(v, myRandom, m, draw).myId !in v.blacklist + [v.myId]
  {
  }

  // ---------------------------------------------------------------------
  // SR1b: neighbour list from the distance threshold
  // ---------------------------------------------------------------------

  /** `threshold_r = min_dist_seen * 1.5 + 0.1` (routines.py:54). */
  function Threshold(minDist: real): real
  {
    minDist * 1.5 + 0.1
  }

  /** A message whose sender SR1b accepts: close enough, with an id (not a dictionary) as content. */
  predicate AcceptedId(m: Message, threshold: real)
  {
    m.dist <= threshold && m.content.Number?
  }

  /** `neighbor_ids` after `run_sr1b` has processed `msgs` (routines.py:57-62). */
  function Sr1b(ids: seq<int>, threshold: real, msgs: seq<Message>): seq<int>
    decreases |msgs|
  {
    if msgs == [] then ids
    else
      var r := Sr1b(ids, threshold, msgs[..|msgs| - 1]);
      var m := msgs[|msgs| - 1];
      if AcceptedId(m, threshold) && m.content.n !in r then r + [m.content.n] else r
  }

  /**
   * SR1b keeps every existing entry in place, adds exactly the ids of accepted
   * messages, and never duplicates an id.
   */
  lemma {:induction false} Sr1bSpec(ids: seq<int>, threshold: real, msgs: seq<Message>)
    ensures ids <= Sr1b(ids, threshold, msgs)
    ensures Distinct(ids) ==> Distinct(Sr1b(ids, threshold, msgs))
    ensures forall x :: x in Sr1b(ids, threshold, msgs) <==>
              x in ids || exists i :: 0 <= i < |msgs| && AcceptedId(msgs[i], threshold) && msgs[i].content.n == x
    decreases |msgs|
  {
    if msgs != [] {
      var n := |msgs| - 1;
      var pre := msgs[..n];
      Sr1bSpec(ids, threshold, pre);
      assert forall i :: 0 <= i < n ==> pre[i] == msgs[i];
      var r := Sr1b(ids, threshold, pre);
      forall x | x in Sr1b(ids, threshold, msgs)
        ensures x in ids || exists i :: 0 <= i < |msgs| && AcceptedId(msgs[i], threshold) && msgs[i].content.n == x
      {
        if x !in r {
          assert AcceptedId(msgs[n], threshold) && msgs[n].content.n == x;
        }
      }
    }
  }

  // ---------------------------------------------------------------------
  // SR1c: neighbour counts, role decision and neighbour roles
  // ---------------------------------------------------------------------

  /** Message `m` reports a neighbour count for sender `k`. */
  predicate ReportsCount(m: Message, k: int)
  {
    m.senderId == k && m.content.Number?
  }

  /** Message `i` is the last report for sender `k`. */
  ghost predicate IsLastReport(msgs: seq<Message>, i: int, k: int)
  {
    0 <= i < |msgs| && ReportsCount(msgs[i], k) && forall j :: i < j < |msgs| ==> !ReportsCount(msgs[j], k)
  }

  /** `neighbor_counts` after `run_sr1c_collection` (routines.py:71-75). */
  function Sr1cCounts(counts: map<int, int>, msgs: seq<Message>): map<int, int>
    decreases |msgs|
  {
    if msgs == [] then counts
    else
      var r := Sr1cCounts(counts, msgs[..|msgs| - 1]);
      var m := msgs[|msgs| - 1];
      if m.content.Number? then r[m.senderId := m.content.n] else r
  }

  /**
   * The collection records every reporting sender, with the count of its last
   * report; senders not heard keep their entry.
   */
  lemma {:induction false} Sr1cCountsSpec(counts: map<int, int>, msgs: seq<Message>)
    ensures forall k :: k in Sr1cCounts(counts, msgs) <==>
              k in counts || exists i :: 0 <= i < |msgs| && ReportsCount(msgs[i], k)
    ensures forall k, i :: IsLastReport(msgs, i, k) ==>
              k in Sr1cCounts(counts, msgs) && Sr1cCounts(counts, msgs)[k] == msgs[i].content.n
    ensures forall k :: k in counts && (forall i :: 0 <= i < |msgs| ==> !ReportsCount(msgs[i], k)) ==>
              Sr1cCounts(counts, msgs)[k] == counts[k]
    decreases |msgs|
  {
    if msgs != [] {
      var n := |msgs| - 1;
      var pre := msgs[..n];
      Sr1cCountsSpec(counts, pre);
      assert forall i :: 0 <= i < n ==> pre[i] == msgs[i];
      forall k, i | IsLastReport(msgs, i, k)
        ensures k in Sr1cCounts(counts, msgs) && Sr1cCounts(counts, msgs)[k] == msgs[i].content.n
      {
        if i < n {
          assert IsLastReport(pre, i, k);
        }
      }
    }
  }

  /** The three-way test of `determine_role` on the minimum and maximum neighbour count. */
  function RoleOf(myCount: int, lo: int, hi: int): Role
  {
    if myCount < lo then Corner
    else if myCount >= hi then Middle
    else Border
  }

  /**
   * The role the comments of `determine_role` describe (routines.py:91-104):
   * CORNER below every neighbour, MIDDLE at least every neighbour, else BORDER.
   */
  ghost function ClassifiedRole(myCount: int, counts: map<int, int>): Role
  {
    if forall k :: k in counts ==> myCount < counts[k] then Corner
    else if forall k :: k in counts ==> counts[k] <= myCount then Middle
    else Border
  }

  ghost predicate IsMinMax(counts: map<int, int>, lo: int, hi: int)
  {
    && (exists k :: k in counts && counts[k] == lo)
    && (exists k :: k in counts && counts[k] == hi)
    && forall k :: k in counts ==> lo <= counts[k] <= hi
  }

  /** A set without members is the empty set. */
  lemma EmptyIfNoElement(s: set<int>)
    ensures (forall x :: x !in s) ==> s == {}
  {
    if forall x :: x !in s {
      assert s == {};
    }
  }

  /** `min(neighbor_counts.values())` and `max(...)` (routines.py:87-89), one entry at a time. */
  method Extremes(counts: map<int, int>) returns (lo: int, hi: int)
    requires |counts| > 0
    ensures IsMinMax(counts, lo, hi)
  {
    EmptyIfNoElement(counts.Keys);
    var first :| first in counts.Keys;
    lo, hi := counts[first], counts[first];
    var rest := counts.Keys - {first};
    while rest != {}
      invariant rest <= counts.Keys
      invariant exists k :: k in counts && counts[k] == lo
      invariant exists k :: k in counts && counts[k] == hi
      invariant forall k :: k in counts && k !in rest ==> lo <= counts[k] <= hi
      decreases |rest|
    {
      EmptyIfNoElement(rest);
      var k :| k in rest;
      if counts[k] < lo {
        lo := counts[k];
      }
      if counts[k] > hi {
        hi := counts[k];
      }
      rest := rest - {k};
    }
  }

  /** The min/max test classifies exactly as the reference definition. */
  lemma RoleOfClassifies(myCount: int, counts: map<int, int>, lo: int, hi: int)
    requires IsMinMax(counts, lo, hi)
    ensures RoleOf(myCount, lo, hi) == ClassifiedRole(myCount, counts)
    ensures RoleOf(myCount, lo, hi) == Corner <==> forall k :: k in counts ==> myCount < counts[k]
    ensures RoleOf(myCount, lo, hi) == Border <==>
              (exists k :: k in counts && counts[k] <= myCount) && (exists k :: k in counts && myCount < counts[k])
  {
  }

  predicate HasRoleFor(roles: seq<RoleEntry>, id: int)
  {
    exists i :: 0 <= i < |roles| && roles[i].id == id
  }

  predicate RolesDistinct(roles: seq<RoleEntry>)
  {
    forall i, j :: 0 <= i < j < |roles| ==> roles[i].id != roles[j].id
  }

  /** `neighbor_roles` after the merge loop of `determine_role` over the messages `msgs` (routines.py:106-114). */
  function RolesAfter(roles: seq<RoleEntry>, msgs: seq<Message>): seq<RoleEntry>
    decreases |msgs|
  {
    if msgs == [] then roles
    else
      var r := RolesAfter(roles, msgs[..|msgs| - 1]);
      var m := msgs[|msgs| - 1];
      if m.content.RoleNotice? && !HasRoleFor(r, m.content.id)
      then r + [RoleEntry(m.content.id, m.content.role)]
      else r
  }

  /**
   * The merge keeps every existing entry unchanged, adds an entry for each newly
   * announced id (taken from a role notice), and stays duplicate-free by id.
   */
  lemma {:induction false} RolesAfterSpec(roles: seq<RoleEntry>, msgs: seq<Message>)
    ensures roles <= RolesAfter(roles, msgs)
    ensures RolesDistinct(roles) ==> RolesDistinct(RolesAfter(roles, msgs))
    ensures forall id :: HasRoleFor(RolesAfter(roles, msgs), id) <==>
              HasRoleFor(roles, id) || exists i :: 0 <= i < |msgs| && msgs[i].content.RoleNotice? && msgs[i].content.id == id
    ensures forall j :: |roles| <= j < |RolesAfter(roles, msgs)| ==>
              exists i :: 0 <= i < |msgs| && msgs[i].content == RoleNotice(RolesAfter(roles, msgs)[j].id, RolesAfter(roles, msgs)[j].role)
    decreases |msgs|
  {
    if msgs != [] {
      var n := |msgs| - 1;
      var pre := msgs[..n];
      RolesAfterSpec(roles, pre);
      assert forall i :: 0 <= i < n ==> pre[i] == msgs[i];
      var r := RolesAfter(roles, pre);
      var w := RolesAfter(roles, msgs);
      var m := msgs[n];
      forall id | HasRoleFor(w, id)
        ensures HasRoleFor(roles, id) || exists i :: 0 <= i < |msgs| && msgs[i].content.RoleNotice? && msgs[i].content.id == id
      {
        var k :| 0 <= k < |w| && w[k].id == id;
        if k < |r| {
          assert r[k] == w[k];
          assert HasRoleFor(r, id);
        } else {
          assert m.content.RoleNotice? && m.content.id == id;
        }
      }
      forall id | HasRoleFor(r, id) ensures HasRoleFor(w, id) {
        var k :| 0 <= k < |r| && r[k].id == id;
        assert w[k] == r[k];
      }
      if m.content.RoleNotice? && !HasRoleFor(r, m.content.id) {
        assert w[|r|].id == m.content.id;
      }
      forall j | |roles| <= j < |w|
        ensures exists i :: 0 <= i < |msgs| && msgs[i].content == RoleNotice(w[j].id, w[j].role)
      {
        if j < |r| {
          assert w[j] == r[j];
          var i :| 0 <= i < |pre| && pre[i].content == RoleNotice(r[j].id, r[j].role);
          assert msgs[i] == pre[i];
        } else {
          assert msgs[n].content == RoleNotice(w[j].id, w[j].role);
        }
      }
    }
  }
}
