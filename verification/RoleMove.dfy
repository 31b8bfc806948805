/** The arrow buttons, as drops, and the way two opposite arrows undo each other. */
module RoleMove {
  import opened Wrappers
  import opened RoleModel
  import opened RoleRenumbering
  import opened RoleRanks
  import opened RoleDrop

  /** The tier next to `idx`, towards stronger (`up`) or weaker. */
  function Neighbour(idx: nat, up: bool): int {
    if up then idx - 1 else idx + 1
  }

  /** Tier `ts[i]` exists and the caller may not manage it. */
  predicate Blocked(ts: seq<Tier>, i: int) {
    0 <= i < |ts| && !IsManaged(ts[i])
  }

  /**
    The drop an arrow amounts to: a role that shares its tier peels off into
    one of its own, a role on its own joins the neighbouring tier, and at the
    edge it is set down again next to where it was.
  */
  function Arrow(ts: seq<Tier>, idx: nat, role: Role, up: bool): Drop
    requires idx < |ts|
  {
    var target := Neighbour(idx, up);
    if |ts[idx].roles| == 1 && 0 <= target < |ts| then Drop(ts, idx, [role], target, Join)
    else Drop(ts, idx, [role], idx, if up then Above else Below)
  }

  ghost predicate Selected(c: Client, ts: seq<Tier>, idx: nat, role: Role) {
    Consistent(c) && IsTiers(c, ts) && In(ts, idx, role) && role.canManage
  }

  /** The only move that is not carried out as meant is the one the code refuses. */
  lemma ArrowIsRealised(c: Client, ts: seq<Tier>, idx: nat, role: Role, up: bool)
    requires Selected(c, ts, idx, role)
    requires |ts[idx].roles| == 1 ==> !Blocked(ts, Neighbour(idx, up))
    ensures Arrow(ts, idx, role, up).WellFormed() && Realised(Arrow(ts, idx, role, up))
  {
    var d := Arrow(ts, idx, role, up);
    assert role in ts[idx].roles;
    var u := FirstManaged(c, ts, |ts|);
    if d.Raw() < |ts| {
      assert In(ts, d.Raw(), ts[d.Raw()].roles[0]);
    }
  }

  // ----- Moves in terms of ranks alone -----

  /** `x` is further than `y` towards stronger (`up`) or weaker. */
  predicate Beyond(up: bool, x: int, y: int) {
    if up then x > y else x < y
  }

  ghost predicate Alone(p: map<string, int>, id: string)
    requires id in p
  {
    forall a :: a in p && a != id ==> p[a] != p[id]
  }

  /** No role stands beyond `id`. */
  ghost predicate AtEdge(p: map<string, int>, id: string, up: bool)
    requires id in p
  {
    forall a :: a in p ==> !Beyond(up, p[a], p[id])
  }

  /** Of the roles beyond `id`, none stands before `n`. */
  ghost predicate Nearest(p: map<string, int>, id: string, up: bool, n: string)
    requires id in p
  {
    n in p && Beyond(up, p[n], p[id]) && forall a :: a in p && Beyond(up, p[a], p[id]) ==> !Beyond(up, p[n], p[a])
  }

  ghost predicate OthersKeepOrder(p: map<string, int>, p': map<string, int>, id: string) {
    p'.Keys == p.Keys &&
    forall a, b :: a in p && b in p && a != id && b != id ==> SameOrder(p[a], p[b], p'[a], p'[b])
  }

  /** One arrow. */
  ghost predicate Moved(p: map<string, int>, p': map<string, int>, id: string, up: bool)
    requires id in p
  {
    && OthersKeepOrder(p, p', id)
    && (if Alone(p, id) && !AtEdge(p, id, up) then
          exists n :: Nearest(p, id, up, n) &&
            forall a :: a in p && a != id ==> SameOrder(p[n], p[a], p'[id], p'[a])
        else
          forall a :: a in p && a != id ==> p'[id] != p'[a] && (Beyond(up, p'[a], p'[id]) <==> Beyond(up, p[a], p[id])))
  }

  ghost predicate SameRanks(p: map<string, int>, p': map<string, int>) {
    p'.Keys == p.Keys && forall a, b :: a in p && b in p ==> SameOrder(p[a], p[b], p'[a], p'[b])
  }

  /** Out of a shared tier and back in. */
  lemma PeelAndRejoin(p0: map<string, int>, p1: map<string, int>, p2: map<string, int>, id: string, up: bool)
    requires id in p0 && !Alone(p0, id) && Moved(p0, p1, id, up) && Moved(p1, p2, id, !up)
    ensures SameRanks(p0, p2)
  {
    var mate :| mate in p0 && mate != id && p0[mate] == p0[id];
    var n := RejoinsMate(p0, p1, p2, id, mate, up);
    forall a | a in p0 && a != id
      ensures SameOrder(p0[id], p0[a], p2[id], p2[a])
    {
      assert SameOrder(p0[mate], p0[a], p1[mate], p1[a]);
      assert SameOrder(p1[n], p1[a], p2[id], p2[a]);
    }
  }

  lemma RejoinsMate(p0: map<string, int>, p1: map<string, int>, p2: map<string, int>, id: string, mate: string, up: bool)
      returns (n: string)
    requires id in p0 && mate in p0 && mate != id && p0[mate] == p0[id]
    requires Moved(p0, p1, id, up) && Moved(p1, p2, id, !up)
    ensures n in p1 && p1[n] == p1[mate]
    ensures forall a :: a in p1 && a != id ==> SameOrder(p1[n], p1[a], p2[id], p2[a])
  {
    assert !Alone(p0, id) && Alone(p1, id);
    assert Beyond(!up, p1[mate], p1[id]);
    n :| Nearest(p1, id, !up, n) && forall a :: a in p1 && a != id ==> SameOrder(p1[n], p1[a], p2[id], p2[a]);
    assert !Beyond(!up, p1[n], p1[mate]);
    assert !Beyond(up, p0[n], p0[mate]);
    assert SameOrder(p0[n], p0[mate], p1[n], p1[mate]);
  }

  /** Into the neighbouring tier and back out. */
  lemma JoinAndPeel(p0: map<string, int>, p1: map<string, int>, p2: map<string, int>, id: string, up: bool)
    requires id in p0 && Alone(p0, id) && !AtEdge(p0, id, up)
    requires Moved(p0, p1, id, up) && Moved(p1, p2, id, !up)
    ensures SameRanks(p0, p2)
  {
    var n :| Nearest(p0, id, up, n) && forall a :: a in p0 && a != id ==> SameOrder(p0[n], p0[a], p1[id], p1[a]);
    assert p1[n] == p1[id];
    assert !Alone(p1, id);
    forall a | a in p0 && a != id
      ensures SameOrder(p0[id], p0[a], p2[id], p2[a])
    {
      assert Beyond(up, p0[a], p0[id]) <==> !Beyond(up, p0[n], p0[a]);
    }
  }

  /** From the edge the first arrow changes nothing, so the second is a step away. */
  lemma StuckAndAway(p0: map<string, int>, p1: map<string, int>, p2: map<string, int>, id: string, up: bool)
    requires id in p0 && Alone(p0, id) && AtEdge(p0, id, up)
    requires Moved(p0, p1, id, up) && Moved(p1, p2, id, !up)
    ensures SameRanks(p0, p2) <==> AtEdge(p0, id, !up)
  {
    assert SameRanks(p0, p1);
    assert Alone(p1, id);
    if AtEdge(p0, id, !up) {
      assert forall a :: a in p0 ==> a == id;
    } else {
      var b :| b in p0 && Beyond(!up, p0[b], p0[id]);
      assert Beyond(!up, p1[b], p1[id]);
      var n :| Nearest(p1, id, !up, n) && forall a :: a in p1 && a != id ==> SameOrder(p1[n], p1[a], p2[id], p2[a]);
      assert p2[id] == p2[n] && p0[id] != p0[n];
    }
  }

  /**
    An arrow and then the opposite one restore the ordered partition, except
    exactly when the role was alone in the tier at the edge it was first moved
    towards, and not in the only tier there is.
  */
  lemma OppositeArrowsIff(p0: map<string, int>, p1: map<string, int>, p2: map<string, int>, id: string, up: bool)
    requires id in p0 && Moved(p0, p1, id, up) && Moved(p1, p2, id, !up)
    ensures SameRanks(p0, p2) <==> !(Alone(p0, id) && AtEdge(p0, id, up) && !AtEdge(p0, id, !up))
  {
    if !Alone(p0, id) {
      PeelAndRejoin(p0, p1, p2, id, up);
    } else if AtEdge(p0, id, up) {
      StuckAndAway(p0, p1, p2, id, up);
    } else {
      JoinAndPeel(p0, p1, p2, id, up);
    }
  }

  // ----- From tiers to ranks and back -----

  lemma AloneInTier(c: Client, ts: seq<Tier>, idx: nat, role: Role)
    requires Selected(c, ts, idx, role)
    ensures Ranked(c, role) && (Alone(Positions(c), role.id) <==> |ts[idx].roles| == 1)
  {
    var p, roles := Positions(c), ts[idx].roles;
    if |roles| == 1 {
      forall a | a in p && a != role.id
        ensures p[a] != p[role.id]
      {
        var r := RankedById(c, a);
        var i :| In(ts, i, r);
      }
    } else {
      var other := if roles[0] == role then roles[1] else roles[0];
      assert In(ts, idx, other) && other != role;
      if other.id == role.id {
        SameId(c, other, role);
      }
      assert p[other.id] == p[role.id];
    }
  }

  lemma NeighbourIsNearest(c: Client, ts: seq<Tier>, idx: nat, role: Role, up: bool)
    requires Selected(c, ts, idx, role)
    ensures Ranked(c, role)
    ensures AtEdge(Positions(c), role.id, up) <==> !(0 <= Neighbour(idx, up) < |ts|)
    ensures 0 <= Neighbour(idx, up) < |ts| ==>
              Ranked(c, ts[Neighbour(idx, up)].roles[0]) &&
              Nearest(Positions(c), role.id, up, ts[Neighbour(idx, up)].roles[0].id)
  {
    var p, t := Positions(c), Neighbour(idx, up);
    if 0 <= t < |ts| {
      assert In(ts, t, ts[t].roles[0]);
    }
    forall a | a in p
      ensures Beyond(up, p[a], p[role.id]) ==> 0 <= t < |ts| && !Beyond(up, ts[t].pos.value, p[a])
    {
      var r := RankedById(c, a);
      var i :| In(ts, i, r);
      assert p[a] == ts[i].pos.value;
    }
  }

  lemma JoinIsMove(p: map<string, int>, p': map<string, int>, id: string, up: bool, n: string)
    requires id in p && Alone(p, id) && Nearest(p, id, up, n)
    requires Intended(p, p', {id}, Some(p[n]), Join)
    ensures Moved(p, p', id, up)
  {
    forall a | a in p && a != id
      ensures SameOrder(p[n], p[a], p'[id], p'[a])
    {
      assert Lands(Join, Some(p[n]), p[a], p'[id], p'[a]);
    }
  }

  lemma PeelIsMove(p: map<string, int>, p': map<string, int>, id: string, up: bool)
    requires id in p && (Alone(p, id) ==> AtEdge(p, id, up))
    requires Intended(p, p', {id}, Some(p[id]), if up then Above else Below)
    ensures Moved(p, p', id, up)
  {
    forall a | a in p && a != id
      ensures p'[id] != p'[a] && (Beyond(up, p'[a], p'[id]) <==> Beyond(up, p[a], p[id]))
    {
      assert Lands(if up then Above else Below, Some(p[id]), p[a], p'[id], p'[a]);
    }
  }

  lemma IntendedIsMove(c: Client, ts: seq<Tier>, idx: nat, role: Role, up: bool, p': map<string, int>)
    requires Selected(c, ts, idx, role)
    requires var d := Arrow(ts, idx, role, up);
             Intended(Positions(c), p', {role.id}, ts[d.anchor].pos, d.mode)
    ensures Ranked(c, role) && Moved(Positions(c), p', role.id, up)
  {
    var t := Neighbour(idx, up);
    AloneInTier(c, ts, idx, role);
    NeighbourIsNearest(c, ts, idx, role, up);
    if |ts[idx].roles| == 1 && 0 <= t < |ts| {
      var n := ts[t].roles[0];
      assert In(ts, t, n);
      JoinIsMove(Positions(c), p', role.id, up, n.id);
    } else {
      PeelIsMove(Positions(c), p', role.id, up);
    }
  }

  lemma ArrowIsIntended(c: Client, ts: seq<Tier>, idx: nat, role: Role, up: bool, d: Drop)
    requires Selected(c, ts, idx, role) && d == Arrow(ts, idx, role, up)
    requires d.WellFormed() && Realised(d) && Room(c, |Managed(d.Result())|)
    ensures Intended(Positions(c), NewPositions(c, d.Result()), {role.id}, ts[d.anchor].pos, d.mode)
  {
    assert d.tiers == ts && d.moving == [role] && d.anchor < |ts|;
    assert Ids([role]) == {role.id};
    RealisedDropIsIntended(c, d);
  }

  /** An arrow that is not refused moves the role by one step of rank, whoever the caller is. */
  lemma ArrowMoves(c: Client, ts: seq<Tier>, idx: nat, role: Role, up: bool)
    requires Selected(c, ts, idx, role)
    requires |ts[idx].roles| == 1 ==> !Blocked(ts, Neighbour(idx, up))
    requires Arrow(ts, idx, role, up).WellFormed() && Room(c, |Managed(Arrow(ts, idx, role, up).Result())|)
    ensures Ranked(c, role)
    ensures Moved(Positions(c), NewPositions(c, Arrow(ts, idx, role, up).Result()), role.id, up)
  {
    ArrowIsRealised(c, ts, idx, role, up);
    ArrowIsIntended(c, ts, idx, role, up, Arrow(ts, idx, role, up));
    IntendedIsMove(c, ts, idx, role, up, NewPositions(c, Arrow(ts, idx, role, up).Result()));
  }

  /** The arrow on `role` is not refused, and the page reloads with its outcome. */
  ghost predicate CarriedOut(c: Client, ts: seq<Tier>, idx: nat, role: Role, up: bool, c': Client) {
    && Selected(c, ts, idx, role)
    && (|ts[idx].roles| == 1 ==> !Blocked(ts, Neighbour(idx, up)))
    && Arrow(ts, idx, role, up).WellFormed()
    && Room(c, |Managed(Arrow(ts, idx, role, up).Result())|)
    && Reloaded(c, Renumber(c, Arrow(ts, idx, role, up).Result()), c')
  }

  ghost predicate ArrowStep(c: Client, id: string, up: bool, c': Client) {
    exists ts, idx, role :: CarriedOut(c, ts, idx, role, up, c') && role.id == id
  }

  lemma ArrowStepMoves(c: Client, id: string, up: bool, c': Client)
    requires ArrowStep(c, id, up, c')
    ensures Consistent(c) && Consistent(c') && id in Positions(c) && Moved(Positions(c), Positions(c'), id, up)
  {
    var ts, idx, role :| CarriedOut(c, ts, idx, role, up, c') && role.id == id;
    ArrowMoves(c, ts, idx, role, up);
  }

  /** The same, end to end: through renumbering, the server and regrouping, twice. */
  lemma OppositeArrowsRestore(c0: Client, c1: Client, c2: Client, id: string, up: bool)
    requires ArrowStep(c0, id, up, c1) && ArrowStep(c1, id, !up, c2)
    ensures Consistent(c0) && Consistent(c2) && id in Positions(c0)
    ensures SameRanks(Positions(c0), Positions(c2)) <==>
            !(Alone(Positions(c0), id) && AtEdge(Positions(c0), id, up) && !AtEdge(Positions(c0), id, !up))
  {
    ArrowStepMoves(c0, id, up, c1);
    ArrowStepMoves(c1, id, !up, c2);
    OppositeArrowsIff(Positions(c0), Positions(c1), Positions(c2), id, up);
  }
}
