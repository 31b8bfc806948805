/**
  Role ranks as the settings page edits them: roles grouped into tiers by
  position, a tier list rearranged by drag and drop or by the arrow buttons,
  renumbered, stored by the server and grouped again.
*/
module RoleModel {
  import opened Wrappers

  datatype Role = Role(id: string, position: int, isEveryone: bool, canManage: bool)

  /** `pos` is absent for a tier that an edit has just created. */
  datatype Tier = Tier(pos: Option<int>, roles: seq<Role>)

  datatype Update = Update(id: string, position: int)

  /** What the page knows about the server: its roles and the caller's rank. */
  datatype Client = Client(roles: seq<Role>, isOwner: bool, myPosition: int)

  /** The role list as the server sends it: ids are unique, and a role is manageable iff the caller outranks it. */
  ghost predicate Consistent(c: Client) {
    && (forall i, j :: 0 <= i < |c.roles| && 0 <= j < |c.roles| && c.roles[i].id == c.roles[j].id ==> i == j)
    && (forall r :: r in c.roles ==> (r.canManage <==> c.isOwner || r.position < c.myPosition))
  }

  predicate Ranked(c: Client, r: Role) {
    r in c.roles && !r.isEveryone
  }

  ghost function RankedIds(c: Client): set<string> {
    set r | r in c.roles && !r.isEveryone :: r.id
  }

  ghost function RankedById(c: Client, id: string): (r: Role)
    requires Consistent(c) && id in RankedIds(c)
    ensures Ranked(c, r) && r.id == id
    ensures forall q :: q in c.roles && q.id == id ==> q == r
  {
    var r :| r in c.roles && !r.isEveryone && r.id == id;
    r
  }

  /** The position of every role that has a rank, by id. */
  ghost function Positions(c: Client): (p: map<string, int>)
    requires Consistent(c)
    ensures p.Keys == RankedIds(c)
    ensures forall r :: Ranked(c, r) ==> r.id in p && p[r.id] == r.position
  {
    map id | id in RankedIds(c) :: RankedById(c, id).position
  }

  // ----- What the server does with a list of updates -----

  predicate Accepts(c: Client, position: int) {
    c.isOwner || position < c.myPosition
  }

  function Served(c: Client, p: map<string, int>, updates: seq<Update>): (q: map<string, int>)
    ensures q.Keys == p.Keys
    decreases |updates|
  {
    if updates == [] then p
    else
      var u := updates[0];
      Served(c, if u.id in p && Accepts(c, u.position) then p[u.id := u.position] else p, updates[1..])
  }

  lemma {:induction false} ServedAt(c: Client, p: map<string, int>, updates: seq<Update>, id: string, pos: int)
    requires id in p && Accepts(c, pos)
    requires forall u :: u in updates && u.id == id ==> u.position == pos
    requires p[id] == pos || exists u :: u in updates && u.id == id
    ensures Served(c, p, updates)[id] == pos
    decreases |updates|
  {
    if updates != [] {
      var u := updates[0];
      var p' := if u.id in p && Accepts(c, u.position) then p[u.id := u.position] else p;
      assert updates == [u] + updates[1..];
      assert u in updates;
      ServedAt(c, p', updates[1..], id, pos);
    }
  }

  lemma {:induction false} ServedUntouched(c: Client, p: map<string, int>, updates: seq<Update>, id: string)
    requires id in p && forall u :: u in updates ==> u.id != id
    ensures Served(c, p, updates)[id] == p[id]
    decreases |updates|
  {
    if updates != [] {
      var u := updates[0];
      assert u in updates && updates == [u] + updates[1..];
      ServedUntouched(c, if u.id in p && Accepts(c, u.position) then p[u.id := u.position] else p, updates[1..], id);
    }
  }

  /** What the page shows after the server stored `updates`: the same roles in whatever order, at their new positions. */
  ghost predicate Reloaded(c: Client, updates: seq<Update>, c': Client) {
    && Consistent(c) && Consistent(c')
    && c'.isOwner == c.isOwner && c'.myPosition == c.myPosition
    && |c'.roles| == |c.roles|
    && Positions(c') == Served(c, Positions(c), updates)
  }
}

module RoleRenumbering {
  import opened RoleModel

  predicate OwnerBranch(c: Client) {
    c.isOwner || c.myPosition > 100000
  }

  function Max(a: int, b: int): int {
    if a < b then b else a
  }

  function Step(c: Client, count: nat): (step: int)
    ensures step >= 1
  {
    if OwnerBranch(c) then 10 else Max(1, c.myPosition / (count + 1))
  }

  /** The position given to the `i`-th of `count` managed tiers, strongest first. */
  function TierPosition(c: Client, count: nat, i: nat): int {
    (if OwnerBranch(c) then count * 10 else c.myPosition - 1) - i * Step(c, count)
  }

  lemma PositionsDecrease(c: Client, count: nat, i: nat, j: nat)
    requires i < j
    ensures TierPosition(c, count, i) > TierPosition(c, count, j)
  {
    FurtherIsMore(i, j, Step(c, count));
  }

  lemma FurtherIsMore(i: int, j: int, step: int)
    requires i < j && step >= 1
    ensures i * step < j * step
  {
    var d := j - i;
    assert (i + d) * step == i * step + d * step;
    assert d * step >= step by { NonNegative(d - 1, step); }
  }

  lemma NonNegative(a: nat, b: nat)
    ensures a * b >= 0 && (a + 1) * b == a * b + b
  {
  }

  lemma StepFits(x: int, count: nat)
    requires x >= count + 1 && 0 < count
    ensures (count - 1) * (x / (count + 1)) <= x - 2
  {
    var step := x / (count + 1);
    assert step * (count + 1) <= x;
    assert step >= 1;
    assert (count - 1) * step == step * (count + 1) - 2 * step;
  }

  /**
    Renumbered positions strictly decrease. Within the integer budget of a
    caller who is no owner they stay below the caller's rank, and they stay
    positive exactly when there are no more managed tiers than ranks below it.
  */
  lemma NonOwnerBudget(c: Client, count: nat)
    requires !OwnerBranch(c) && 0 < count
    ensures forall i {:trigger TierPosition(c, count, i)} :: 0 <= i < count ==> TierPosition(c, count, i) < c.myPosition
    ensures TierPosition(c, count, count - 1) >= 1 <==> c.myPosition - 1 >= count
  {
    var step := Step(c, count);
    forall i | 0 <= i < count
      ensures TierPosition(c, count, i) < c.myPosition
    {
      assert i * step >= 0;
    }
    if c.myPosition >= count + 1 {
      StepFits(c.myPosition, count);
      if c.myPosition / (count + 1) < 1 {
        assert (count - 1) * 1 == count - 1;
      }
    } else {
      assert (count - 1) * step >= count - 1 by { assert (count - 1) * (step - 1) >= 0; }
    }
  }

  /** On the owner's branch every position is at least 10, and the strongest is ten per tier. */
  lemma OwnerBudget(c: Client, count: nat, i: nat)
    requires OwnerBranch(c) && i < count
    ensures 10 <= TierPosition(c, count, i) <= count * 10
  {
  }

  /** The room to renumber `count` tiers below the caller's rank; only a rank above 100000 can lack it. */
  predicate Room(c: Client, count: nat) {
    c.isOwner || c.myPosition <= 100000 || count * 10 < c.myPosition
  }

  /** The server takes every renumbered position if and only if there is room. */
  lemma RenumberedAccepted(c: Client, count: nat, i: nat)
    requires i < count
    ensures Room(c, count) ==> Accepts(c, TierPosition(c, count, i))
    ensures !Room(c, count) ==> !Accepts(c, TierPosition(c, count, 0))
  {
    if OwnerBranch(c) {
      OwnerBudget(c, count, i);
    } else {
      NonOwnerBudget(c, count);
    }
  }

  // ----- The update list -----

  predicate IsManaged(t: Tier) {
    t.roles != [] && t.roles[0].canManage
  }

  function Managed(ts: seq<Tier>): (ms: seq<Tier>)
    ensures |ms| <= |ts|
  {
    if ts == [] then [] else (if IsManaged(ts[0]) then [ts[0]] else []) + Managed(ts[1..])
  }

  function TierUpdates(roles: seq<Role>, pos: int): (us: seq<Update>)
    ensures forall u :: u in us <==> exists r :: r in roles && r.position != pos && u == Update(r.id, pos)
  {
    if roles == [] then []
    else (if roles[0].position != pos then [Update(roles[0].id, pos)] else []) + TierUpdates(roles[1..], pos)
  }

  function UpTo(c: Client, ms: seq<Tier>, i: nat): (us: seq<Update>)
    requires i <= |ms|
  {
    if i == 0 then [] else UpTo(c, ms, i - 1) + TierUpdates(ms[i - 1].roles, TierPosition(c, |ms|, i - 1))
  }

  function Renumber(c: Client, ts: seq<Tier>): seq<Update> {
    UpTo(c, Managed(ts), |Managed(ts)|)
  }

  lemma {:induction false} UpdatesOf(c: Client, ms: seq<Tier>, n: nat)
    requires n <= |ms|
    ensures forall u :: u in UpTo(c, ms, n) ==>
              exists i, r :: 0 <= i < n && r in ms[i].roles && u == Update(r.id, TierPosition(c, |ms|, i))
    ensures forall i, r :: 0 <= i < n && r in ms[i].roles && r.position != TierPosition(c, |ms|, i) ==>
              Update(r.id, TierPosition(c, |ms|, i)) in UpTo(c, ms, n)
  {
    if n > 0 {
      UpdatesOf(c, ms, n - 1);
    }
  }

  // ----- How the positions are spread -----

  /** Neighbours in `at` are `gap` apart, as far as the caller's rank allows. */
  predicate SpreadBy(c: Client, at: seq<int>, gap: int) {
    && at != [] && gap >= 1
    && (forall i {:trigger at[i]} :: 0 < i < |at| ==> at[i] == at[0] - i * gap)
    && if c.isOwner || c.myPosition > 100000 then gap == 10 && at[|at| - 1] == 10
       else
         && at[0] == c.myPosition - 1
         && if c.myPosition <= |at| then gap == 1
            else gap * (|at| + 1) <= c.myPosition < (gap + 1) * (|at| + 1)
  }

  /** The updates send every role of these tiers to its tier's position, unless it is there already. */
  ghost predicate Sends(updates: seq<Update>, ms: seq<Tier>, at: seq<int>) {
    && |at| == |ms|
    && forall u :: u in updates <==> exists i, r :: 0 <= i < |ms| && r in ms[i].roles && r.position != at[i] && u == Update(r.id, at[i])
  }

  function Places(c: Client, n: nat): (at: seq<int>)
    ensures |at| == n
  {
    seq(n, (i: nat) => TierPosition(c, n, i))
  }

  lemma PlacesAreSpread(c: Client, n: nat)
    requires 0 < n
    ensures SpreadBy(c, Places(c, n), Step(c, n))
  {
    var at, gap := Places(c, n), Step(c, n);
    forall i {:trigger at[i]} | 0 < i < n
      ensures at[i] == at[0] - i * gap
    {
      assert at[0] == TierPosition(c, n, 0) && at[i] == TierPosition(c, n, i);
      assert 0 * gap == 0;
    }
    assert at[0] == TierPosition(c, n, 0) && at[n - 1] == TierPosition(c, n, n - 1);
    if !OwnerBranch(c) && c.myPosition > n {
      WholeSteps(c.myPosition, n + 1);
    } else if !OwnerBranch(c) {
      SmallQuotient(c.myPosition, n + 1);
    }
  }

  lemma WholeSteps(x: int, d: int)
    requires 0 < d <= x
    ensures x / d >= 1 && (x / d) * d <= x < (x / d + 1) * d
  {
    assert x == (x / d) * d + x % d;
    assert (x / d + 1) * d == (x / d) * d + d;
  }

  lemma SmallQuotient(x: int, d: int)
    requires 0 < d && x < d
    ensures x / d <= 0
  {
    assert x == (x / d) * d + x % d;
  }

  /** What renumbering sends, whoever the caller is. */
  lemma RenumberIsSpread(c: Client, ts: seq<Tier>)
    requires Managed(ts) != []
    ensures exists at, gap :: SpreadBy(c, at, gap) && Sends(Renumber(c, ts), Managed(ts), at)
  {
    var ms := Managed(ts);
    var at := Places(c, |ms|);
    PlacesAreSpread(c, |ms|);
    UpdatesOf(c, ms, |ms|);
    RenumberSends(c, ms, at, Renumber(c, ts));
    assert SpreadBy(c, at, Step(c, |ms|)) && Sends(Renumber(c, ts), ms, at);
  }

  lemma RenumberSends(c: Client, ms: seq<Tier>, at: seq<int>, us: seq<Update>)
    requires at == Places(c, |ms|) && us == UpTo(c, ms, |ms|)
    ensures Sends(us, ms, at)
  {
    UpdatesOf(c, ms, |ms|);
    UpdatesMove(c, ms, |ms|);
    forall i | 0 <= i < |ms| ensures at[i] == TierPosition(c, |ms|, i) {
    }
  }

  /** No update leaves a role where it is. */
  lemma {:induction false} UpdatesMove(c: Client, ms: seq<Tier>, n: nat)
    requires n <= |ms|
    ensures forall u :: u in UpTo(c, ms, n) ==>
              exists i, r :: 0 <= i < n && r in ms[i].roles && r.position != u.position && u == Update(r.id, TierPosition(c, |ms|, i))
  {
    if n > 0 {
      UpdatesMove(c, ms, n - 1);
    }
  }
}

module RoleRanks {
  import opened Wrappers
  import opened RoleModel
  import opened RoleRenumbering

  predicate In(ts: seq<Tier>, i: int, r: Role) {
    0 <= i < |ts| && r in ts[i].roles
  }

  ghost predicate Disjoint(ts: seq<Tier>) {
    forall i, j, r {:trigger In(ts, i, r), In(ts, j, r)} :: In(ts, i, r) && In(ts, j, r) ==> i == j
  }

  /** The tiers hold every ranked role exactly once. */
  ghost predicate Layout(c: Client, ts: seq<Tier>) {
    && (forall i, r {:trigger In(ts, i, r)} :: In(ts, i, r) ==> Ranked(c, r))
    && (forall i :: 0 <= i < |ts| ==> ts[i].roles != [])
    && Disjoint(ts)
    && (forall r {:trigger Ranked(c, r)} :: Ranked(c, r) ==> exists i :: In(ts, i, r))
  }

  /** The tiers of the role list itself: one per position, strongest first. */
  ghost predicate IsTiers(c: Client, ts: seq<Tier>) {
    && Layout(c, ts)
    && (forall i :: 0 <= i < |ts| ==> ts[i].pos.Some?)
    && (forall i, r {:trigger In(ts, i, r)} :: In(ts, i, r) ==> r.position == ts[i].pos.value)
    && (forall i, j :: 0 <= i < j < |ts| ==> ts[i].pos.value > ts[j].pos.value)
    && (forall i :: 0 <= i < |ts| ==> NoRepeats(ts[i].roles))
  }

  predicate NoRepeats<T(==)>(s: seq<T>) {
    forall a, b :: 0 <= a < |s| && 0 <= b < |s| && s[a] == s[b] ==> a == b
  }

  lemma SameId(c: Client, r: Role, q: Role)
    requires Consistent(c) && Ranked(c, r) && Ranked(c, q) && r.id == q.id
    ensures r == q
  {
    assert RankedById(c, r.id) == r;
  }

  /** Grouping shows exactly the ordered partition that the stored positions make. */
  lemma GroupingShowsRanks(c: Client, ts: seq<Tier>, i: nat, j: nat, r: Role, q: Role)
    requires Consistent(c) && IsTiers(c, ts) && In(ts, i, r) && In(ts, j, q)
    ensures RankedAs(Positions(c), i, j, r, q)
  {
    assert Ranked(c, r) && Ranked(c, q);
    assert r.position == ts[i].pos.value && q.position == ts[j].pos.value;
  }

  /** The managed tiers are some of the tiers, in order: the `k`-th is number `ManagedAt(ts, k)` of them all. */
  function ManagedAt(ts: seq<Tier>, k: nat): (x: nat)
    requires k < |Managed(ts)|
    ensures x < |ts| && ts[x] == Managed(ts)[k] && IsManaged(ts[x])
  {
    if IsManaged(ts[0]) then (if k == 0 then 0 else 1 + ManagedAt(ts[1..], k - 1))
    else 1 + ManagedAt(ts[1..], k)
  }

  lemma {:induction false} ManagedAtIncreases(ts: seq<Tier>, k: nat, l: nat)
    requires k < l < |Managed(ts)|
    ensures ManagedAt(ts, k) < ManagedAt(ts, l)
  {
    if !IsManaged(ts[0]) {
      assert Managed(ts) == Managed(ts[1..]);
      ManagedAtIncreases(ts[1..], k, l);
    } else {
      assert Managed(ts) == [ts[0]] + Managed(ts[1..]);
      if k > 0 {
        ManagedAtIncreases(ts[1..], k - 1, l - 1);
      }
    }
  }

  lemma ManagedOnce(ts: seq<Tier>, k: nat, l: nat, r: Role)
    requires Disjoint(ts) && In(Managed(ts), k, r) && In(Managed(ts), l, r)
    ensures k == l
  {
    assert In(ts, ManagedAt(ts, k), r) && In(ts, ManagedAt(ts, l), r);
    if k < l {
      ManagedAtIncreases(ts, k, l);
    } else if l < k {
      ManagedAtIncreases(ts, l, k);
    }
  }

  /** The positions after renumbering `ts` and storing the result. */
  ghost function NewPositions(c: Client, ts: seq<Tier>): (p: map<string, int>)
    requires Consistent(c)
    ensures p.Keys == RankedIds(c)
  {
    Served(c, Positions(c), Renumber(c, ts))
  }

  lemma RenumberedRole(c: Client, ts: seq<Tier>, k: nat, r: Role)
    requires Consistent(c) && Layout(c, ts) && Room(c, |Managed(ts)|)
    requires In(Managed(ts), k, r)
    ensures Ranked(c, r) && NewPositions(c, ts)[r.id] == TierPosition(c, |Managed(ts)|, k)
  {
    var ms, us := Managed(ts), Renumber(c, ts);
    var pos := TierPosition(c, |ms|, k);
    UpdatesOf(c, ms, |ms|);
    RenumberedAccepted(c, |ms|, k);
    assert In(ts, ManagedAt(ts, k), r);
    forall u | u in us && u.id == r.id
      ensures u.position == pos
    {
      var i, q :| 0 <= i < |ms| && q in ms[i].roles && u == Update(q.id, TierPosition(c, |ms|, i));
      assert In(ts, ManagedAt(ts, i), q) && In(ms, i, q);
      SameId(c, q, r);
      ManagedOnce(ts, i, k, r);
    }
    if r.position != pos {
      assert Update(r.id, pos) in us;
    }
    ServedAt(c, Positions(c), us, r.id, pos);
  }

  lemma UnmanagedRole(c: Client, ts: seq<Tier>, i: nat, r: Role)
    requires Consistent(c) && Layout(c, ts)
    requires In(ts, i, r) && !IsManaged(ts[i])
    ensures Ranked(c, r) && NewPositions(c, ts)[r.id] == r.position
  {
    var ms, us := Managed(ts), Renumber(c, ts);
    UpdatesOf(c, ms, |ms|);
    forall u | u in us
      ensures u.id != r.id
    {
      var k, q :| 0 <= k < |ms| && q in ms[k].roles && u == Update(q.id, TierPosition(c, |ms|, k));
      assert In(ts, ManagedAt(ts, k), q);
      if q.id == r.id {
        SameId(c, q, r);
      }
    }
    ServedUntouched(c, Positions(c), us, r.id);
  }

  // ----- Layouts that renumbering can realise -----

  /** The first `u` tiers are out of the caller's reach and in their stored order; all the others are manageable. */
  ghost predicate Realisable(ts: seq<Tier>, u: nat) {
    && u <= |ts|
    && (forall i, r {:trigger In(ts, i, r)} :: In(ts, i, r) ==> (r.canManage <==> u <= i))
    && (forall i, j, r, q {:trigger In(ts, i, r), In(ts, j, q)} :: i <= j < u && In(ts, i, r) && In(ts, j, q) ==>
          if i < j then r.position > q.position else r.position == q.position)
  }

  lemma {:induction false} ManagedAtSuffix(ts: seq<Tier>, u: nat, k: nat)
    requires u <= k < |ts|
    requires forall i :: 0 <= i < |ts| ==> (IsManaged(ts[i]) <==> u <= i)
    ensures |Managed(ts)| == |ts| - u && Managed(ts)[k - u] == ts[k]
  {
    var rest := ts[1..];
    assert forall i :: 0 <= i < |rest| ==> rest[i] == ts[i + 1];
    if u == 0 {
      if |ts| > 1 {
        ManagedAtSuffix(rest, 0, if k == 0 then 0 else k - 1);
      } else {
        assert Managed(rest) == [];
      }
    } else {
      ManagedAtSuffix(rest, u - 1, k - 1);
    }
  }

  lemma ManagedSuffix(ts: seq<Tier>, u: nat, j: nat)
    requires Realisable(ts, u) && u <= j < |ts|
    requires forall i :: 0 <= i < |ts| ==> ts[i].roles != []
    ensures |Managed(ts)| == |ts| - u && Managed(ts)[j - u] == ts[j]
  {
    forall x | 0 <= x < |ts|
      ensures IsManaged(ts[x]) <==> u <= x
    {
      assert In(ts, x, ts[x].roles[0]);
    }
    ManagedAtSuffix(ts, u, j);
  }

  /** `r` stands in tier `i` and `q` in tier `j`: is that how positions `p` rank them? */
  ghost predicate RankedAs(p: map<string, int>, i: int, j: int, r: Role, q: Role) {
    r.id in p && q.id in p && (i < j <==> p[r.id] > p[q.id]) && (i == j <==> p[r.id] == p[q.id])
  }

  /** Where a role of a realisable layout ends up. */
  lemma RealisedPosition(c: Client, ts: seq<Tier>, u: nat, i: nat, r: Role)
    requires Consistent(c) && Layout(c, ts) && Room(c, |Managed(ts)|) && Realisable(ts, u)
    requires In(ts, i, r)
    ensures Ranked(c, r)
    ensures NewPositions(c, ts)[r.id] == if i < u then r.position else TierPosition(c, |Managed(ts)|, i - u)
  {
    if i < u {
      assert In(ts, i, ts[i].roles[0]);
      UnmanagedRole(c, ts, i, r);
    } else {
      ManagedSuffix(ts, u, i);
      assert In(Managed(ts), i - u, r);
      RenumberedRole(c, ts, i - u, r);
    }
  }

  /** Of two tiers out of reach, the positions stay as stored. */
  lemma RegroupsAbove(c: Client, ts: seq<Tier>, u: nat, i: nat, j: nat, r: Role, q: Role)
    requires Consistent(c) && Layout(c, ts) && Room(c, |Managed(ts)|) && Realisable(ts, u)
    requires In(ts, i, r) && In(ts, j, q) && i <= j < u
    ensures RankedAs(NewPositions(c, ts), i, j, r, q)
  {
    RealisedPosition(c, ts, u, i, r);
    RealisedPosition(c, ts, u, j, q);
  }

  /** A tier out of reach stays above the caller, and a managed one below. */
  lemma RegroupsAcross(c: Client, ts: seq<Tier>, u: nat, i: nat, j: nat, r: Role, q: Role)
    requires Consistent(c) && Layout(c, ts) && Room(c, |Managed(ts)|) && Realisable(ts, u)
    requires In(ts, i, r) && In(ts, j, q) && i < u <= j
    ensures RankedAs(NewPositions(c, ts), i, j, r, q)
  {
    RealisedPosition(c, ts, u, i, r);
    RealisedPosition(c, ts, u, j, q);
    assert !r.canManage;
    ManagedSuffix(ts, u, j);
    OutOfReachIsAbove(c, |Managed(ts)|, r, j - u);
  }

  lemma OutOfReachIsAbove(c: Client, n: nat, r: Role, k: nat)
    requires Consistent(c) && Ranked(c, r) && !r.canManage && 0 < n && Room(c, n)
    ensures TierPosition(c, n, k) < r.position
  {
    assert !c.isOwner && r.position >= c.myPosition;
    NewRankBelowCaller(c, n, k);
  }

  /** Managed tiers get decreasing positions. */
  lemma RegroupsBelow(c: Client, ts: seq<Tier>, u: nat, i: nat, j: nat, r: Role, q: Role)
    requires Consistent(c) && Layout(c, ts) && Room(c, |Managed(ts)|) && Realisable(ts, u)
    requires In(ts, i, r) && In(ts, j, q) && u <= i <= j
    ensures RankedAs(NewPositions(c, ts), i, j, r, q)
  {
    PlacedBelow(c, ts, u, i, r, NewPositions(c, ts), |Managed(ts)|);
    PlacedBelow(c, ts, u, j, q, NewPositions(c, ts), |Managed(ts)|);
    TiersRank(c, |Managed(ts)|, NewPositions(c, ts), u, i, j, r, q);
  }

  lemma PlacedBelow(c: Client, ts: seq<Tier>, u: nat, i: nat, r: Role, p: map<string, int>, n: nat)
    requires Consistent(c) && Layout(c, ts) && n == |Managed(ts)| && Room(c, n) && Realisable(ts, u) && p == NewPositions(c, ts)
    requires In(ts, i, r) && u <= i
    ensures r.id in p && p[r.id] == TierPosition(c, n, i - u)
  {
    RealisedPosition(c, ts, u, i, r);
  }

  lemma TiersRank(c: Client, n: nat, p: map<string, int>, u: nat, i: nat, j: nat, r: Role, q: Role)
    requires u <= i <= j && r.id in p && q.id in p
    requires p[r.id] == TierPosition(c, n, i - u) && p[q.id] == TierPosition(c, n, j - u)
    ensures RankedAs(p, i, j, r, q)
  {
    if i < j {
      PositionsDecrease(c, n, i - u, j - u);
    }
  }

  lemma RegroupsDownwards(c: Client, ts: seq<Tier>, u: nat, i: nat, j: nat, r: Role, q: Role)
    requires Consistent(c) && Layout(c, ts) && Room(c, |Managed(ts)|) && Realisable(ts, u)
    requires In(ts, i, r) && In(ts, j, q) && i <= j
    ensures RankedAs(NewPositions(c, ts), i, j, r, q)
  {
    if j < u {
      RegroupsAbove(c, ts, u, i, j, r, q);
    } else if i < u {
      RegroupsAcross(c, ts, u, i, j, r, q);
    } else {
      RegroupsBelow(c, ts, u, i, j, r, q);
    }
  }

  /** Renumbering a realisable layout makes the stored positions rank every two roles as their tiers do. */
  lemma RegroupsAsLaidOut(c: Client, ts: seq<Tier>, u: nat, i: nat, j: nat, r: Role, q: Role)
    requires Consistent(c) && Layout(c, ts) && Room(c, |Managed(ts)|) && Realisable(ts, u)
    requires In(ts, i, r) && In(ts, j, q)
    ensures RankedAs(NewPositions(c, ts), i, j, r, q)
  {
    if i <= j {
      RegroupsDownwards(c, ts, u, i, j, r, q);
    } else {
      RegroupsDownwards(c, ts, u, j, i, q, r);
    }
  }

  lemma NewRankBelowCaller(c: Client, n: nat, k: nat)
    requires 0 < n && Room(c, n)
    ensures c.isOwner || TierPosition(c, n, k) < c.myPosition
  {
    RenumberedAccepted(c, n, 0);
    if k > 0 {
      PositionsDecrease(c, n, 0, k);
    }
  }
}
