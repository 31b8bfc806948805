/** The role page's own procedures, each proved to produce what the models of its edits say. */
module RolePage {
  import opened Wrappers
  import opened RoleModel
  import opened RoleRenumbering
  import opened RoleRanks
  import opened RoleDrop
  import opened RoleMove

  // ----- Grouping -----

  function InsertDescending(x: int, s: seq<int>): (t: seq<int>)
    ensures forall y :: y in t <==> y == x || y in s
  {
    if s == [] || x > s[0] then [x] + s else [s[0]] + InsertDescending(x, s[1..])
  }

  predicate Descending(s: seq<int>) {
    forall i, j :: 0 <= i < j < |s| ==> s[i] > s[j]
  }

  lemma ConsKeepsDescending(h: int, s: seq<int>)
    requires Descending(s) && forall y :: y in s ==> h > y
    ensures Descending([h] + s)
  {
    var t := [h] + s;
    forall i, j | 0 <= i < j < |t|
      ensures t[i] > t[j]
    {
      assert t[j] == s[j - 1] && s[j - 1] in s;
    }
  }

  lemma HeadIsGreatest(s: seq<int>, y: int)
    requires Descending(s) && s != [] && y in s[1..]
    ensures s[0] > y
  {
    var k :| 0 <= k < |s[1..]| && s[1..][k] == y;
    assert s[k + 1] == y;
  }

  lemma {:induction false} InsertKeepsDescending(x: int, s: seq<int>)
    requires Descending(s) && x !in s
    ensures Descending(InsertDescending(x, s))
  {
    if s != [] {
      assert Descending(s[1..]);
      forall y | y in s[1..]
        ensures s[0] > y
      {
        HeadIsGreatest(s, y);
      }
      assert s == [s[0]] + s[1..];
      if x > s[0] {
        ConsKeepsDescending(x, s);
      } else {
        InsertKeepsDescending(x, s[1..]);
        ConsKeepsDescending(s[0], InsertDescending(x, s[1..]));
      }
    }
  }

  /** The descending sort of positions that are all different. */
  method SortDescending(order: seq<int>) returns (sorted: seq<int>)
    requires NoRepeats(order)
    ensures Descending(sorted)
    ensures forall y :: y in sorted <==> y in order
  {
    sorted := [];
    for i := 0 to |order|
      invariant Descending(sorted)
      invariant forall y :: y in sorted <==> y in order[..i]
    {
      InsertKeepsDescending(order[i], sorted);
      sorted := InsertDescending(order[i], sorted);
    }
  }

  method BuildTiers(c: Client) returns (tiers: seq<Tier>)
    requires Consistent(c)
    ensures IsTiers(c, tiers)
  {
    var byPos: map<int, seq<Role>> := map[];
    var order: seq<int> := [];
    for i := 0 to |c.roles|
      invariant NoRepeats(order)
      invariant forall p :: p in order <==> p in byPos
      invariant forall p, r :: p in byPos && r in byPos[p] ==> r in c.roles[..i] && !r.isEveryone && r.position == p
      invariant forall p :: p in byPos ==> byPos[p] != [] && NoRepeats(byPos[p])
      invariant forall r :: r in c.roles[..i] && !r.isEveryone ==> r.position in byPos && r in byPos[r.position]
    {
      var r := c.roles[i];
      assert c.roles[..i + 1] == c.roles[..i] + [r];
      assert r !in c.roles[..i];
      if !r.isEveryone {
        if r.position !in byPos {
          byPos := byPos[r.position := []];
          order := order + [r.position];
        }
        byPos := byPos[r.position := byPos[r.position] + [r]];
      }
    }
    assert c.roles[..|c.roles|] == c.roles;
    order := SortDescending(order);
    tiers := [];
    for i := 0 to |order|
      invariant |tiers| == i
      invariant forall k :: 0 <= k < i ==> order[k] in byPos && tiers[k] == Tier(Some(order[k]), byPos[order[k]])
    {
      assert order[i] in order;
      tiers := tiers + [Tier(Some(order[i]), byPos[order[i]])];
    }
    GroupedIsTiers(c, order, byPos, tiers);
  }

  lemma GroupedIsTiers(c: Client, order: seq<int>, byPos: map<int, seq<Role>>, tiers: seq<Tier>)
    requires Descending(order) && |tiers| == |order|
    requires forall p :: p in order <==> p in byPos
    requires forall p, r :: p in byPos && r in byPos[p] ==> Ranked(c, r) && r.position == p
    requires forall p :: p in byPos ==> byPos[p] != [] && NoRepeats(byPos[p])
    requires forall r :: Ranked(c, r) ==> r.position in byPos && r in byPos[r.position]
    requires forall k :: 0 <= k < |order| ==> order[k] in byPos && tiers[k] == Tier(Some(order[k]), byPos[order[k]])
    ensures IsTiers(c, tiers)
  {
    forall i, r {:trigger In(tiers, i, r)} | In(tiers, i, r)
      ensures Ranked(c, r) && r.position == order[i]
    {
      assert order[i] in order;
    }
    forall i | 0 <= i < |tiers|
      ensures tiers[i].roles != [] && NoRepeats(tiers[i].roles)
    {
      assert order[i] in order;
    }
    forall r {:trigger Ranked(c, r)} | Ranked(c, r)
      ensures exists i :: In(tiers, i, r)
    {
      var i :| 0 <= i < |order| && order[i] == r.position;
      assert In(tiers, i, r);
    }
  }

  // ----- Renumbering -----

  method ComputeTierPositionUpdates(c: Client, tiers: seq<Tier>) returns (updates: seq<Update>)
    ensures updates == Renumber(c, tiers)
    ensures Managed(tiers) == [] ==> updates == []
    ensures Managed(tiers) != [] ==> exists at, gap :: SpreadBy(c, at, gap) && Sends(updates, Managed(tiers), at)
  {
    if Managed(tiers) != [] {
      RenumberIsSpread(c, tiers);
    }
    var managed := Managed(tiers);
    updates := [];
    if managed == [] {
      return;
    }
    var count, base, step := |managed|, 0, 0;
    if c.isOwner || c.myPosition > 100000 {
      base, step := count * 10, 10;
    } else {
      var highest := c.myPosition - 1;
      step := Max(1, (highest + 1) / (count + 1));
      base := highest;
    }
    for i := 0 to count
      invariant updates == UpTo(c, managed, i)
    {
      var pos := base - i * step;
      assert pos == TierPosition(c, count, i);
      var roles := managed[i].roles;
      ghost var before := updates;
      for k := 0 to |roles|
        invariant updates == before + TierUpdates(roles[..k], pos)
      {
        TierUpdatesAppend(roles[..k], roles[k], pos);
        assert roles[..k] + [roles[k]] == roles[..k + 1];
        if roles[k].position != pos {
          updates := updates + [Update(roles[k].id, pos)];
        }
      }
      assert roles[..|roles|] == roles;
    }
  }

  lemma {:induction false} TierUpdatesAppend(roles: seq<Role>, r: Role, pos: int)
    ensures TierUpdates(roles + [r], pos) ==
            TierUpdates(roles, pos) + (if r.position != pos then [Update(r.id, pos)] else [])
  {
    if roles == [] {
      assert [] + [r] == [r];
      assert TierUpdates([r], pos) == (if r.position != pos then [Update(r.id, pos)] else []) + TierUpdates([], pos);
    } else {
      TierUpdatesAppend(roles[1..], r, pos);
      assert (roles + [r])[1..] == roles[1..] + [r];
    }
  }

  /** Empty tiers are dropped before the rest is renumbered. */
  function Filled(tiers: seq<Tier>): seq<Tier> {
    if tiers == [] then [] else (if tiers[0].roles != [] then [tiers[0]] else []) + Filled(tiers[1..])
  }

  lemma {:induction false} FilledIdentity(tiers: seq<Tier>)
    requires forall i :: 0 <= i < |tiers| ==> tiers[i].roles != []
    ensures Filled(tiers) == tiers
  {
    if tiers != [] {
      FilledIdentity(tiers[1..]);
    }
  }

  lemma {:induction false} FilledConcat(a: seq<Tier>, b: seq<Tier>)
    ensures Filled(a + b) == Filled(a) + Filled(b)
  {
    if a == [] {
      assert a + b == b;
    } else {
      FilledConcat(a[1..], b);
      assert (a + b)[1..] == a[1..] + b && (a + b)[0] == a[0];
      var head := if a[0].roles != [] then [a[0]] else [];
      assert head + (Filled(a[1..]) + Filled(b)) == (head + Filled(a[1..])) + Filled(b);
    }
  }

  /** The updates sent to the server; none are sent when nothing changes. */
  method ApplyTiers(c: Client, tiers: seq<Tier>) returns (updates: seq<Update>)
    ensures updates == Renumber(c, Filled(tiers))
  {
    updates := ComputeTierPositionUpdates(c, Filled(tiers));
  }

  // ----- Drag and drop -----

  datatype Payload = DraggedRole(id: string) | DraggedTier(pos: int) | Nothing

  function WithoutIds(roles: seq<Role>, ids: seq<string>): seq<Role> {
    if roles == [] then []
    else (if roles[0].id in ids then [] else [roles[0]]) + WithoutIds(roles[1..], ids)
  }

  function IdsOf(roles: seq<Role>): (ids: seq<string>)
    ensures forall id :: id in ids <==> exists r :: r in roles && r.id == id
  {
    if roles == [] then [] else [roles[0].id] + IdsOf(roles[1..])
  }

  lemma {:induction false} WithoutIdsIsWithout(c: Client, roles: seq<Role>, moving: seq<Role>)
    requires Consistent(c)
    requires forall r :: r in roles || r in moving ==> Ranked(c, r)
    ensures WithoutIds(roles, IdsOf(moving)) == Without(roles, moving)
  {
    if roles != [] {
      var r := roles[0];
      if r.id in IdsOf(moving) {
        var q :| q in moving && q.id == r.id;
        SameId(c, r, q);
      }
      WithoutIdsIsWithout(c, roles[1..], moving);
    }
  }

  lemma {:induction false} WithoutNone(roles: seq<Role>, moving: seq<Role>)
    requires forall r :: r in roles ==> r !in moving
    ensures Without(roles, moving) == roles
  {
    if roles != [] {
      WithoutNone(roles[1..], moving);
    }
  }

  /** The tier list after the first `i` tiers have been stripped of the dragged roles. */
  function Stripped(d: Drop, i: nat): seq<Tier>
    requires d.WellFormed() && i <= |d.tiers|
  {
    if i <= d.src then d.tiers[..i]
    else if d.Empties() then d.tiers[..d.src] + d.tiers[d.src + 1..i]
    else d.tiers[..i][d.src := Tier(d.tiers[d.src].pos, d.Kept())]
  }

  lemma StrippedNext(d: Drop, i: nat)
    requires d.WellFormed() && i < |d.tiers|
    ensures Stripped(d, i + 1) ==
            if i != d.src then Stripped(d, i) + [d.tiers[i]]
            else if d.Empties() then Stripped(d, i)
            else Stripped(d, i) + [Tier(d.tiers[i].pos, d.Kept())]
  {
  }

  /** What one tier keeps. */
  lemma StripOne(c: Client, d: Drop, i: nat)
    requires Consistent(c) && d.WellFormed() && IsTiers(c, d.tiers) && i < |d.tiers|
    ensures WithoutIds(d.tiers[i].roles, IdsOf(d.moving)) == if i == d.src then d.Kept() else d.tiers[i].roles
    ensures d.tiers[i].roles != []
  {
    forall r | r in d.tiers[i].roles || r in d.moving
      ensures Ranked(c, r)
    {
      assert In(d.tiers, if r in d.moving then d.src else i, r);
    }
    WithoutIdsIsWithout(c, d.tiers[i].roles, d.moving);
    if i != d.src {
      forall r | r in d.tiers[i].roles
        ensures r !in d.moving
      {
        assert In(d.tiers, i, r) && (In(d.tiers, d.src, r) ==> i == d.src);
      }
      WithoutNone(d.tiers[i].roles, d.moving);
    }
  }

  /** Carries out a drop on the tier list. */
  method Rearrange(c: Client, d: Drop) returns (out: seq<Tier>)
    requires Consistent(c) && d.WellFormed() && IsTiers(c, d.tiers)
    ensures out == d.Result()
  {
    var tiers, movingIds, insertIdx := d.tiers, IdsOf(d.moving), d.Raw() as int;
    out := [];
    for i := 0 to |tiers|
      invariant out == Stripped(d, i)
      invariant insertIdx == if i > d.src && d.Empties() && d.src < d.Raw() then d.Raw() - 1 else d.Raw()
    {
      StripOne(c, d, i);
      StrippedNext(d, i);
      var kept := WithoutIds(tiers[i].roles, movingIds);
      if kept == [] {
        if i < insertIdx {
          insertIdx := insertIdx - 1;
        }
      } else {
        out := out + [Tier(tiers[i].pos, kept)];
      }
    }
    out := Reinsert(d, out, insertIdx);
  }

  method Reinsert(d: Drop, core: seq<Tier>, index: int) returns (out: seq<Tier>)
    requires d.WellFormed() && core == Stripped(d, |d.tiers|)
    requires index == if d.Empties() && d.src < d.Raw() then d.Raw() - 1 else d.Raw()
    ensures out == d.Result()
  {
    assert core == d.Core();
    var insertIdx := index;
    if insertIdx < 0 {
      insertIdx := 0;
    }
    if insertIdx > |core| {
      insertIdx := |core|;
    }
    if d.mode == Join && insertIdx < |core| {
      out := core[insertIdx := Tier(core[insertIdx].pos, core[insertIdx].roles + d.moving)];
    } else {
      out := core[..insertIdx] + [Tier(None, d.moving)] + core[insertIdx..];
    }
  }

  /** The roles a drag takes along, all from tier `src`; none when it is refused. */
  method PickUp(c: Client, tiers: seq<Tier>, payload: Payload) returns (src: nat, moving: seq<Role>)
    requires Consistent(c) && IsTiers(c, tiers)
    ensures moving != [] ==> src < |tiers| && forall r :: r in moving ==> r in tiers[src].roles && r.canManage
    ensures moving != [] ==>
              match payload
              case DraggedRole(id) => exists r :: Ranked(c, r) && r.id == id && moving == [r]
              case DraggedTier(pos) => forall r :: r in moving <==> Ranked(c, r) && r.position == pos
              case Nothing => false
    ensures moving == [] ==>
              match payload
              case DraggedRole(id) => forall r :: Ranked(c, r) && r.id == id ==> !r.canManage
              case DraggedTier(pos) => forall r :: Ranked(c, r) && r.position == pos ==> !r.canManage
              case Nothing => true
  {
    src, moving := 0, [];
    match payload {
      case DraggedRole(id) =>
        var found, r := RoleById(c, id);
        if !found || r.isEveryone || !r.canManage {
          assert forall q :: Ranked(c, q) && q.id == id ==> found && q == r by {
            forall q | Ranked(c, q) && q.id == id
              ensures found && q == r
            {
              assert RankedById(c, id) == q;
            }
          }
          return;
        }
        src := TierIndexFor(c, tiers, r);
        moving := [r];
      case DraggedTier(pos) =>
        src := TierAt(c, tiers, pos);
        if src == |tiers| {
          return;
        }
        moving := tiers[src].roles;
        assert In(tiers, src, moving[0]);
        if !moving[0].canManage {
          assert Ranked(c, moving[0]) && moving[0].position == pos;
          moving := [];
          return;
        }
        forall r | r in moving
          ensures r.canManage
        {
          assert In(tiers, src, r);
        }
        forall r | Ranked(c, r) && r.position == pos
          ensures r in moving
        {
          var i :| In(tiers, i, r);
        }
        forall r | r in moving
          ensures Ranked(c, r) && r.position == pos
        {
          assert In(tiers, src, r);
        }
      case Nothing =>
        return;
    }
  }

  /**
    A drop on the page: `targetPos` is the tier the mouse is over, or absent
    in the trailing zone. What is sent realises the request exactly when the
    drop is a realised one; `d` is the drop as the code reads it.
  */
  method DropRolePayload(c: Client, payload: Payload, targetPos: Option<int>, mode: Mode)
      returns (sent: Option<seq<Update>>, ghost d: Drop)
    requires Consistent(c)
    ensures sent.Some? ==>
              && d.WellFormed() && IsTiers(c, d.tiers)
              && (forall r :: r in d.moving ==> r.canManage)
              && sent.value == Renumber(c, d.Result())
    ensures sent.Some? ==> (targetPos.Some? ==> d.mode == mode) && (targetPos.None? ==> Target(d) == None)
    ensures sent.Some? && targetPos.Some? ==>
              Target(d) == if exists r :: Ranked(c, r) && r.position == targetPos.value then targetPos else None
    ensures sent.Some? ==>
              match payload
              case DraggedRole(id) => exists r :: Ranked(c, r) && r.id == id && d.moving == [r]
              case DraggedTier(pos) => forall r :: r in d.moving <==> Ranked(c, r) && r.position == pos
              case Nothing => false
    ensures sent.None? ==>
              match payload
              case DraggedRole(id) => forall r :: Ranked(c, r) && r.id == id ==> !r.canManage
              case DraggedTier(pos) => forall r :: Ranked(c, r) && r.position == pos ==> !r.canManage
              case Nothing => true
    ensures sent.Some? && Room(c, |Managed(d.Result())|) ==>
              (Intended(Positions(c), Served(c, Positions(c), sent.value), Ids(d.moving), Target(d), d.mode) <==> Realised(d))
  {
    sent, d := None, Drop([], 0, [], 0, mode);
    var tiers := BuildTiers(c);
    var src, moving := PickUp(c, tiers, payload);
    if moving == [] {
      return;
    }
    var anchor, m := |tiers|, Below;
    if targetPos.Some? {
      anchor := TierAt(c, tiers, targetPos.value);
      m := mode;
    }
    d := Drop(tiers, src, moving, anchor, m);
    var out := Rearrange(c, Drop(tiers, src, moving, anchor, m));
    ResultIsLayout(c, d);
    FilledIdentity(out);
    var updates := ApplyTiers(c, out);
    sent := Some(updates);
    if Room(c, |Managed(d.Result())|) {
      DropIsIntendedIff(c, d);
    }
  }

  method RoleById(c: Client, id: string) returns (found: bool, r: Role)
    ensures found ==> r in c.roles && r.id == id
    ensures !found ==> forall q :: q in c.roles ==> q.id != id
  {
    found, r := false, Role(id, 0, false, false);
    for i := 0 to |c.roles|
      invariant forall q :: q in c.roles[..i] ==> q.id != id
    {
      if c.roles[i].id == id {
        return true, c.roles[i];
      }
    }
  }

  /** The tier of a ranked role. */
  method TierIndexFor(c: Client, tiers: seq<Tier>, role: Role) returns (idx: nat)
    requires IsTiers(c, tiers) && Ranked(c, role)
    ensures In(tiers, idx, role)
  {
    idx := 0;
    var i :| In(tiers, i, role);
    while role !in tiers[idx].roles
      invariant idx <= i
      decreases i - idx
    {
      idx := idx + 1;
    }
  }

  /** The tier at a position, or one past the last. */
  method TierAt(c: Client, tiers: seq<Tier>, pos: int) returns (idx: nat)
    requires IsTiers(c, tiers)
    ensures idx <= |tiers|
    ensures idx < |tiers| ==> tiers[idx].pos == Some(pos)
    ensures idx < |tiers| <==> exists r :: Ranked(c, r) && r.position == pos
  {
    idx := |tiers|;
    for i := 0 to |tiers|
      invariant idx == |tiers| ==> forall k :: 0 <= k < i ==> tiers[k].pos.value != pos
      invariant idx <= |tiers| && (idx < |tiers| ==> tiers[idx].pos == Some(pos))
    {
      if tiers[i].pos == Some(pos) {
        idx := i;
      }
    }
    if idx < |tiers| {
      assert In(tiers, idx, tiers[idx].roles[0]);
    } else {
      forall r | Ranked(c, r)
        ensures r.position != pos
      {
        var i :| In(tiers, i, r);
      }
    }
  }

  // ----- Arrow buttons -----

  /** The tier list with its tier `idx` left empty, filtered. */
  lemma EmptiedTierDropsOut(ts: seq<Tier>, idx: nat, t: Tier)
    requires idx < |ts| && t.roles == []
    requires forall i :: 0 <= i < |ts| ==> i != idx ==> ts[i].roles != []
    ensures Filled(ts[idx := t]) == ts[..idx] + ts[idx + 1..]
  {
    assert ts[idx := t] == ts[..idx] + ([t] + ts[idx + 1..]);
    FilledAround(ts[..idx], t, ts[idx + 1..]);
  }

  lemma FilledAround(left: seq<Tier>, t: Tier, right: seq<Tier>)
    requires t.roles == []
    requires forall i :: 0 <= i < |left| ==> left[i].roles != []
    requires forall i :: 0 <= i < |right| ==> right[i].roles != []
    ensures Filled(left + ([t] + right)) == left + right
  {
    FilledConcat(left, [t] + right);
    FilledSkip([t] + right, right);
    FilledIdentity(left);
    FilledIdentity(right);
  }

  lemma FilledSkip(ts: seq<Tier>, rest: seq<Tier>)
    requires ts != [] && ts[0].roles == [] && rest == ts[1..]
    ensures Filled(ts) == Filled(rest)
  {
    assert Filled(ts) == [] + Filled(ts[1..]);
  }

  /** A role that shares its tier moves out into one of its own. */
  lemma PeelLayout(c: Client, ts: seq<Tier>, idx: nat, role: Role, up: bool)
    requires Selected(c, ts, idx, role) && |ts[idx].roles| > 1
    ensures Arrow(ts, idx, role, up).WellFormed()
    ensures var at, stripped := if up then idx else idx + 1, ts[idx := Tier(ts[idx].pos, Without(ts[idx].roles, [role]))];
            Filled(stripped[..at] + [Tier(None, [role])] + stripped[at..]) == Arrow(ts, idx, role, up).Result()
  {
    var d := Arrow(ts, idx, role, up);
    var other := if ts[idx].roles[0] == role then ts[idx].roles[1] else ts[idx].roles[0];
    assert other in ts[idx].roles && other != role;
    assert other in d.Kept();
    ResultIsLayout(c, d);
    FilledIdentity(d.Result());
  }

  lemma AloneIsWhole(c: Client, ts: seq<Tier>, idx: nat, role: Role)
    requires Selected(c, ts, idx, role) && |ts[idx].roles| == 1
    ensures ts[idx].roles == [role] && Without(ts[idx].roles, [role]) == []
  {
  }

  /** A role on its own moves into the neighbouring tier. */
  lemma MergeLayout(c: Client, ts: seq<Tier>, idx: nat, role: Role, up: bool)
    requires Selected(c, ts, idx, role) && |ts[idx].roles| == 1
    requires 0 <= Neighbour(idx, up) < |ts|
    ensures Arrow(ts, idx, role, up).WellFormed()
    ensures var t := Neighbour(idx, up);
            Filled(ts[idx := Tier(ts[idx].pos, [])][t := Tier(ts[t].pos, ts[t].roles + [role])])
            == Arrow(ts, idx, role, up).Result()
  {
    var t := Neighbour(idx, up);
    AloneIsWhole(c, ts, idx, role);
    var joined := ts[t := Tier(ts[t].pos, ts[t].roles + [role])];
    EmptiedTierDropsOut(joined, idx, Tier(ts[idx].pos, []));
    assert joined[idx := Tier(ts[idx].pos, [])] ==
           ts[idx := Tier(ts[idx].pos, [])][t := Tier(ts[t].pos, ts[t].roles + [role])];
    MergeResult(ts, idx, role, up);
  }

  lemma MergeResult(ts: seq<Tier>, idx: nat, role: Role, up: bool)
    requires idx < |ts| && ts[idx].roles == [role] && Without([role], [role]) == []
    requires 0 <= Neighbour(idx, up) < |ts|
    ensures Arrow(ts, idx, role, up).WellFormed()
    ensures var t := Neighbour(idx, up);
            var joined := ts[t := Tier(ts[t].pos, ts[t].roles + [role])];
            Arrow(ts, idx, role, up).Result() == joined[..idx] + joined[idx + 1..]
  {
    var d := Arrow(ts, idx, role, up);
    assert d.Core() == ts[..idx] + ts[idx + 1..] && d.Joins();
    assert d.Index() == if up then idx - 1 else idx;
  }

  /** At the edge it becomes the new strongest or weakest tier. */
  lemma EdgeLayout(c: Client, ts: seq<Tier>, idx: nat, role: Role, up: bool)
    requires Selected(c, ts, idx, role) && |ts[idx].roles| == 1
    requires !(0 <= Neighbour(idx, up) < |ts|)
    ensures Arrow(ts, idx, role, up).WellFormed()
    ensures var stripped, own := ts[idx := Tier(ts[idx].pos, [])], [Tier(None, [role])];
            Filled(if up then own + stripped else stripped + own) == Arrow(ts, idx, role, up).Result()
  {
    AloneIsWhole(c, ts, idx, role);
    var stripped, own := ts[idx := Tier(ts[idx].pos, [])], [Tier(None, [role])];
    EmptiedTierDropsOut(ts, idx, Tier(ts[idx].pos, []));
    FilledIdentity(own);
    if up {
      FilledConcat(own, stripped);
    } else {
      FilledConcat(stripped, own);
    }
    EdgeResult(ts, idx, role, up);
  }

  lemma EdgeResult(ts: seq<Tier>, idx: nat, role: Role, up: bool)
    requires idx < |ts| && ts[idx].roles == [role] && Without([role], [role]) == []
    requires !(0 <= Neighbour(idx, up) < |ts|)
    ensures Arrow(ts, idx, role, up).WellFormed()
    ensures var rest, own := ts[..idx] + ts[idx + 1..], [Tier(None, [role])];
            Arrow(ts, idx, role, up).Result() == if up then own + rest else rest + own
  {
    var d := Arrow(ts, idx, role, up);
    assert d == Drop(ts, idx, [role], idx, if up then Above else Below);
    assert d.Kept() == [];
    EdgeDrop(d, up);
  }

  lemma EdgeDrop(d: Drop, up: bool)
    requires d.WellFormed() && d.Empties()
    requires if up then d.src == 0 && d.Raw() == 0 && d.mode != Join else d.Raw() >= |d.tiers|
    ensures var rest, own := d.tiers[..d.src] + d.tiers[d.src + 1..], [Tier(None, d.moving)];
            d.Result() == if up then own + rest else rest + own
  {
    EdgeIndex(d, up);
    Inserted(d, d.Core(), d.Index());
    if up {
      AtStart(d.Core(), Tier(None, d.moving));
    } else {
      AtEnd(d.Core(), Tier(None, d.moving));
    }
  }

  lemma Inserted(d: Drop, core: seq<Tier>, k: nat)
    requires d.WellFormed() && !d.Joins() && core == d.Core() && k == d.Index()
    ensures d.Result() == core[..k] + [Tier(None, d.moving)] + core[k..]
  {
  }

  lemma EdgeIndex(d: Drop, up: bool)
    requires d.WellFormed() && d.Empties()
    requires if up then d.src == 0 && d.Raw() == 0 && d.mode != Join else d.Raw() >= |d.tiers|
    ensures d.Core() == d.tiers[..d.src] + d.tiers[d.src + 1..] && !d.Joins()
    ensures d.Index() == if up then 0 else |d.Core()|
  {
  }

  lemma AtStart(core: seq<Tier>, t: Tier)
    ensures core[..0] + [t] + core[0..] == [t] + core
  {
  }

  lemma AtEnd(core: seq<Tier>, t: Tier)
    ensures core[..|core|] + [t] + core[|core|..] == core + [t]
  {
  }

  /** An arrow button on the selected role: `sent` is absent when the code refuses, `ts` and `idx` are where it found the role. */
  method MoveRole(c: Client, selected: string, up: bool)
      returns (sent: Option<seq<Update>>, ghost ts: seq<Tier>, ghost idx: nat, ghost role: Role)
    requires Consistent(c)
    ensures sent.Some? ==> exists r :: Ranked(c, r) && r.id == selected && r.canManage
    ensures sent.Some? ==>
              && Selected(c, ts, idx, role) && role.id == selected
              && (|ts[idx].roles| == 1 ==> !Blocked(ts, Neighbour(idx, up)))
              && Arrow(ts, idx, role, up).WellFormed()
              && sent.value == Renumber(c, Arrow(ts, idx, role, up).Result())
    ensures sent.None? ==>
              || (forall r :: Ranked(c, r) && r.id == selected ==> !r.canManage)
              || (Selected(c, ts, idx, role) && role.id == selected && |ts[idx].roles| == 1 && Blocked(ts, Neighbour(idx, up)))
    ensures sent.Some? && Room(c, |Managed(Arrow(ts, idx, role, up).Result())|) ==>
              Moved(Positions(c), Served(c, Positions(c), sent.value), selected, up)
  {
    sent, ts, idx, role := None, [], 0, Role(selected, 0, false, false);
    var found, r := RoleById(c, selected);
    if !found || r.isEveryone || !r.canManage {
      assert forall q :: Ranked(c, q) && q.id == selected ==> found && q == r by {
        forall q | Ranked(c, q) && q.id == selected
          ensures found && q == r
        {
          assert RankedById(c, selected) == q;
        }
      }
      return;
    }
    var tiers := BuildTiers(c);
    var i := TierIndexFor(c, tiers, r);
    ts, idx, role := tiers, i, r;
    var shared := |tiers[i].roles| > 1;
    assert tiers[i].roles != [];
    var newTiers := tiers[i := Tier(tiers[i].pos, Without(tiers[i].roles, [r]))];
    var target := Neighbour(i, up);
    if shared {
      var insertAt := if up then i else i + 1;
      newTiers := newTiers[..insertAt] + [Tier(None, [r])] + newTiers[insertAt..];
      PeelLayout(c, tiers, i, r, up);
    } else {
      AloneIsWhole(c, tiers, i, r);
      if 0 <= target < |tiers| {
        if !(newTiers[target].roles != [] && newTiers[target].roles[0].canManage) {
          return;
        }
        newTiers := newTiers[target := Tier(newTiers[target].pos, newTiers[target].roles + [r])];
        MergeLayout(c, tiers, i, r, up);
      } else if up {
        newTiers := [Tier(None, [r])] + newTiers;
        EdgeLayout(c, tiers, i, r, up);
      } else {
        newTiers := newTiers + [Tier(None, [r])];
        EdgeLayout(c, tiers, i, r, up);
      }
    }
    var updates := ApplyTiers(c, newTiers);
    sent := Some(updates);
    if Room(c, |Managed(Arrow(ts, idx, role, up).Result())|) {
      ArrowMoves(c, ts, idx, role, up);
    }
  }
}
