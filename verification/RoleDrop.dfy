/** Drag and drop of a role, or of a whole tier, onto another tier. */
module RoleDrop {
  import opened Wrappers
  import opened RoleModel
  import opened RoleRenumbering
  import opened RoleRanks

  datatype Mode = Join | Above | Below

  function Without(roles: seq<Role>, moving: seq<Role>): (kept: seq<Role>)
    ensures forall r :: r in kept <==> r in roles && r !in moving
  {
    if roles == [] then []
    else (if roles[0] in moving then [] else [roles[0]]) + Without(roles[1..], moving)
  }

  /** A drop of `moving`, all from tier `src`, at tier `anchor`, or past the end. */
  datatype Drop = Drop(tiers: seq<Tier>, src: nat, moving: seq<Role>, anchor: nat, mode: Mode) {

    predicate WellFormed() {
      && src < |tiers| && anchor <= |tiers|
      && moving != [] && (forall r :: r in moving ==> r in tiers[src].roles)
    }

    function Kept(): seq<Role>
      requires WellFormed()
    {
      Without(tiers[src].roles, moving)
    }

    predicate Empties()
      requires WellFormed()
    {
      Kept() == []
    }

    /** The tiers without the moved roles, and without a tier they leave empty. */
    function Core(): seq<Tier>
      requires WellFormed()
    {
      if Empties() then tiers[..src] + tiers[src + 1..] else tiers[src := Tier(tiers[src].pos, Kept())]
    }

    function Raw(): nat {
      if mode == Below then anchor + 1 else anchor
    }

    function Index(): (k: nat)
      requires WellFormed()
      ensures k <= |Core()|
    {
      var k := if Empties() && src < Raw() then Raw() - 1 else Raw();
      if k > |Core()| then |Core()| else k
    }

    predicate Joins()
      requires WellFormed()
    {
      mode == Join && Index() < |Core()|
    }

    function Result(): (out: seq<Tier>)
      requires WellFormed()
    {
      var core, k := Core(), Index();
      if Joins() then core[k := Tier(core[k].pos, core[k].roles + moving)]
      else core[..k] + [Tier(None, moving)] + core[k..]
    }

    // ----- Where every role goes -----

    /** Tier `i` of the old list, if it survives, is number `Place(i)` of the new one. */
    function Place(i: nat): nat
      requires WellFormed()
    {
      var x := if Empties() && i > src then i - 1 else i;
      if !Joins() && x >= Index() then x + 1 else x
    }

    lemma PlaceIncreases(i: nat, j: nat)
      requires WellFormed() && i < j && !(Empties() && (i == src || j == src))
      ensures Place(i) < Place(j)
    {
    }

    /** The tier that is number `x` of the core. */
    function Before(x: nat): nat
      requires WellFormed()
    {
      if Empties() && x >= src then x + 1 else x
    }

    lemma InCore(x: nat, r: Role)
      requires WellFormed()
      ensures In(Core(), x, r) <==> In(tiers, Before(x), r) && !(Before(x) == src && r in moving)
    {
      if Empties() {
        assert x < |Core()| ==> Core()[x] == tiers[Before(x)];
        assert forall q :: q in tiers[src].roles ==> q in moving || q in Kept();
      }
    }

    lemma InResult(y: nat, r: Role)
      requires WellFormed()
      ensures var x := if !Joins() && y > Index() then y - 1 else y;
              In(Result(), y, r) <==>
                (y == Index() && r in moving) || (!(y == Index() && !Joins()) && In(Core(), x, r))
    {
    }

    lemma PlaceAfter(i: nat)
      requires WellFormed() && !(Empties() && i == src)
      ensures var x, y := if Empties() && i > src then i - 1 else i, Place(i);
              Before(x) == i && !(y == Index() && !Joins()) && x == if !Joins() && y > Index() then y - 1 else y
    {
    }

    lemma Stays(i: nat, r: Role)
      requires WellFormed() && In(tiers, i, r) && r !in moving
      ensures In(Result(), Place(i), r) && !(Empties() && i == src)
    {
      assert r in tiers[i].roles;
      assert !(Empties() && i == src);
      PlaceAfter(i);
      InCore(if Empties() && i > src then i - 1 else i, r);
      InResult(Place(i), r);
    }

    lemma Moves(r: Role)
      requires WellFormed() && r in moving
      ensures In(Result(), Index(), r)
    {
    }

    /** Nothing else is in the new list. */
    lemma ComesFrom(y: nat, r: Role) returns (i: nat)
      requires WellFormed() && Disjoint(tiers) && In(Result(), y, r)
      ensures (r in moving && y == Index()) || (r !in moving && In(tiers, i, r) && y == Place(i))
    {
      i := 0;
      InResult(y, r);
      if !(r in moving && y == Index()) {
        var x := if !Joins() && y > Index() then y - 1 else y;
        InCore(x, r);
        i := Before(x);
        if r in moving {
          assert In(tiers, src, r);
        }
      }
    }
  }

  lemma ResultHasRank(c: Client, d: Drop, y: nat, r: Role)
    requires d.WellFormed() && Layout(c, d.tiers) && In(d.Result(), y, r)
    ensures Ranked(c, r)
  {
    var i := d.ComesFrom(y, r);
    assert In(d.tiers, if r in d.moving then d.src else i, r);
  }

  lemma ResultOnce(d: Drop, y: nat, z: nat, r: Role)
    requires d.WellFormed() && Disjoint(d.tiers) && In(d.Result(), y, r) && In(d.Result(), z, r)
    ensures y == z
  {
    var i := d.ComesFrom(y, r);
    var j := d.ComesFrom(z, r);
    if r !in d.moving {
      assert i == j;
    }
  }

  lemma ResultTiersFilled(d: Drop, y: nat)
    requires d.WellFormed() && forall i :: 0 <= i < |d.tiers| ==> d.tiers[i].roles != []
    requires y < |d.Result()|
    ensures d.Result()[y].roles != []
  {
    CoreFilled(d);
    var core, k := d.Core(), d.Index();
    if !d.Joins() {
      assert d.Result()[y] == if y < k then core[y] else if y == k then Tier(None, d.moving) else core[y - 1];
    }
  }

  lemma CoreFilled(d: Drop)
    requires d.WellFormed() && forall i :: 0 <= i < |d.tiers| ==> d.tiers[i].roles != []
    ensures forall x :: 0 <= x < |d.Core()| ==> d.Core()[x].roles != []
  {
  }

  lemma ResultHasAll(c: Client, d: Drop, r: Role)
    requires d.WellFormed() && Layout(c, d.tiers) && Ranked(c, r)
    ensures exists y :: In(d.Result(), y, r)
  {
    var i :| In(d.tiers, i, r);
    if r in d.moving {
      d.Moves(r);
    } else {
      d.Stays(i, r);
    }
  }

  lemma ResultIsLayout(c: Client, d: Drop)
    requires d.WellFormed() && Layout(c, d.tiers)
    ensures Layout(c, d.Result())
  {
    forall y, r {:trigger In(d.Result(), y, r)} | In(d.Result(), y, r)
      ensures Ranked(c, r)
    {
      ResultHasRank(c, d, y, r);
    }
    forall y | 0 <= y < |d.Result()|
      ensures d.Result()[y].roles != []
    {
      ResultTiersFilled(d, y);
    }
    forall y, z, r {:trigger In(d.Result(), y, r), In(d.Result(), z, r)} | In(d.Result(), y, r) && In(d.Result(), z, r)
      ensures y == z
    {
      ResultOnce(d, y, z, r);
    }
    forall r {:trigger Ranked(c, r)} | Ranked(c, r)
      ensures exists y :: In(d.Result(), y, r)
    {
      ResultHasAll(c, d, r);
    }
  }

  // ----- What a drop means, in terms of ranks alone -----

  predicate SameOrder(x: int, y: int, x': int, y': int) {
    (x < y <==> x' < y') && (x == y <==> x' == y')
  }

  /** How a moved role at `m` must compare with a role now at `a` that was at `was`, dropped at rank `target`. */
  predicate Lands(mode: Mode, target: Option<int>, was: int, m: int, a: int) {
    match target
    case None => m < a
    case Some(t) =>
      match mode
      case Join => SameOrder(t, was, m, a)
      case Above => m != a && (m > a <==> t >= was)
      case Below => m != a && (m > a <==> t > was)
  }

  /**
    The intended effect: the roles left alone keep their order, the moved ones
    share one rank, and that rank is the requested one. This determines the
    new ordered partition completely.
  */
  ghost predicate Intended(p: map<string, int>, p': map<string, int>, moved: set<string>, target: Option<int>, mode: Mode) {
    && p'.Keys == p.Keys
    && (forall a, b :: a in p && b in p && a !in moved && b !in moved ==> SameOrder(p[a], p[b], p'[a], p'[b]))
    && (forall m, n :: m in p && n in p && m in moved && n in moved ==> p'[m] == p'[n])
    && (forall m, a :: m in p && a in p && m in moved && a !in moved ==> Lands(mode, target, p[a], p'[m], p'[a]))
  }

  function Target(d: Drop): Option<int>
    requires d.WellFormed()
  {
    if d.anchor < |d.tiers| then d.tiers[d.anchor].pos else None
  }

  predicate Reachable(ts: seq<Tier>, i: nat) {
    i < |ts| ==> IsManaged(ts[i])
  }

  /**
    The drops that do what they say: the target tier is manageable (dropping
    below a tier, the next weaker one is), and a join is not onto the very
    tier it empties while a weaker one exists.
  */
  predicate Realised(d: Drop)
    requires d.WellFormed()
  {
    && Reachable(d.tiers, d.Raw())
    && !(d.mode == Join && d.anchor == d.src && d.Empties() && d.src + 1 < |d.tiers|)
  }

  /** Manageable tiers of a role list are its weakest ones. */
  lemma {:induction false} FirstManaged(c: Client, ts: seq<Tier>, n: nat) returns (u: nat)
    requires Consistent(c) && IsTiers(c, ts) && n <= |ts|
    ensures u <= n
    ensures forall i, r {:trigger In(ts, i, r)} :: In(ts, i, r) && i < n ==> (r.canManage <==> u <= i)
  {
    if n == 0 {
      u := 0;
    } else {
      u := FirstManaged(c, ts, n - 1);
      var q := ts[n - 1].roles[0];
      assert In(ts, n - 1, q);
      if u == n - 1 && !q.canManage {
        u := n;
      } else if u < n - 1 {
        assert In(ts, u, ts[u].roles[0]);
      }
    }
  }

  /** Such a drop leaves the unmanageable tiers on top, untouched. */
  lemma ResultIsRealisable(c: Client, d: Drop, u: nat)
    requires Consistent(c) && d.WellFormed() && IsTiers(c, d.tiers) && Reachable(d.tiers, d.Raw())
    requires u <= d.src
    requires forall i, r {:trigger In(d.tiers, i, r)} :: In(d.tiers, i, r) ==> (r.canManage <==> u <= i)
    ensures Realisable(d.Result(), u)
  {
    var out := d.Result();
    assert u <= d.Raw() by {
      if d.Raw() < |d.tiers| {
        assert In(d.tiers, d.Raw(), d.tiers[d.Raw()].roles[0]);
      }
    }
    forall y, r {:trigger In(out, y, r)} | In(out, y, r)
      ensures r.canManage <==> u <= y
      ensures y < u ==> In(d.tiers, y, r)
    {
      ResultManaged(d, u, y, r);
    }
  }

  lemma ResultManaged(d: Drop, u: nat, y: nat, r: Role)
    requires d.WellFormed() && Disjoint(d.tiers) && In(d.Result(), y, r) && u <= d.src && u <= d.Raw()
    requires forall i, q {:trigger In(d.tiers, i, q)} :: In(d.tiers, i, q) ==> (q.canManage <==> u <= i)
    ensures r.canManage <==> u <= y
    ensures y < u ==> In(d.tiers, y, r)
  {
    var i := d.ComesFrom(y, r);
    if r in d.moving {
      assert In(d.tiers, d.src, r);
    }
  }

  // ----- Main result -----

  ghost function Ids(roles: seq<Role>): set<string> {
    set r | r in roles :: r.id
  }

  /** A drop the page lets through: of manageable roles, with room to renumber the outcome. */
  ghost predicate Legal(c: Client, d: Drop) {
    && Consistent(c) && d.WellFormed() && IsTiers(c, d.tiers)
    && (forall r :: r in d.moving ==> r.canManage)
    && Room(c, |Managed(d.Result())|)
  }

  lemma ManagedFromSource(c: Client, d: Drop) returns (u: nat)
    requires Legal(c, d)
    ensures u <= d.src
    ensures forall i, r {:trigger In(d.tiers, i, r)} :: In(d.tiers, i, r) ==> (r.canManage <==> u <= i)
  {
    u := FirstManaged(c, d.tiers, |d.tiers|);
    assert In(d.tiers, d.src, d.moving[0]);
  }

  lemma LeftAloneKeepOrder(c: Client, d: Drop, i: nat, j: nat, r: Role, q: Role)
    requires Legal(c, d) && Reachable(d.tiers, d.Raw())
    requires In(d.tiers, i, r) && In(d.tiers, j, q) && r !in d.moving && q !in d.moving
    ensures Ranked(c, r) && Ranked(c, q)
    ensures var p' := NewPositions(c, d.Result()); SameOrder(r.position, q.position, p'[r.id], p'[q.id])
  {
    var u := ManagedFromSource(c, d);
    ResultIsLayout(c, d);
    ResultIsRealisable(c, d, u);
    PlacesKeepOrder(d, i, j, r, q);
    RegroupsAsLaidOut(c, d.Result(), u, d.Place(i), d.Place(j), r, q);
    GroupingShowsRanks(c, d.tiers, i, j, r, q);
  }

  lemma PlacesKeepOrder(d: Drop, i: nat, j: nat, r: Role, q: Role)
    requires d.WellFormed() && In(d.tiers, i, r) && In(d.tiers, j, q) && r !in d.moving && q !in d.moving
    ensures In(d.Result(), d.Place(i), r) && In(d.Result(), d.Place(j), q)
    ensures (i < j <==> d.Place(i) < d.Place(j)) && (i == j <==> d.Place(i) == d.Place(j))
  {
    d.Stays(i, r);
    d.Stays(j, q);
    if i < j {
      d.PlaceIncreases(i, j);
    } else if j < i {
      d.PlaceIncreases(j, i);
    }
  }

  lemma MovedShareRank(c: Client, d: Drop, r: Role, q: Role)
    requires Legal(c, d) && Reachable(d.tiers, d.Raw())
    requires r in d.moving && q in d.moving
    ensures Ranked(c, r) && Ranked(c, q)
    ensures NewPositions(c, d.Result())[r.id] == NewPositions(c, d.Result())[q.id]
  {
    var u := ManagedFromSource(c, d);
    ResultIsLayout(c, d);
    ResultIsRealisable(c, d, u);
    d.Moves(r);
    d.Moves(q);
    RegroupsAsLaidOut(c, d.Result(), u, d.Index(), d.Index(), r, q);
  }

  /** The moved roles' tier against every other one, by number in the new list. */
  lemma IndexAgainstPlace(d: Drop, i: nat)
    requires d.WellFormed() && Realised(d) && i < |d.tiers| && !(d.Empties() && i == d.src)
    ensures d.anchor == |d.tiers| ==> d.Place(i) < d.Index()
    ensures d.anchor < |d.tiers| && d.mode == Join ==>
              (d.Place(i) < d.Index() <==> i < d.anchor) && (d.Place(i) == d.Index() <==> i == d.anchor)
    ensures d.anchor < |d.tiers| && d.mode == Above ==>
              d.Place(i) != d.Index() && (d.Place(i) < d.Index() <==> i < d.anchor)
    ensures d.anchor < |d.tiers| && d.mode == Below ==>
              d.Place(i) != d.Index() && (d.Place(i) < d.Index() <==> i <= d.anchor)
  {
  }

  lemma MovedLand(c: Client, d: Drop, i: nat, r: Role, q: Role)
    requires Legal(c, d) && Realised(d)
    requires r in d.moving && In(d.tiers, i, q) && q !in d.moving
    ensures Ranked(c, r) && Ranked(c, q)
    ensures var p' := NewPositions(c, d.Result()); Lands(d.mode, Target(d), q.position, p'[r.id], p'[q.id])
  {
    var u := ManagedFromSource(c, d);
    ResultIsLayout(c, d);
    ResultIsRealisable(c, d, u);
    d.Moves(r);
    d.Stays(i, q);
    RegroupsAsLaidOut(c, d.Result(), u, d.Index(), d.Place(i), r, q);
    IndexAgainstPlace(d, i);
    TierOrder(c, d.tiers, d.anchor, i, q);
  }

  lemma TierOrder(c: Client, ts: seq<Tier>, anchor: nat, i: nat, q: Role)
    requires IsTiers(c, ts) && In(ts, i, q) && anchor <= |ts|
    ensures anchor < |ts| ==> (ts[anchor].pos.value < q.position <==> i < anchor)
    ensures anchor < |ts| ==> (ts[anchor].pos.value == q.position <==> i == anchor)
  {
    assert q.position == ts[i].pos.value;
  }

  lemma RealisedDropIsIntended(c: Client, d: Drop)
    requires Legal(c, d) && Realised(d)
    ensures Intended(Positions(c), NewPositions(c, d.Result()), Ids(d.moving), Target(d), d.mode)
  {
    var p, p', moved := Positions(c), NewPositions(c, d.Result()), Ids(d.moving);
    forall a, b | a in p && b in p
      ensures a !in moved && b !in moved ==> SameOrder(p[a], p[b], p'[a], p'[b])
      ensures a in moved && b in moved ==> p'[a] == p'[b]
      ensures a in moved && b !in moved ==> Lands(d.mode, Target(d), p[b], p'[a], p'[b])
    {
      var r, q := RankedById(c, a), RankedById(c, b);
      var i :| In(d.tiers, i, r);
      var j :| In(d.tiers, j, q);
      MovedIds(c, d, r);
      MovedIds(c, d, q);
      if a !in moved && b !in moved {
        LeftAloneKeepOrder(c, d, i, j, r, q);
      } else if a in moved && b in moved {
        MovedShareRank(c, d, r, q);
      } else if a in moved {
        MovedLand(c, d, j, r, q);
      }
    }
  }

  lemma MovedIds(c: Client, d: Drop, r: Role)
    requires Consistent(c) && d.WellFormed() && Layout(c, d.tiers) && Ranked(c, r)
    ensures r.id in Ids(d.moving) <==> r in d.moving
  {
    if r.id in Ids(d.moving) {
      var q :| q in d.moving && q.id == r.id;
      assert In(d.tiers, d.src, q);
      SameId(c, r, q);
    }
  }

  lemma {:induction false} ManagedIndex(ts: seq<Tier>, x: nat) returns (k: nat)
    requires x < |ts| && IsManaged(ts[x])
    ensures k < |Managed(ts)| && Managed(ts)[k] == ts[x]
  {
    if x == 0 {
      k := 0;
    } else {
      k := ManagedIndex(ts[1..], x - 1);
      k := if IsManaged(ts[0]) then k + 1 else k;
    }
  }

  /** Dropped onto a tier out of reach, the roles stay where they were. */
  lemma JoinOutOfReach(c: Client, d: Drop, m: Role, a: Role)
    requires Legal(c, d) && !Reachable(d.tiers, d.Raw()) && d.mode == Join
    requires m in d.moving && a == d.tiers[d.Raw()].roles[0]
    ensures Ranked(c, m) && Ranked(c, a)
    ensures NewPositions(c, d.Result())[m.id] < NewPositions(c, d.Result())[a.id]
  {
    var u := ManagedFromSource(c, d);
    var i := d.Raw();
    assert In(d.tiers, i, a) && In(d.tiers, d.src, m);
    ResultIsLayout(c, d);
    d.Stays(i, a);
    d.Moves(m);
    assert d.Place(i) == d.Index() && d.Result()[i].roles[0] == a;
    UnmanagedRole(c, d.Result(), i, a);
    UnmanagedRole(c, d.Result(), i, m);
  }

  /** A new tier above its source pushes the tier that was there one place down. */
  lemma InsertedAbove(d: Drop)
    requires d.WellFormed() && d.mode != Join && d.Raw() < d.src
    ensures var i, out := d.Raw(), d.Result();
            i + 1 < |out| && out[i] == Tier(None, d.moving) && out[i + 1] == d.tiers[i]
  {
  }

  /** Dropped above a tier out of reach, they come out below it. */
  lemma InsertOutOfReach(c: Client, d: Drop, m: Role, a: Role)
    requires Legal(c, d) && !Reachable(d.tiers, d.Raw()) && d.mode != Join
    requires m in d.moving && a == d.tiers[d.Raw()].roles[0]
    ensures Ranked(c, m) && Ranked(c, a)
    ensures NewPositions(c, d.Result())[m.id] < NewPositions(c, d.Result())[a.id]
  {
    var u := ManagedFromSource(c, d);
    var i := d.Raw();
    assert In(d.tiers, i, a) && In(d.tiers, d.src, m) && i < d.src;
    ResultIsLayout(c, d);
    InsertedAbove(d);
    assert In(d.Result(), i + 1, a) && In(d.Result(), i, m);
    UnmanagedRole(c, d.Result(), i + 1, a);
    assert IsManaged(d.Result()[i]) by { assert d.moving[0] in d.moving; }
    var k := ManagedIndex(d.Result(), i);
    RenumberedRole(c, d.Result(), k, m);
    RenumberedAccepted(c, |Managed(d.Result())|, k);
  }

  /** Joined onto the tier they empty, they merge with the next weaker one. */
  lemma JoinOntoEmptied(c: Client, d: Drop, m: Role, a: Role)
    requires Legal(c, d) && !Realised(d) && Reachable(d.tiers, d.Raw())
    requires m in d.moving && a in d.tiers[d.src + 1].roles
    ensures Ranked(c, m) && Ranked(c, a)
    ensures NewPositions(c, d.Result())[m.id] == NewPositions(c, d.Result())[a.id]
  {
    var u := ManagedFromSource(c, d);
    var i := d.src + 1;
    assert In(d.tiers, i, a) && In(d.tiers, d.src, m) && a !in d.moving by {
      if a in d.moving {
        assert In(d.tiers, d.src, a);
      }
    }
    ResultIsLayout(c, d);
    ResultIsRealisable(c, d, u);
    d.Stays(i, a);
    d.Moves(m);
    RegroupsAsLaidOut(c, d.Result(), u, d.Index(), d.Place(i), m, a);
  }

  lemma UnrealisedDropIsNot(c: Client, d: Drop)
    requires Legal(c, d) && !Realised(d)
    ensures !Intended(Positions(c), NewPositions(c, d.Result()), Ids(d.moving), Target(d), d.mode)
  {
    var m, a := d.moving[0], d.tiers[if Reachable(d.tiers, d.Raw()) then d.src + 1 else d.Raw()].roles[0];
    UnrealisedMisses(c, d, m, a);
    MovedIds(c, d, m);
    MovedIds(c, d, a);
    OneMisses(Positions(c), NewPositions(c, d.Result()), Ids(d.moving), Target(d), d.mode, m.id, a.id);
  }

  lemma UnrealisedMisses(c: Client, d: Drop, m: Role, a: Role)
    requires Legal(c, d) && !Realised(d) && m in d.moving
    requires a == d.tiers[if Reachable(d.tiers, d.Raw()) then d.src + 1 else d.Raw()].roles[0]
    ensures Ranked(c, m) && Ranked(c, a) && a !in d.moving
    ensures var p' := NewPositions(c, d.Result()); !Lands(d.mode, Target(d), a.position, p'[m.id], p'[a.id])
  {
    var u := ManagedFromSource(c, d);
    var i := if Reachable(d.tiers, d.Raw()) then d.src + 1 else d.Raw();
    assert In(d.tiers, d.src, m) && In(d.tiers, i, a);
    if Reachable(d.tiers, d.Raw()) {
      JoinOntoEmptied(c, d, m, a);
    } else if d.mode == Join {
      JoinOutOfReach(c, d, m, a);
    } else {
      InsertOutOfReach(c, d, m, a);
    }
    assert i != d.src;
    assert a in d.moving ==> In(d.tiers, d.src, a);
    TierOrder(c, d.tiers, d.anchor, i, a);
  }

  lemma OneMisses(p: map<string, int>, p': map<string, int>, moved: set<string>, target: Option<int>, mode: Mode,
                  m: string, a: string)
    requires p'.Keys == p.Keys && m in p && a in p && m in moved && a !in moved
    requires !Lands(mode, target, p[a], p'[m], p'[a])
    ensures !Intended(p, p', moved, target, mode)
  {
  }

  /**
    Renumbered, stored and regrouped, a drop yields exactly the intended
    ordered partition if and only if it is one of the realised ones.
  */
  lemma DropIsIntendedIff(c: Client, d: Drop)
    requires Legal(c, d)
    ensures Intended(Positions(c), NewPositions(c, d.Result()), Ids(d.moving), Target(d), d.mode) <==> Realised(d)
  {
    if Realised(d) {
      RealisedDropIsIntended(c, d);
    } else {
      UnrealisedDropIsNot(c, d);
    }
  }

  /** Roles above the caller's reach never move. */
  lemma UnmanageableUntouched(c: Client, d: Drop, r: Role)
    requires Legal(c, d) && Reachable(d.tiers, d.Raw()) && Ranked(c, r) && !r.canManage
    ensures NewPositions(c, d.Result())[r.id] == r.position
  {
    var u := ManagedFromSource(c, d);
    ResultIsLayout(c, d);
    ResultIsRealisable(c, d, u);
    var y :| In(d.Result(), y, r);
    RealisedPosition(c, d.Result(), u, y, r);
  }
}
