/** The order in which effective role names are listed, as a property of the role graph alone. */
module RoleOrder {
  import opened Base
  import opened Roles

  // --------------------------------------------------------------------------- rank

  ghost predicate Known(all: Rows, direct: seq<RoleId>) {
    forall d | d in direct :: d in all
  }

  /** The first direct role that has `x` among its ancestors, itself included. */
  ghost function FirstRoot(all: Rows, direct: seq<RoleId>, x: RoleId): (k: nat)
    requires IsEffective(all, direct, x)
    ensures k < |direct| && Reaches(all, direct[k], x)
    ensures forall j | 0 <= j < k :: !Reaches(all, direct[j], x)
  {
    var front := direct[..|direct| - 1];
    if IsEffective(all, front, x) then FirstRoot(all, front, x) else |direct| - 1
  }

  ghost function StepsWithin(all: Rows, id: RoleId, x: RoleId, n: nat): (m: nat)
    requires Up(all, id, n) == Some(x)
    ensures Up(all, id, m) == Some(x) && forall j: nat | j < m :: Up(all, id, j) != Some(x)
    decreases n
  {
    if j: nat :| j < n && Up(all, id, j) == Some(x) then StepsWithin(all, id, x, j) else n
  }

  /** The distance from `id` up to its ancestor `x`. */
  ghost function Steps(all: Rows, id: RoleId, x: RoleId): (m: nat)
    requires Reaches(all, id, x)
    ensures Up(all, id, m) == Some(x) && forall j: nat | j < m :: Up(all, id, j) != Some(x)
  {
    var n: nat :| Up(all, id, n) == Some(x);
    StepsWithin(all, id, x, n)
  }

  /** Reached from an earlier direct role, or from the same one in fewer steps. */
  ghost predicate RankLess(all: Rows, direct: seq<RoleId>, x: RoleId, y: RoleId)
    requires IsEffective(all, direct, x) && IsEffective(all, direct, y)
  {
    var i, j := FirstRoot(all, direct, x), FirstRoot(all, direct, y);
    i < j || (i == j && Steps(all, direct[i], x) < Steps(all, direct[j], y))
  }

  // ----------------------------------------------------------------- visiting order

  /** All walks one after the other. */
  ghost function Order(all: Rows, direct: seq<RoleId>): seq<RoleId>
    requires Known(all, direct)
  {
    if direct == [] then []
    else
      var front, last := direct[..|direct| - 1], direct[|direct| - 1];
      Order(all, front) + Trail(all, last, Walked(all, front).0)
  }

  /** A walk goes up its chain step by step and meets nothing twice. */
  lemma {:induction false} TrailAt(all: Rows, id: RoleId, visited: set<RoleId>, j: nat)
    requires id in all && j < |Trail(all, id, visited)|
    ensures var x := Trail(all, id, visited)[j]; x in all && x !in visited && Up(all, id, j) == Some(x)
    ensures forall i | 0 <= i < j :: Trail(all, id, visited)[i] != Trail(all, id, visited)[j]
    decreases all.Keys - visited
  {
    if j > 0 {
      var parent := all[id].parent.value;
      TrailAt(all, parent, visited + {id}, j - 1);
      assert Up(all, id, 1) == Some(parent) by { assert Up(all, id, 0) == Some(id); }
      UpAdd(all, id, 1, j - 1);
    }
  }

  /** The place in a walk is the distance from its start. */
  lemma TrailSteps(all: Rows, id: RoleId, visited: set<RoleId>, j: nat)
    requires id in all && j < |Trail(all, id, visited)|
    ensures var x := Trail(all, id, visited)[j]; Reaches(all, id, x) && Steps(all, id, x) == j
  {
    var x := Trail(all, id, visited)[j];
    TrailAt(all, id, visited, j);
    var m := Steps(all, id, x);
    if m < j { TrailAt(all, id, visited, m); }
  }

  lemma {:induction false} OrderElements(all: Rows, direct: seq<RoleId>)
    requires Known(all, direct)
    ensures Elements(Order(all, direct)) == Walked(all, direct).0
  {
    if direct != [] {
      OrderElements(all, direct[..|direct| - 1]);
    }
  }

  /** A role is visited exactly when it is effective. */
  lemma VisitedExact(all: Rows, direct: seq<RoleId>, x: RoleId)
    requires Known(all, direct)
    ensures x in Walked(all, direct).0 <==> IsEffective(all, direct, x)
  {
    if x in Walked(all, direct).0 {
      WalkedEffective(all, direct, x);
    } else if IsEffective(all, direct, x) {
      var k :| 0 <= k < |direct| && Reaches(all, direct[k], x);
      var n: nat :| Up(all, direct[k], n) == Some(x);
      WalkedClosed(all, direct);
      ClosedHoldsAncestors(all, Walked(all, direct).0, direct[k], n);
    }
  }

  lemma EffectiveLonger(all: Rows, direct: seq<RoleId>, x: RoleId)
    requires direct != [] && IsEffective(all, direct[..|direct| - 1], x)
    ensures IsEffective(all, direct, x) && FirstRoot(all, direct, x) == FirstRoot(all, direct[..|direct| - 1], x)
  {
    var front := direct[..|direct| - 1];
    var k :| 0 <= k < |front| && Reaches(all, front[k], x);
    assert Reaches(all, direct[k], x);
  }

  /** The roles of the last walk are those that no earlier direct role reaches. */
  lemma LastWalk(all: Rows, direct: seq<RoleId>, j: nat)
    requires Known(all, direct) && direct != []
    requires j < |Trail(all, direct[|direct| - 1], Walked(all, direct[..|direct| - 1]).0)|
    ensures var front, last := direct[..|direct| - 1], direct[|direct| - 1];
            var x := Trail(all, last, Walked(all, front).0)[j];
            && IsEffective(all, direct, x) && FirstRoot(all, direct, x) == |direct| - 1
            && Steps(all, direct[|direct| - 1], x) == j
  {
    var front, last := direct[..|direct| - 1], direct[|direct| - 1];
    var x := Trail(all, last, Walked(all, front).0)[j];
    TrailAt(all, last, Walked(all, front).0, j);
    TrailSteps(all, last, Walked(all, front).0, j);
    VisitedExact(all, front, x);
    assert Reaches(all, direct[|direct| - 1], x);
  }

  /** The visiting order is the rank order. */
  lemma {:induction false} OrderRanked(all: Rows, direct: seq<RoleId>, i: nat, j: nat)
    requires Known(all, direct) && i < j < |Order(all, direct)|
    ensures IsEffective(all, direct, Order(all, direct)[i]) && IsEffective(all, direct, Order(all, direct)[j])
    ensures RankLess(all, direct, Order(all, direct)[i], Order(all, direct)[j])
  {
    var front := direct[..|direct| - 1];
    var earlier, trail := Order(all, front), Trail(all, direct[|direct| - 1], Walked(all, front).0);
    assert Order(all, direct) == earlier + trail;
    if j < |earlier| {
      OrderRanked(all, front, i, j);
      EffectiveLonger(all, direct, earlier[i]);
      EffectiveLonger(all, direct, earlier[j]);
    } else {
      LastWalk(all, direct, j - |earlier|);
      if i < |earlier| {
        OrderEffective(all, front, i);
        EffectiveLonger(all, direct, earlier[i]);
      } else {
        LastWalk(all, direct, i - |earlier|);
      }
    }
  }

  lemma OrderEffective(all: Rows, direct: seq<RoleId>, i: nat)
    requires Known(all, direct) && i < |Order(all, direct)|
    ensures IsEffective(all, direct, Order(all, direct)[i])
  {
    OrderElements(all, direct);
    assert Order(all, direct)[i] in Elements(Order(all, direct));
    VisitedExact(all, direct, Order(all, direct)[i]);
  }

  // -------------------------------------------------------------------------- names

  /** The UNIQUE constraint on role names. */
  ghost predicate NamesUnique(all: Rows) {
    forall x, y | x in all && y in all && all[x].name == all[y].name :: x == y
  }

  ghost function NamesOf(all: Rows, ids: seq<RoleId>): seq<string>
    requires forall k | 0 <= k < |ids| :: ids[k] in all
  {
    seq(|ids|, i requires 0 <= i < |ids| => all[ids[i]].name)
  }

  lemma {:induction false} AddNamesAppends(all: Rows, listed: seq<RoleId>, ids: seq<RoleId>)
    requires NamesUnique(all)
    requires forall k | 0 <= k < |listed| :: listed[k] in all
    requires forall k | 0 <= k < |ids| :: ids[k] in all && ids[k] !in listed
    requires forall i, j | 0 <= i < j < |ids| :: ids[i] != ids[j]
    ensures AddNames(all, NamesOf(all, listed), ids) == NamesOf(all, listed + ids)
    decreases |ids|
  {
    if ids == [] {
      assert listed + ids == listed;
    } else {
      var name, sink := all[ids[0]].name, NamesOf(all, listed);
      assert forall k | 0 <= k < |sink| :: sink[k] == all[listed[k]].name;
      assert name !in sink;
      assert sink + [name] == NamesOf(all, listed + [ids[0]]);
      AddNamesAppends(all, listed + [ids[0]], ids[1..]);
      assert listed + [ids[0]] + ids[1..] == listed + ids;
    }
  }

  lemma {:induction false} OrderInTable(all: Rows, direct: seq<RoleId>)
    requires Known(all, direct)
    ensures forall k | 0 <= k < |Order(all, direct)| :: Order(all, direct)[k] in all
  {
    if direct != [] {
      var front, last := direct[..|direct| - 1], direct[|direct| - 1];
      OrderInTable(all, front);
      TrailInTable(all, last, Walked(all, front).0);
    }
  }

  /** With unique names the list holds the names of the visited roles in visiting order. */
  lemma {:induction false} NamesFollowOrder(all: Rows, direct: seq<RoleId>)
    requires Known(all, direct) && NamesUnique(all)
    ensures forall k | 0 <= k < |Order(all, direct)| :: Order(all, direct)[k] in all
    ensures Walked(all, direct).1 == NamesOf(all, Order(all, direct))
  {
    OrderInTable(all, direct);
    if direct != [] {
      var front, last := direct[..|direct| - 1], direct[|direct| - 1];
      NamesFollowOrder(all, front);
      OrderElements(all, front);
      var visited := Walked(all, front).0;
      var trail := Trail(all, last, visited);
      forall k | 0 <= k < |trail|
        ensures trail[k] in all && trail[k] !in Order(all, front)
      {
        TrailAt(all, last, visited, k);
        assert trail[k] !in Elements(Order(all, front));
      }
      forall i, j | 0 <= i < j < |trail|
        ensures trail[i] != trail[j]
      {
        TrailAt(all, last, visited, j);
      }
      AddNamesAppends(all, Order(all, front), trail);
    }
  }

  // ---------------------------------------------------------------- the listed order

  ghost predicate ListedBefore(names: seq<string>, a: string, b: string) {
    exists i, j :: 0 <= i < j < |names| && names[i] == a && names[j] == b
  }

  lemma EffectiveIsVisited(all: Rows, direct: seq<RoleId>, x: RoleId) returns (i: nat)
    requires Known(all, direct) && IsEffective(all, direct, x)
    ensures i < |Order(all, direct)| && Order(all, direct)[i] == x
  {
    VisitedExact(all, direct, x);
    OrderElements(all, direct);
    assert x in Elements(Order(all, direct));
    i :| 0 <= i < |Order(all, direct)| && Order(all, direct)[i] == x;
  }

  /** One effective role is listed before another exactly when it has the smaller rank: reached from an
      earlier direct role, or from the same one in fewer steps. */
  lemma ListedByRank(all: Rows, direct: seq<RoleId>, x: RoleId, y: RoleId)
    requires Known(all, direct) && NamesUnique(all) && IsEffective(all, direct, x) && IsEffective(all, direct, y)
    ensures ListedBefore(Walked(all, direct).1, all[x].name, all[y].name) <==> RankLess(all, direct, x, y)
  {
    NamesFollowOrder(all, direct);
    var order, names := Order(all, direct), Walked(all, direct).1;
    if ListedBefore(names, all[x].name, all[y].name) {
      var i, j :| 0 <= i < j < |names| && names[i] == all[x].name && names[j] == all[y].name;
      assert order[i] == x && order[j] == y;
      OrderRanked(all, direct, i, j);
    }
    if RankLess(all, direct, x, y) {
      var i, j := RankedPlaces(all, direct, x, y);
      assert names[i] == all[x].name && names[j] == all[y].name;
    }
  }

  lemma RankedPlaces(all: Rows, direct: seq<RoleId>, x: RoleId, y: RoleId) returns (i: nat, j: nat)
    requires Known(all, direct) && IsEffective(all, direct, x) && IsEffective(all, direct, y) && RankLess(all, direct, x, y)
    ensures i < j < |Order(all, direct)| && Order(all, direct)[i] == x && Order(all, direct)[j] == y
  {
    i := EffectiveIsVisited(all, direct, x);
    j := EffectiveIsVisited(all, direct, y);
    if j < i { OrderRanked(all, direct, j, i); }
  }

  /** What the comment in the source promises: all direct roles first. */
  ghost predicate DirectFirst(all: Rows, direct: seq<RoleId>)
    requires Known(all, direct)
  {
    forall d, y | d in direct && IsEffective(all, direct, y) && y !in direct ::
      ListedBefore(Walked(all, direct).1, all[d].name, all[y].name)
  }

  lemma DirectIsEffective(all: Rows, direct: seq<RoleId>, d: RoleId)
    requires Known(all, direct) && d in direct
    ensures IsEffective(all, direct, d)
  {
    var k :| 0 <= k < |direct| && direct[k] == d;
    assert Up(all, direct[k], 0) == Some(d);
    assert Reaches(all, direct[k], d);
  }

  /** An inherited role that is reached before some direct role is. */
  ghost predicate Overtakes(all: Rows, direct: seq<RoleId>, y: RoleId, d: RoleId) {
    d in direct && IsEffective(all, direct, d) && IsEffective(all, direct, y) && y !in direct && RankLess(all, direct, y, d)
  }

  /** The promise holds exactly when no inherited role has a smaller rank than a direct one. */
  lemma DirectFirstExact(all: Rows, direct: seq<RoleId>)
    requires Known(all, direct) && NamesUnique(all)
    ensures DirectFirst(all, direct) <==> forall y, d :: !Overtakes(all, direct, y, d)
  {
    forall d, y | d in direct && IsEffective(all, direct, y) && y !in direct
      ensures ListedBefore(Walked(all, direct).1, all[d].name, all[y].name) <==> !Overtakes(all, direct, y, d)
    {
      DirectIsEffective(all, direct, d);
      ListedByRank(all, direct, d, y);
      SameRankSameRole(all, direct, d, y);
    }
  }

  lemma SameRankSameRole(all: Rows, direct: seq<RoleId>, x: RoleId, y: RoleId)
    requires IsEffective(all, direct, x) && IsEffective(all, direct, y) && x != y
    ensures RankLess(all, direct, x, y) <==> !RankLess(all, direct, y, x)
  {
  }
}
