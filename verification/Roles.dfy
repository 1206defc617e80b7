/** The role hierarchy (src/role/mod.rs): the cycle-checked re-parenting loop and the
    ancestor walk that computes a user's effective roles. */
module Roles {
  import opened Base

  type RoleId = nat

  datatype Role = Role(name: string, parent: Option<RoleId>)

  type Rows = map<RoleId, Role>

  /** `parent_of.get(&c).copied().flatten()` */
  function ParentOf(rows: Rows, x: RoleId): Option<RoleId> {
    if x in rows then rows[x].parent else None
  }

  /** The n-th ancestor of `x`, if the chain is that long. */
  ghost function Up(rows: Rows, x: RoleId, n: nat): Option<RoleId> {
    if n == 0 then Some(x)
    else
      var below := Up(rows, x, n - 1);
      if below.None? then None else ParentOf(rows, below.value)
  }

  ghost predicate Acyclic(rows: Rows) {
    forall x: RoleId, n: nat | n > 0 :: Up(rows, x, n) != Some(x)
  }

  ghost predicate Reaches(rows: Rows, x: RoleId, y: RoleId) {
    exists n: nat :: Up(rows, x, n) == Some(y)
  }

  /** The foreign key of `parent_id`. */
  predicate Closed(rows: Rows) {
    forall x | x in rows :: rows[x].parent.None? || rows[x].parent.value in rows
  }

  function Reparented(rows: Rows, child: RoleId, parent: Option<RoleId>): Rows {
    if child in rows then rows[child := rows[child].(parent := parent)] else rows
  }

  // ------------------------------------------------------------ ancestor chains

  lemma {:induction false} UpAdd(rows: Rows, x: RoleId, a: nat, b: nat)
    requires Up(rows, x, a).Some?
    ensures Up(rows, x, a + b) == Up(rows, Up(rows, x, a).value, b)
  {
    if b > 0 { UpAdd(rows, x, a, b - 1); }
  }

  lemma {:induction false} UpEndsForGood(rows: Rows, x: RoleId, a: nat, b: nat)
    requires Up(rows, x, a).None? && a <= b
    ensures Up(rows, x, b).None?
    decreases b
  {
    if a < b { UpEndsForGood(rows, x, a, b - 1); }
  }

  /** A chain that meets the same role twice never ends. */
  lemma {:induction false} RepeatNeverEnds(rows: Rows, x: RoleId, i: nat, j: nat, m: nat)
    requires i < j && Up(rows, x, i).Some? && Up(rows, x, i) == Up(rows, x, j)
    ensures Up(rows, x, m).Some?
  {
    if m <= j {
      if Up(rows, x, m).None? { UpEndsForGood(rows, x, m, j); }
    } else {
      UpAdd(rows, x, i, m - j);
      UpAdd(rows, x, j, m - j);
      RepeatNeverEnds(rows, x, i, j, i + (m - j));
    }
  }

  /** Everything a chain from `x` can meet. */
  ghost function Universe(rows: Rows, x: RoleId): set<RoleId> {
    rows.Keys + {x} + (set y | y in rows && rows[y].parent.Some? :: rows[y].parent.value)
  }

  lemma {:induction false} UpInUniverse(rows: Rows, x: RoleId, n: nat)
    ensures Up(rows, x, n).Some? ==> Up(rows, x, n).value in Universe(rows, x)
  {
    if n > 0 && Up(rows, x, n).Some? {
      var y := Up(rows, x, n - 1).value;
      assert y in rows;
    }
  }

  ghost predicate MetBefore(rows: Rows, x: RoleId, n: nat, y: RoleId) {
    exists k: nat :: k < n && Up(rows, x, k) == Some(y)
  }

  /** On an acyclic graph every chain ends: a longer one would repeat a role. */
  lemma {:induction false} ChainEnds(rows: Rows, x: RoleId, n: nat, met: set<RoleId>) returns (m: nat)
    requires Acyclic(rows)
    requires forall k: nat | k < n :: Up(rows, x, k).Some? && Up(rows, x, k).value in met
    requires forall y | y in met :: MetBefore(rows, x, n, y)
    ensures Up(rows, x, m).None?
    decreases Universe(rows, x) - met
  {
    var here := Up(rows, x, n);
    if here.None? {
      m := n;
    } else {
      UpInUniverse(rows, x, n);
      if here.value in met {
        assert MetBefore(rows, x, n, here.value);
        var k: nat :| k < n && Up(rows, x, k) == here;
        UpAdd(rows, x, k, n - k);
        assert false;
      }
      var met' := met + {here.value};
      forall y | y in met'
        ensures MetBefore(rows, x, n + 1, y)
      {
        if y in met { assert MetBefore(rows, x, n, y); var k: nat :| k < n && Up(rows, x, k) == Some(y); }
      }
      m := ChainEnds(rows, x, n + 1, met');
    }
  }

  // --------------------------------------------------------------- re-parenting

  /** The chain from `start` ends at a root and never passes through `child`. */
  ghost predicate ClearOf(rows: Rows, start: RoleId, child: RoleId, n: nat) {
    Up(rows, start, n).None? && forall k: nat | k < n :: Up(rows, start, k) != Some(child)
  }

  /** What the guard of `set_parent` lets through, on any stored graph. */
  ghost predicate Permitted(rows: Rows, child: RoleId, parent: Option<RoleId>) {
    parent.Some? ==> exists n: nat :: ClearOf(rows, parent.value, child, n)
  }

  datatype SetParentResult = Done | Cycle | ForeignKeyViolation

  /** Table and result of `set_parent` as a function of the table it found. */
  ghost function SetParentSpec(rows: Rows, child: RoleId, parent: Option<RoleId>): (Rows, SetParentResult) {
    if !Permitted(rows, child, parent) then (rows, Cycle)
    else if child in rows && parent.Some? && parent.value !in rows then (rows, ForeignKeyViolation)
    else (Reparented(rows, child, parent), Done)
  }

  lemma NotPermittedIfMet(rows: Rows, child: RoleId, start: RoleId, k: nat)
    requires Up(rows, start, k) == Some(child)
    ensures !Permitted(rows, child, Some(start))
  {
    forall n: nat
      ensures !ClearOf(rows, start, child, n)
    {
      if Up(rows, start, n).None? && n <= k { UpEndsForGood(rows, start, n, k); }
    }
  }

  lemma NotPermittedIfRepeats(rows: Rows, child: RoleId, start: RoleId, i: nat, j: nat)
    requires i < j && Up(rows, start, i).Some? && Up(rows, start, i) == Up(rows, start, j)
    ensures !Permitted(rows, child, Some(start))
  {
    forall n: nat
      ensures !ClearOf(rows, start, child, n)
    {
      RepeatNeverEnds(rows, start, i, j, n);
    }
  }

  class RoleTable {
    var rows: Rows

    constructor ()
      ensures rows == map[]
    {
      rows := map[];
    }

    /** Terminates and decides on every stored graph, cyclic ones included: `seen` grows
        inside the finite universe of the chain. */
    method SetParent(child: RoleId, parent: Option<RoleId>) returns (result: SetParentResult)
      modifies this
      ensures (rows, result) == SetParentSpec(old(rows), child, parent)
    {
      if parent.Some? {
        if parent.value == child {
          NotPermittedIfMet(rows, child, child, 0);
          return Cycle;
        }
        var newParent := parent.value;
        var parentOf := rows;
        var cursor := Some(newParent);
        var seen: set<RoleId> := {};
        ghost var n: nat := 0;
        while cursor.Some?
          invariant rows == old(rows) && parentOf == rows
          invariant cursor == Up(rows, newParent, n)
          invariant forall k: nat | k < n :: Up(rows, newParent, k).Some? && Up(rows, newParent, k).value in seen
          invariant forall k: nat | k < n :: Up(rows, newParent, k) != Some(child)
          invariant forall y | y in seen :: MetBefore(rows, newParent, n, y)
          decreases Universe(rows, newParent) - seen, cursor.Some?
        {
          var c := cursor.value;
          UpInUniverse(rows, newParent, n);
          if c == child {
            NotPermittedIfMet(rows, child, newParent, n);
            return Cycle;
          }
          if c in seen {
            ghost var k: nat :| k < n && Up(rows, newParent, k) == Some(c);
            NotPermittedIfRepeats(rows, child, newParent, k, n);
            return Cycle;
          }
          seen := seen + {c};
          cursor := ParentOf(parentOf, c);
          n := n + 1;
        }
        assert ClearOf(rows, newParent, child, n);
        if child in rows && newParent !in rows {
          return ForeignKeyViolation;
        }
      }
      if child in rows {
        rows := rows[child := rows[child].(parent := parent)];
      }
      result := Done;
    }

    /** INSERT under the primary key and the foreign key. */
    method Persist(id: RoleId, role: Role) returns (ok: bool)
      modifies this
      ensures ok <==> id !in old(rows) && (role.parent.Some? ==> role.parent.value in old(rows))
      ensures rows == Apply(old(rows), Insert(id, role))
    {
      ok := id !in rows && (role.parent.None? || role.parent.value in rows);
      if ok { rows := rows[id := role]; }
    }
  }

  // ------------------------------------------------- the guard keeps the forest

  /** A chain that avoids `child` is not affected by re-parenting `child`. */
  lemma {:induction false} UpAvoiding(rows: Rows, child: RoleId, parent: Option<RoleId>, x: RoleId, n: nat)
    requires forall k: nat | k < n :: Up(rows, x, k) != Some(child)
    ensures Up(Reparented(rows, child, parent), x, n) == Up(rows, x, n)
  {
    if n > 0 { UpAvoiding(rows, child, parent, x, n - 1); }
  }

  lemma UpAvoidingBack(rows: Rows, child: RoleId, parent: Option<RoleId>, x: RoleId, n: nat)
    requires child in rows
    requires forall k: nat | k < n :: Up(Reparented(rows, child, parent), x, k) != Some(child)
    ensures Up(rows, x, n) == Up(Reparented(rows, child, parent), x, n)
  {
    var after := Reparented(rows, child, parent);
    UpAvoiding(after, child, rows[child].parent, x, n);
    assert Reparented(after, child, rows[child].parent) == rows;
  }

  lemma PermittedKeepsAcyclic(rows: Rows, child: RoleId, parent: Option<RoleId>)
    requires Acyclic(rows) && Permitted(rows, child, parent)
    ensures Acyclic(Reparented(rows, child, parent))
  {
    var after := Reparented(rows, child, parent);
    if child in rows {
      forall x: RoleId, n: nat | n > 0
        ensures Up(after, x, n) != Some(x)
      {
        if Up(after, x, n) == Some(x) {
          if k: nat :| k < n && Up(after, x, k) == Some(child) {
            // rotate the cycle so that it starts at `child`
            UpAdd(after, x, n, k);
            UpAdd(after, x, k, n);
            NoCycleThrough(rows, child, parent, n);
          } else {
            UpAvoidingBack(rows, child, parent, x, n);
          }
        }
      }
    }
  }

  lemma NoCycleThrough(rows: Rows, child: RoleId, parent: Option<RoleId>, n: nat)
    requires child in rows && Permitted(rows, child, parent) && n > 0
    ensures Up(Reparented(rows, child, parent), child, n) != Some(child)
  {
    var after := Reparented(rows, child, parent);
    assert Up(after, child, 1) == parent by { assert Up(after, child, 0) == Some(child); }
    if parent.None? {
      UpEndsForGood(after, child, 1, n);
    } else {
      var m: nat :| ClearOf(rows, parent.value, child, m);
      UpAdd(after, child, 1, n - 1);
      forall k: nat
        ensures Up(rows, parent.value, k) != Some(child)
      {
        if k >= m { UpEndsForGood(rows, parent.value, m, k); }
      }
      UpAvoiding(rows, child, parent, parent.value, n - 1);
    }
  }

  /** The first index at which a chain meets `y`. */
  lemma {:induction false} FirstMeeting(rows: Rows, x: RoleId, y: RoleId, n: nat) returns (m: nat)
    requires Up(rows, x, n) == Some(y)
    ensures Up(rows, x, m) == Some(y) && forall k: nat | k < m :: Up(rows, x, k) != Some(y)
  {
    if k: nat :| k < n && Up(rows, x, k) == Some(y) {
      m := FirstMeeting(rows, x, y, k);
    } else {
      m := n;
    }
  }

  lemma PermittedIffUnreached(rows: Rows, child: RoleId, parent: RoleId)
    requires Acyclic(rows)
    ensures Permitted(rows, child, Some(parent)) <==> !Reaches(rows, parent, child)
  {
    if Reaches(rows, parent, child) {
      var n: nat :| Up(rows, parent, n) == Some(child);
      NotPermittedIfMet(rows, child, parent, n);
    } else {
      var m := ChainEnds(rows, parent, 0, {});
      assert ClearOf(rows, parent, child, m);
    }
  }

  /** On an acyclic graph the guard rejects exactly the edges that would close a cycle. */
  lemma RejectsExactlyCycles(rows: Rows, child: RoleId, parent: Option<RoleId>)
    requires Acyclic(rows) && child in rows
    ensures SetParentSpec(rows, child, parent).1 == Cycle <==> !Acyclic(Reparented(rows, child, parent))
  {
    if Permitted(rows, child, parent) {
      PermittedKeepsAcyclic(rows, child, parent);
    } else {
      PermittedIffUnreached(rows, child, parent.value);
      var n: nat :| Up(rows, parent.value, n) == Some(child);
      var m := FirstMeeting(rows, parent.value, child, n);
      var after := Reparented(rows, child, parent);
      UpAvoiding(rows, child, parent, parent.value, m);
      assert Up(after, child, 1) == parent by { assert Up(after, child, 0) == Some(child); }
      UpAdd(after, child, 1, m);
      assert Up(after, child, 1 + m) == Some(child);
    }
  }

  // ------------------------------------------------------------ sequences of calls

  datatype Call = Reparent(child: RoleId, parent: Option<RoleId>) | Insert(id: RoleId, role: Role)

  ghost function Apply(rows: Rows, call: Call): Rows {
    match call
    case Reparent(child, parent) => SetParentSpec(rows, child, parent).0
    case Insert(id, role) =>
      if id !in rows && (role.parent.Some? ==> role.parent.value in rows) then rows[id := role] else rows
  }

  ghost function Run(calls: seq<Call>): Rows {
    if calls == [] then map[]
    else Apply(Run(calls[..|calls| - 1]), calls[|calls| - 1])
  }

  lemma {:induction false} InsertLeavesChains(rows: Rows, id: RoleId, role: Role, x: RoleId, n: nat)
    requires Closed(rows) && id !in rows && x in rows
    ensures Up(rows[id := role], x, n) == Up(rows, x, n)
    ensures Up(rows, x, n).Some? ==> Up(rows, x, n).value in rows
  {
    if n > 0 { InsertLeavesChains(rows, id, role, x, n - 1); }
  }

  lemma InsertKeepsAcyclic(rows: Rows, id: RoleId, role: Role)
    requires Acyclic(rows) && Closed(rows) && id !in rows
    requires role.parent.Some? ==> role.parent.value in rows
    ensures Acyclic(rows[id := role])
  {
    var after := rows[id := role];
    forall x: RoleId, n: nat | n > 0
      ensures Up(after, x, n) != Some(x)
    {
      assert Up(after, x, 0) == Some(x);
      if x in rows {
        InsertLeavesChains(rows, id, role, x, n);
        assert Up(rows, x, n) != Some(x);
      } else if Up(after, x, 1).None? {
        UpEndsForGood(after, x, 1, n);
      } else {
        assert x == id;
        UpAdd(after, x, 1, n - 1);
        InsertLeavesChains(rows, id, role, role.parent.value, n - 1);
      }
    }
  }

  /** No sequence of inserts and re-parentings ever stores a cycle or a dangling parent. */
  lemma {:induction false} ForestForever(calls: seq<Call>)
    ensures Acyclic(Run(calls)) && Closed(Run(calls))
  {
    if calls == [] {
      forall x: RoleId, n: nat | n > 0
        ensures Up(map[], x, n) != Some(x)
      {
        assert Up(map[], x, 0) == Some(x);
        assert Up(map[], x, 1) == None;
        UpEndsForGood(map[], x, 1, n);
      }
    } else {
      var before, call := Run(calls[..|calls| - 1]), calls[|calls| - 1];
      ForestForever(calls[..|calls| - 1]);
      match call {
        case Reparent(child, parent) =>
          if Permitted(before, child, parent) { PermittedKeepsAcyclic(before, child, parent); }
        case Insert(id, role) =>
          if Apply(before, call) != before { InsertKeepsAcyclic(before, id, role); }
      }
    }
  }

  // --------------------------------------------------------------- effective roles

  /** The roles a walk from `id` newly visits, in visiting order. */
  ghost function Trail(all: Rows, id: RoleId, visited: set<RoleId>): seq<RoleId>
    requires id in all
    decreases all.Keys - visited
  {
    if id in visited then []
    else
      var parent := all[id].parent;
      [id] + if parent.Some? && parent.value in all then Trail(all, parent.value, visited + {id}) else []
  }

  ghost function AddNames(all: Rows, sink: seq<string>, ids: seq<RoleId>): seq<string>
    requires forall k | 0 <= k < |ids| :: ids[k] in all
    decreases |ids|
  {
    if ids == [] then sink
    else AddNames(all, if all[ids[0]].name in sink then sink else sink + [all[ids[0]].name], ids[1..])
  }

  lemma {:induction false} TrailInTable(all: Rows, id: RoleId, visited: set<RoleId>)
    requires id in all
    ensures forall k | 0 <= k < |Trail(all, id, visited)| :: Trail(all, id, visited)[k] in all
    decreases all.Keys - visited
  {
    if id !in visited && all[id].parent.Some? && all[id].parent.value in all {
      TrailInTable(all, all[id].parent.value, visited + {id});
    }
  }

  ghost function Elements(ids: seq<RoleId>): set<RoleId> {
    set x | x in ids
  }

  /** The state of the whole computation after the direct roles have been walked in order. */
  ghost function Walked(all: Rows, direct: seq<RoleId>): (set<RoleId>, seq<string>)
    requires forall d | d in direct :: d in all
  {
    if direct == [] then ({}, [])
    else
      var last := direct[|direct| - 1];
      var (visited, sink) := Walked(all, direct[..|direct| - 1]);
      TrailInTable(all, last, visited);
      (visited + Elements(Trail(all, last, visited)), AddNames(all, sink, Trail(all, last, visited)))
  }

  class RoleWalk {
    var sink: seq<string>
    var visited: set<RoleId>

    constructor ()
      ensures sink == [] && visited == {}
    {
      sink, visited := [], {};
    }

    method WalkAncestors(id: RoleId, all: Rows)
      requires id in all
      modifies this
      ensures visited == old(visited) + Elements(Trail(all, id, old(visited)))
      ensures forall k | 0 <= k < |Trail(all, id, old(visited))| :: Trail(all, id, old(visited))[k] in all
      ensures sink == AddNames(all, old(sink), Trail(all, id, old(visited)))
      decreases all.Keys - visited
    {
      ghost var trail := Trail(all, id, visited);
      TrailInTable(all, id, visited);
      if id in visited { return; }
      visited := visited + {id};
      if all[id].name !in sink {
        sink := sink + [all[id].name];
      }
      if all[id].parent.Some? && all[id].parent.value in all {
        WalkAncestors(all[id].parent.value, all);
        assert trail == [id] + trail[1..];
      } else {
        assert trail == [id];
      }
    }
  }

  method FindEffectiveNames(direct: seq<RoleId>, all: Rows) returns (names: seq<string>)
    requires forall d | d in direct :: d in all
    ensures names == Walked(all, direct).1
    ensures forall name :: name in names <==> EffectiveName(all, direct, name)
    ensures forall i, j | 0 <= i < j < |names| :: names[i] != names[j]
  {
    var walk := new RoleWalk();
    for i := 0 to |direct|
      invariant (walk.visited, walk.sink) == Walked(all, direct[..i])
      invariant fresh(walk)
    {
      assert direct[..i + 1][..i] == direct[..i] && direct[..i + 1][i] == direct[i];
      walk.WalkAncestors(direct[i], all);
    }
    assert direct[..|direct|] == direct;
    names := walk.sink;
    WalkedExact(all, direct);
  }

  ghost predicate IsEffective(all: Rows, direct: seq<RoleId>, x: RoleId) {
    x in all && exists k :: 0 <= k < |direct| && Reaches(all, direct[k], x)
  }

  ghost predicate EffectiveName(all: Rows, direct: seq<RoleId>, name: string) {
    exists x :: x in all && IsEffective(all, direct, x) && all[x].name == name
  }

  /** Upward closure, except that `pending` may still be missing. */
  ghost predicate ClosedBut(all: Rows, visited: set<RoleId>, pending: Option<RoleId>) {
    forall v | v in visited && v in all ::
      var parent := all[v].parent;
      parent.Some? && parent.value in all ==> parent.value in visited || parent == pending
  }

  /** The early return is sound: a walk started from an upward closed set, or one whose only
      missing parent is the walk's start, ends in an upward closed set of ancestors. */
  lemma {:induction false} TrailCloses(all: Rows, id: RoleId, visited: set<RoleId>)
    requires id in all && ClosedBut(all, visited, Some(id))
    ensures ClosedBut(all, visited + Elements(Trail(all, id, visited)), None)
    ensures id in visited + Elements(Trail(all, id, visited))
    decreases all.Keys - visited
  {
    var trail := Trail(all, id, visited);
    if id in visited {
      assert Elements(trail) == {};
    } else {
      var parent := all[id].parent;
      var here := visited + {id};
      if parent.Some? && parent.value in all {
        TrailCloses(all, parent.value, here);
        var rest := Trail(all, parent.value, here);
        assert trail == [id] + rest;
        assert visited + Elements(trail) == here + Elements(rest);
      } else {
        assert trail == [id];
        assert visited + Elements(trail) == here;
      }
    }
  }

  /** A walk lists ancestors of its start only. */
  lemma {:induction false} TrailReaches(all: Rows, id: RoleId, visited: set<RoleId>)
    requires id in all
    ensures forall x | x in Trail(all, id, visited) :: x in all && Reaches(all, id, x)
    decreases all.Keys - visited
  {
    assert Up(all, id, 0) == Some(id);
    if id !in visited {
      var parent := all[id].parent;
      var here := visited + {id};
      if parent.Some? && parent.value in all {
        TrailReaches(all, parent.value, here);
        var rest := Trail(all, parent.value, here);
        assert Trail(all, id, visited) == [id] + rest;
        assert Up(all, id, 1) == parent;
        forall x | x in rest
          ensures Reaches(all, id, x)
        {
          var n: nat :| Up(all, parent.value, n) == Some(x);
          UpAdd(all, id, 1, n);
          assert Up(all, id, 1 + n) == Some(x);
        }
      } else {
        assert Trail(all, id, visited) == [id];
      }
    }
  }

  ghost predicate Distinct(names: seq<string>) {
    forall i, j | 0 <= i < j < |names| :: names[i] != names[j]
  }

  /** `sink` lists, without repetition, exactly the names of `visited`. */
  ghost predicate Lists(all: Rows, sink: seq<string>, visited: set<RoleId>) {
    && Distinct(sink)
    && (forall v | v in visited :: v in all && all[v].name in sink)
    && (forall name | name in sink :: exists v :: v in visited && v in all && all[v].name == name)
  }

  lemma AddNameLists(all: Rows, sink: seq<string>, visited: set<RoleId>, id: RoleId)
    requires Lists(all, sink, visited) && id in all
    ensures Lists(all, if all[id].name in sink then sink else sink + [all[id].name], visited + {id})
  {
    var name := all[id].name;
    var sink', visited' := if name in sink then sink else sink + [name], visited + {id};
    assert id in visited';
    forall v | v in visited'
      ensures v in all && all[v].name in sink'
    {
      if v in visited { assert all[v].name in sink; }
    }
  }

  lemma {:induction false} AddNamesLists(all: Rows, sink: seq<string>, visited: set<RoleId>, ids: seq<RoleId>)
    requires Lists(all, sink, visited)
    requires forall k | 0 <= k < |ids| :: ids[k] in all
    ensures Lists(all, AddNames(all, sink, ids), visited + Elements(ids))
    decreases |ids|
  {
    if ids == [] {
      assert visited + Elements(ids) == visited;
    } else {
      var name := all[ids[0]].name;
      var sink', visited' := if name in sink then sink else sink + [name], visited + {ids[0]};
      AddNameLists(all, sink, visited, ids[0]);
      AddNamesLists(all, sink', visited', ids[1..]);
      assert visited + Elements(ids) == visited' + Elements(ids[1..]) by {
        assert ids == [ids[0]] + ids[1..];
      }
    }
  }

  lemma {:induction false} WalkedClosed(all: Rows, direct: seq<RoleId>)
    requires forall d | d in direct :: d in all
    ensures ClosedBut(all, Walked(all, direct).0, None)
    ensures forall d | d in direct :: d in Walked(all, direct).0
  {
    if direct != [] {
      var front, last := direct[..|direct| - 1], direct[|direct| - 1];
      WalkedClosed(all, front);
      TrailCloses(all, last, Walked(all, front).0);
      assert direct == front + [last];
    }
  }

  lemma {:induction false} WalkedLists(all: Rows, direct: seq<RoleId>)
    requires forall d | d in direct :: d in all
    ensures Lists(all, Walked(all, direct).1, Walked(all, direct).0)
  {
    if direct != [] {
      var front, last := direct[..|direct| - 1], direct[|direct| - 1];
      WalkedLists(all, front);
      var (visited, sink) := Walked(all, front);
      TrailInTable(all, last, visited);
      AddNamesLists(all, sink, visited, Trail(all, last, visited));
    }
  }

  lemma {:induction false} WalkedEffective(all: Rows, direct: seq<RoleId>, x: RoleId)
    requires forall d | d in direct :: d in all
    requires x in Walked(all, direct).0
    ensures IsEffective(all, direct, x)
  {
    if direct != [] {
      var front, last := direct[..|direct| - 1], direct[|direct| - 1];
      if x in Walked(all, front).0 {
        WalkedEffective(all, front, x);
        var k :| 0 <= k < |front| && Reaches(all, front[k], x);
        assert Reaches(all, direct[k], x);
      } else {
        TrailReaches(all, last, Walked(all, front).0);
        assert Reaches(all, direct[|direct| - 1], x);
      }
    }
  }

  lemma {:induction false} ClosedHoldsAncestors(all: Rows, visited: set<RoleId>, d: RoleId, n: nat)
    requires ClosedBut(all, visited, None) && d in visited && d in all
    ensures Up(all, d, n).Some? && Up(all, d, n).value in all ==> Up(all, d, n).value in visited
  {
    if n > 0 { ClosedHoldsAncestors(all, visited, d, n - 1); }
  }

  /** Effective names are exactly the names of the reflexive-transitive ancestors of the direct
      roles, each once, on every graph. The right-hand side does not mention the order of
      `direct`, so neither does the set of names. */
  lemma WalkedExact(all: Rows, direct: seq<RoleId>)
    requires forall d | d in direct :: d in all
    ensures forall name :: name in Walked(all, direct).1 <==> EffectiveName(all, direct, name)
    ensures Distinct(Walked(all, direct).1)
  {
    WalkedClosed(all, direct);
    WalkedLists(all, direct);
    var (visited, sink) := Walked(all, direct);
    forall x | x in visited
      ensures IsEffective(all, direct, x)
    {
      WalkedEffective(all, direct, x);
    }
    forall x | IsEffective(all, direct, x)
      ensures x in visited
    {
      var k :| 0 <= k < |direct| && Reaches(all, direct[k], x);
      var n: nat :| Up(all, direct[k], n) == Some(x);
      ClosedHoldsAncestors(all, visited, direct[k], n);
    }
  }

  /** The comment above `find_effective_names_by_user_id` promises all direct roles first; the
      code appends each role's ancestors before the next direct role. */
  lemma AncestorsPrecedeLaterDirectRoles()
    ensures var all := map[1 := Role("editor", Some(3)), 2 := Role("auditor", None), 3 := Role("user", None)];
            Walked(all, [1, 2]).1 == ["editor", "user", "auditor"]
  {
    var all := map[1 := Role("editor", Some(3)), 2 := Role("auditor", None), 3 := Role("user", None)];
    assert Trail(all, 3, {1}) == [3];
    assert Trail(all, 1, {}) == [1, 3] by { assert {} + {1} == {1}; }
    assert [1, 2][..1] == [1] && [1][..0] == [];
    assert Walked(all, []) == ({}, []);
    assert AddNames(all, ["editor"], [3]) == ["editor", "user"] by { assert [3][1..] == []; }
    assert AddNames(all, [], [1, 3]) == ["editor", "user"] by { assert [1, 3][1..] == [3]; }
    assert {} + Elements([1, 3]) == {1, 3};
    assert [1][|[1]| - 1] == 1 && [1][..|[1]| - 1] == [];
    assert Walked(all, [1]) == ({1, 3}, ["editor", "user"]);
    assert Trail(all, 2, {1, 3}) == [2];
    assert AddNames(all, ["editor", "user"], [2]) == ["editor", "user", "auditor"] by { assert [2][1..] == []; }
  }
}
