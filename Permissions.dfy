/**
 * Role permissions: `uniqueList`, the comma-joined permission string a
 * `Role` row stores with its list accessors, and the permission list a role
 * inherits through its chain of parent roles.
 */
module Permissions {
  import opened Wrappers
  import opened Text
  import opened Store

  const Separator: char := ','

  ghost predicate Distinct(xs: seq<string>)
  {
    forall j, k :: 0 <= j < k < |xs| ==> xs[j] != xs[k]
  }

  /** `[...new Set(xs)]`: each element at its first occurrence. */
  function Dedup(xs: seq<string>): seq<string>
  {
    if xs == [] then []
    else
      var init, y := xs[..|xs| - 1], xs[|xs| - 1];
      Dedup(init) + (if y in init then [] else [y])
  }

  /** `xs.filter(Boolean)`: the non-empty elements, in order. */
  function DropEmpty(xs: seq<string>): seq<string>
  {
    if xs == [] then []
    else
      var init, y := xs[..|xs| - 1], xs[|xs| - 1];
      DropEmpty(init) + (if y == "" then [] else [y])
  }

  /** `uniqueList`. */
  function UniqueList(xs: seq<string>): seq<string>
  {
    DropEmpty(Dedup(xs))
  }

  /** `xs.filter(q => q !== p)`. */
  function Remove(xs: seq<string>, p: string): seq<string>
  {
    if xs == [] then []
    else
      var init, y := xs[..|xs| - 1], xs[|xs| - 1];
      Remove(init, p) + (if y == p then [] else [y])
  }

  /** Index of the first occurrence of `x` in `xs`. */
  function Position(xs: seq<string>, x: string): (k: nat)
    requires x in xs
    ensures k < |xs| && xs[k] == x
    ensures forall j :: 0 <= j < k ==> xs[j] != x
  {
    if xs[0] == x then 0 else 1 + Position(xs[1..], x)
  }

  lemma PositionUnique(xs: seq<string>, x: string, k: nat)
    requires k < |xs| && xs[k] == x
    requires forall j :: 0 <= j < k ==> xs[j] != x
    ensures Position(xs, x) == k
  {
  }

  lemma {:induction false} DropEmptyConcat(a: seq<string>, b: seq<string>)
    ensures DropEmpty(a + b) == DropEmpty(a) + DropEmpty(b)
    decreases |b|
  {
    if b == [] {
      assert a + b == a;
    } else {
      var b', y := b[..|b| - 1], b[|b| - 1];
      assert (a + b)[..|a + b| - 1] == a + b';
      assert (a + b)[|a + b| - 1] == y;
      DropEmptyConcat(a, b');
    }
  }

  lemma {:induction false} DropEmptyMembers(xs: seq<string>)
    ensures forall x :: x in DropEmpty(xs) <==> x in xs && x != ""
  {
    if xs != [] {
      var init := xs[..|xs| - 1];
      DropEmptyMembers(init);
      assert xs == init + [xs[|xs| - 1]];
    }
  }

  lemma {:induction false} DropEmptyNoop(xs: seq<string>)
    requires "" !in xs
    ensures DropEmpty(xs) == xs
  {
    if xs != [] {
      var init := xs[..|xs| - 1];
      DropEmptyNoop(init);
      assert xs == init + [xs[|xs| - 1]];
    }
  }

  /** Appending one element to the input appends it to `uniqueList`'s result exactly when it is new and non-empty. */
  lemma UniqueListSnoc(xs: seq<string>, y: string)
    ensures UniqueList(xs + [y]) == UniqueList(xs) + (if y == "" || y in xs then [] else [y])
  {
    var s := xs + [y];
    assert s[..|s| - 1] == xs;
    assert s[|s| - 1] == y;
    var tail := if y in xs then [] else [y];
    assert Dedup(s) == Dedup(xs) + tail;
    DropEmptyConcat(Dedup(xs), tail);
    if tail == [y] {
      assert DropEmpty([y]) == DropEmpty([]) + (if y == "" then [] else [y]);
    }
  }

  /** `uniqueList` keeps exactly the non-empty elements of its input. */
  lemma {:induction false} UniqueListMembers(xs: seq<string>)
    ensures forall x :: x in UniqueList(xs) <==> x in xs && x != ""
    decreases |xs|
  {
    if xs != [] {
      var init, y := xs[..|xs| - 1], xs[|xs| - 1];
      assert xs == init + [y];
      UniqueListSnoc(init, y);
      UniqueListMembers(init);
    }
  }

  /** `uniqueList` has no repeated and no empty element. */
  lemma {:induction false} UniqueListDistinct(xs: seq<string>)
    ensures Distinct(UniqueList(xs))
    ensures "" !in UniqueList(xs)
    decreases |xs|
  {
    if xs != [] {
      var init, y := xs[..|xs| - 1], xs[|xs| - 1];
      assert xs == init + [y];
      UniqueListSnoc(init, y);
      UniqueListDistinct(init);
      UniqueListMembers(init);
    }
  }

  /** A list without repeats or empty strings is its own `uniqueList`. */
  lemma {:induction false} UniqueListNoop(xs: seq<string>)
    requires Distinct(xs) && "" !in xs
    ensures UniqueList(xs) == xs
    decreases |xs|
  {
    if xs != [] {
      var init, y := xs[..|xs| - 1], xs[|xs| - 1];
      DistinctSnoc(init, y);
      assert xs == init + [y];
      UniqueListSnoc(init, y);
      UniqueListNoop(init);
    }
  }

  /** A list with a last element is distinct exactly when its front is and the last element is new. */
  lemma DistinctSnoc(init: seq<string>, y: string)
    ensures Distinct(init + [y]) <==> Distinct(init) && y !in init
  {
    var xs := init + [y];
    if Distinct(xs) {
      forall j, k | 0 <= j < k < |init|
        ensures init[j] != init[k]
      {
        assert xs[j] == init[j] && xs[k] == init[k];
      }
      forall j | 0 <= j < |init|
        ensures init[j] != y
      {
        assert xs[j] == init[j] && xs[|init|] == y;
      }
    }
    if Distinct(init) && y !in init {
      forall j, k | 0 <= j < k < |xs|
        ensures xs[j] != xs[k]
      {
        assert xs[j] == init[j];
        if k < |init| {
          assert xs[k] == init[k];
        }
      }
    }
  }

  lemma UniqueListIdempotent(xs: seq<string>)
    ensures UniqueList(UniqueList(xs)) == UniqueList(xs)
  {
    UniqueListDistinct(xs);
    UniqueListNoop(UniqueList(xs));
  }

  /** `uniqueList` lists elements in the order of their first occurrence in the input. */
  lemma {:induction false} UniqueListFirstOccurrenceOrder(xs: seq<string>)
    ensures forall x :: x in UniqueList(xs) ==> x in xs
    ensures forall j, k :: 0 <= j < k < |UniqueList(xs)| ==>
              Position(xs, UniqueList(xs)[j]) < Position(xs, UniqueList(xs)[k])
    decreases |xs|
  {
    UniqueListMembers(xs);
    if xs != [] {
      var init, y := xs[..|xs| - 1], xs[|xs| - 1];
      assert xs == init + [y];
      UniqueListSnoc(init, y);
      UniqueListFirstOccurrenceOrder(init);
      OrderAfterSnoc(init, y, UniqueList(init), UniqueList(xs));
    }
  }

  /**
   * The step of the induction above: a list ordered by first occurrence in
   * `init` stays so in `init + [y]` when `y`, if new, is appended.
   */
  lemma OrderAfterSnoc(init: seq<string>, y: string, u: seq<string>, v: seq<string>)
    requires forall x :: x in u ==> x in init
    requires forall j, k :: 0 <= j < k < |u| ==> Position(init, u[j]) < Position(init, u[k])
    requires v == u + (if y == "" || y in init then [] else [y])
    ensures forall j, k :: 0 <= j < k < |v| ==> Position(init + [y], v[j]) < Position(init + [y], v[k])
  {
    var xs := init + [y];
    forall x | x in init
      ensures Position(xs, x) == Position(init, x)
    {
      PositionUnique(xs, x, Position(init, x));
    }
    forall j, k | 0 <= j < k < |v|
      ensures Position(xs, v[j]) < Position(xs, v[k])
    {
      assert v[j] == u[j];
      if k < |u| {
        assert v[k] == u[k];
      } else {
        assert v[k] == y && y !in init;
        PositionUnique(xs, y, |init|);
      }
    }
  }

  /** Extending the input never disturbs what `uniqueList` already kept: its old result is a prefix. */
  lemma {:induction false} UniqueListExtends(a: seq<string>, b: seq<string>)
    ensures UniqueList(a) <= UniqueList(a + b)
    decreases |b|
  {
    if b == [] {
      assert a + b == a;
    } else {
      var b', y := b[..|b| - 1], b[|b| - 1];
      assert a + b == (a + b') + [y];
      UniqueListSnoc(a + b', y);
      UniqueListExtends(a, b');
    }
  }

  lemma {:induction false} RemoveMembers(xs: seq<string>, p: string)
    ensures forall x :: x in Remove(xs, p) <==> x in xs && x != p
    ensures Distinct(xs) ==> Distinct(Remove(xs, p))
    decreases |xs|
  {
    if xs != [] {
      var init, y := xs[..|xs| - 1], xs[|xs| - 1];
      assert xs == init + [y];
      RemoveMembers(init, p);
      if Distinct(xs) {
        assert Distinct(init) by {
          forall j, k | 0 <= j < k < |init| ensures init[j] != init[k] {
            assert xs[j] == init[j] && xs[k] == init[k];
          }
        }
        assert y !in init;
      }
    }
  }

  /** `role.getPermissionList()` of a stored permission string. */
  function PermissionList(stored: string): seq<string>
  {
    DropEmpty(Split(stored, Separator))
  }

  /** The stored list never yields an empty or comma-holding permission. */
  lemma PermissionListClean(stored: string)
    ensures "" !in PermissionList(stored)
    ensures Unseparated(PermissionList(stored), Separator)
  {
    var parts := Split(stored, Separator);
    DropEmptyMembers(parts);
  }

  /** Reading back a stored list gives it, when no permission is empty or holds a comma. */
  lemma StoredListRoundTrip(ps: seq<string>)
    requires "" !in ps
    requires Unseparated(ps, Separator)
    ensures PermissionList(Join(ps, Separator)) == ps
  {
    if ps == [] {
      assert Split("", Separator) == [""];
      assert DropEmpty([""]) == DropEmpty([]) + [];
    } else {
      SplitJoin(ps, Separator);
      DropEmptyNoop(ps);
    }
  }

  /** `getPermissionList()` after `setPermissionList(ps)` is `uniqueList(ps)`, when no element holds a comma. */
  lemma SetThenGet(ps: seq<string>)
    requires Unseparated(ps, Separator)
    ensures PermissionList(Join(UniqueList(ps), Separator)) == UniqueList(ps)
  {
    UniqueListDistinct(ps);
    UniqueListMembers(ps);
    StoredListRoundTrip(UniqueList(ps));
  }

  /** An element holding a comma is stored as several permissions. */
  lemma CommaSplitsPermission()
    ensures PermissionList(Join(UniqueList(["A,B"]), Separator)) == ["A", "B"]
  {
    assert UniqueList(["A,B"]) == ["A,B"] by {
      UniqueListSnoc([], "A,B");
    }
    var s := "A,B";
    IndexOfUnique(s, Separator, 1);
    assert s[..1] == "A";
    assert s[2..] == "B";
    IndexOfUnique("B", Separator, 1);
    assert Split(s, Separator) == ["A", "B"];
    assert DropEmpty(["A", "B"]) == DropEmpty(["A"]) + ["B"];
    assert DropEmpty(["A"]) == DropEmpty([]) + ["A"];
  }

  /** Merging two lists without commas gives a list that `setPermissionList` stores unchanged. */
  lemma MergedListStorable(current: seq<string>, ps: seq<string>)
    requires Unseparated(current, Separator) && Unseparated(ps, Separator)
    ensures Unseparated(UniqueList(current + ps), Separator)
    ensures UniqueList(UniqueList(current + ps)) == UniqueList(current + ps)
  {
    UniqueListMembers(current + ps);
    UniqueListIdempotent(current + ps);
  }

  /** Storing a list keeps every non-empty, comma-free element of it, whatever the other elements hold. */
  lemma StoredListKeeps(ps: seq<string>, q: string)
    requires q in ps && q != "" && Separator !in q
    ensures q in PermissionList(Join(ps, Separator))
  {
    JoinSplitKeepsPiece(ps, Separator, q);
    DropEmptyMembers(Split(Join(ps, Separator), Separator));
  }

  /**
   * What `addPermission` stores keeps the current permissions and every
   * non-empty, comma-free added one, even when other added ones hold commas.
   */
  lemma MergedListKeeps(current: seq<string>, ps: seq<string>)
    requires "" !in current && Unseparated(current, Separator)
    ensures forall q :: q in current || (q in ps && q != "" && Separator !in q) ==>
              q in PermissionList(Join(UniqueList(UniqueList(current + ps)), Separator))
  {
    var merged := UniqueList(current + ps);
    UniqueListMembers(current + ps);
    UniqueListMembers(merged);
    forall q | q in current || (q in ps && q != "" && Separator !in q)
      ensures q in PermissionList(Join(UniqueList(merged), Separator))
    {
      StoredListKeeps(UniqueList(merged), q);
    }
  }

  /** A `Role` instance; its methods reassign the stored permission string. */
  class Role {
    const id: string
    var name: string
    var inherit: Option<string>
    var permissions: string

    /** A new row stores the empty permission string, the column default. */
    constructor (id: string, name: string, inherit: Option<string>)
      ensures this.id == id && this.name == name && this.inherit == inherit
      ensures permissions == "" && GetPermissionList() == []
    {
      this.id, this.name, this.inherit := id, name, inherit;
      permissions := "";
      new;
      assert Split("", Separator) == [""];
      assert DropEmpty([""]) == DropEmpty([]) + [];
    }

    /** `getPermissionList()`: never an empty permission, never one holding a comma. */
    function GetPermissionList(): (ps: seq<string>)
      reads this
      ensures "" !in ps && Unseparated(ps, Separator)
    {
      PermissionListClean(permissions);
      PermissionList(permissions)
    }

    /** `hasPermission(p)`: only a non-empty, comma-free permission can be held. */
    predicate HasPermission(p: string)
      reads this
      ensures HasPermission(p) ==> p != "" && Separator !in p
    {
      p in GetPermissionList()
    }

    method SetPermissionList(ps: seq<string>)
      modifies this`permissions
      ensures permissions == Join(UniqueList(ps), Separator)
      ensures Unseparated(ps, Separator) ==> GetPermissionList() == UniqueList(ps)
    {
      permissions := Join(UniqueList(ps), Separator);
      if Unseparated(ps, Separator) {
        SetThenGet(ps);
      }
    }

    method AddPermission(ps: seq<string>)
      modifies this`permissions
      ensures permissions == Join(UniqueList(UniqueList(old(GetPermissionList()) + ps)), Separator)
      ensures forall q :: old(HasPermission(q)) ==> HasPermission(q)
      ensures forall p :: p in ps && p != "" && Separator !in p ==> HasPermission(p)
      ensures Unseparated(ps, Separator) ==> GetPermissionList() == UniqueList(old(GetPermissionList()) + ps)
      ensures Unseparated(ps, Separator) ==> forall p :: HasPermission(p) <==> old(HasPermission(p)) || (p in ps && p != "")
      ensures Unseparated(ps, Separator) && Distinct(old(GetPermissionList())) ==> old(GetPermissionList()) <= GetPermissionList()
    {
      var current := GetPermissionList();
      PermissionListClean(permissions);
      OwnListFirst(current, ps);
      if Unseparated(ps, Separator) {
        MergedListStorable(current, ps);
      }
      MergedListKeeps(current, ps);
      SetPermissionList(UniqueList(current + ps));
    }

    method RemovePermission(p: string)
      modifies this`permissions
      ensures permissions == Join(UniqueList(Remove(old(GetPermissionList()), p)), Separator)
      ensures !HasPermission(p)
      ensures GetPermissionList() == UniqueList(Remove(old(GetPermissionList()), p))
      ensures forall q :: q != p ==> (HasPermission(q) <==> old(HasPermission(q)))
      ensures Distinct(old(GetPermissionList())) ==> GetPermissionList() == Remove(old(GetPermissionList()), p)
    {
      var current := GetPermissionList();
      PermissionListClean(permissions);
      RemoveMembers(current, p);
      assert Unseparated(Remove(current, p), Separator);
      SetPermissionList(Remove(current, p));
      UniqueListMembers(Remove(current, p));
      if Distinct(current) {
        UniqueListNoop(Remove(current, p));
      }
    }
  }

  /**
   * The parent a role inherits from: `if (this.inherit)` requires a
   * non-empty id, and `getRoleById` must find it.
   */
  function Parent(role: RoleRow, roles: map<string, RoleRow>): Option<RoleRow>
  {
    if role.inherit.Some? && role.inherit.value != "" && role.inherit.value in roles
    then Some(roles[role.inherit.value]) else None
  }

  /**
   * The roles `getFullPermissionList` visits, nearest first: the role, then
   * its parent's lineage, ending at a role without a usable parent. The
   * walk follows parent links and does not stop on a cycle; `fuel` bounds
   * the number of roles visited and `None` stands for a walk that has not
   * ended within it.
   */
  function Lineage(role: RoleRow, roles: map<string, RoleRow>, fuel: nat): (r: Option<seq<RoleRow>>)
    ensures r.Some? ==> 0 < |r.value| <= fuel && r.value[0] == role
    decreases fuel
  {
    if fuel == 0 then None
    else
      match Parent(role, roles)
      case None => Some([role])
      case Some(parent) =>
        match Lineage(parent, roles, fuel - 1)
        case None => None
        case Some(rest) => Some([role] + rest)
  }

  /**
   * What the visits return, from the last back to the first: each role's
   * own list merged by `uniqueList` in front of what its parent returned.
   */
  function MergeLineage(chain: seq<RoleRow>): seq<string>
    requires |chain| > 0
    decreases |chain|
  {
    var own := PermissionList(chain[0].permissions);
    if |chain| == 1 then own else UniqueList(own + MergeLineage(chain[1..]))
  }

  /**
   * `getFullPermissionList`: the role's own list, merged with the parent's
   * full list when there is a parent; `None` when the recursion has not
   * settled within `fuel` visits.
   */
  function FullPermissionList(role: RoleRow, roles: map<string, RoleRow>, fuel: nat): (r: Option<seq<string>>)
    ensures r.Some? ==> fuel > 0
  {
    match Lineage(role, roles, fuel)
    case None => None
    case Some(chain) => Some(MergeLineage(chain))
  }

  /** One step of the walk: a role without a parent ends it, otherwise the parent's walk follows. */
  lemma LineageStep(role: RoleRow, roles: map<string, RoleRow>, fuel: nat)
    requires Lineage(role, roles, fuel).Some?
    ensures Parent(role, roles).None? ==> Lineage(role, roles, fuel).value == [role]
    ensures Parent(role, roles).Some? ==>
              && Lineage(Parent(role, roles).value, roles, fuel - 1).Some?
              && Lineage(role, roles, fuel).value == [role] + Lineage(Parent(role, roles).value, roles, fuel - 1).value
  {
  }

  /** `anc` is reached from `role` by following `k` parent links. */
  ghost predicate Ancestor(role: RoleRow, roles: map<string, RoleRow>, anc: RoleRow, k: nat)
    decreases k
  {
    if k == 0 then anc == role
    else Parent(role, roles).Some? && Ancestor(Parent(role, roles).value, roles, anc, k - 1)
  }

  /** A settled lineage lists exactly the ancestors, the `k`-th at index `k`. */
  lemma {:induction false} LineageAt(role: RoleRow, roles: map<string, RoleRow>, fuel: nat, anc: RoleRow, k: nat)
    requires Lineage(role, roles, fuel).Some?
    ensures Ancestor(role, roles, anc, k) <==>
              k < |Lineage(role, roles, fuel).value| && Lineage(role, roles, fuel).value[k] == anc
    decreases k
  {
    LineageStep(role, roles, fuel);
    if k > 0 && Parent(role, roles).Some? {
      var parent := Parent(role, roles).value;
      LineageAt(parent, roles, fuel - 1, anc, k - 1);
    }
  }

  /** The merged list holds exactly the own permissions of the roles of the chain. */
  lemma {:induction false} MergeMembers(chain: seq<RoleRow>, p: string)
    requires |chain| > 0
    ensures p in MergeLineage(chain) <==> exists k :: 0 <= k < |chain| && p in PermissionList(chain[k].permissions)
    decreases |chain|
  {
    var own := PermissionList(chain[0].permissions);
    PermissionListClean(chain[0].permissions);
    if p in own {
      assert 0 < |chain| && p in PermissionList(chain[0].permissions);
    }
    if |chain| > 1 {
      var rest := chain[1..];
      var merged := MergeLineage(rest);
      assert MergeLineage(chain) == UniqueList(own + merged);
      OwnListFirst(own, merged);
      MergeMembers(rest, p);
      if exists k :: 0 <= k < |chain| && p in PermissionList(chain[k].permissions) {
        var k :| 0 <= k < |chain| && p in PermissionList(chain[k].permissions);
        PermissionListClean(chain[k].permissions);
        if k > 0 {
          assert rest[k - 1] == chain[k];
        }
      }
      if p in merged {
        var j :| 0 <= j < |rest| && p in PermissionList(rest[j].permissions);
        PermissionListClean(rest[j].permissions);
        assert chain[j + 1] == rest[j];
      }
    }
  }

  /**
   * A settled full list is the role's own list when it has no parent;
   * otherwise it holds exactly the own permissions and those of the
   * parent's full list, the own ones first when they are distinct.
   */
  lemma FullListShape(role: RoleRow, roles: map<string, RoleRow>, fuel: nat)
    requires FullPermissionList(role, roles, fuel).Some?
    ensures Parent(role, roles).None? ==> FullPermissionList(role, roles, fuel).value == PermissionList(role.permissions)
    ensures Parent(role, roles).Some? ==>
              && fuel > 0
              && FullPermissionList(Parent(role, roles).value, roles, fuel - 1).Some?
              && forall p :: p in FullPermissionList(role, roles, fuel).value <==>
                   p in PermissionList(role.permissions) ||
                   (p in FullPermissionList(Parent(role, roles).value, roles, fuel - 1).value && p != "")
    ensures Distinct(PermissionList(role.permissions)) ==>
              PermissionList(role.permissions) <= FullPermissionList(role, roles, fuel).value
  {
    var own := PermissionList(role.permissions);
    var chain := Lineage(role, roles, fuel).value;
    var full := FullPermissionList(role, roles, fuel).value;
    assert full == MergeLineage(chain);
    LineageStep(role, roles, fuel);
    PermissionListClean(role.permissions);
    match Parent(role, roles)
    case None =>
      assert chain == [role];
    case Some(parent) =>
      var rest := Lineage(parent, roles, fuel - 1).value;
      assert chain[1..] == rest;
      assert FullPermissionList(parent, roles, fuel - 1) == Some(MergeLineage(rest));
      assert full == UniqueList(own + MergeLineage(rest));
      OwnListFirst(own, MergeLineage(rest));
  }

  /** Merging a clean own list with another keeps exactly their members, the own ones first when distinct. */
  lemma OwnListFirst(own: seq<string>, inherited: seq<string>)
    requires "" !in own
    ensures forall p :: p in UniqueList(own + inherited) <==> p in own || (p in inherited && p != "")
    ensures Distinct(own) ==> own <= UniqueList(own + inherited)
  {
    UniqueListMembers(own + inherited);
    if Distinct(own) {
      UniqueListNoop(own);
      UniqueListExtends(own, inherited);
    }
  }

  /** Every permission of the full list is an own permission of the role or of one of its ancestors. */
  lemma FullListSound(role: RoleRow, roles: map<string, RoleRow>, fuel: nat, p: string)
    requires FullPermissionList(role, roles, fuel).Some?
    requires p in FullPermissionList(role, roles, fuel).value
    ensures exists anc, k :: Ancestor(role, roles, anc, k) && p in PermissionList(anc.permissions)
  {
    var chain := Lineage(role, roles, fuel).value;
    MergeMembers(chain, p);
    var k :| 0 <= k < |chain| && p in PermissionList(chain[k].permissions);
    LineageAt(role, roles, fuel, chain[k], k);
  }

  /** The full list holds every own permission of the role and of each of its ancestors. */
  lemma FullListComplete(role: RoleRow, roles: map<string, RoleRow>, fuel: nat, anc: RoleRow, k: nat, p: string)
    requires FullPermissionList(role, roles, fuel).Some?
    requires Ancestor(role, roles, anc, k)
    requires p in PermissionList(anc.permissions)
    ensures p in FullPermissionList(role, roles, fuel).value
  {
    var chain := Lineage(role, roles, fuel).value;
    LineageAt(role, roles, fuel, anc, k);
    assert p in PermissionList(chain[k].permissions);
    MergeMembers(chain, p);
  }

  /** A role whose parent chain ends within `n` links. */
  ghost predicate ReachesRoot(role: RoleRow, roles: map<string, RoleRow>, n: nat)
    decreases n
  {
    match Parent(role, roles)
    case None => true
    case Some(parent) => n > 0 && ReachesRoot(parent, roles, n - 1)
  }

  /** On an acyclic chain of `n` links, `n + 1` visits suffice for the walk to end. */
  lemma {:induction false} AcyclicChainSettles(role: RoleRow, roles: map<string, RoleRow>, n: nat, fuel: nat)
    requires ReachesRoot(role, roles, n)
    requires fuel > n
    ensures Lineage(role, roles, fuel).Some? && FullPermissionList(role, roles, fuel).Some?
    decreases n
  {
    match Parent(role, roles)
    case None =>
    case Some(parent) =>
      AcyclicChainSettles(parent, roles, n - 1, fuel - 1);
  }

  /** Once the walk has ended, more fuel gives the same lineage. */
  lemma {:induction false} LineageFuelMonotone(role: RoleRow, roles: map<string, RoleRow>, fuel: nat, more: nat)
    requires Lineage(role, roles, fuel).Some?
    requires fuel <= more
    ensures Lineage(role, roles, more) == Lineage(role, roles, fuel)
    decreases fuel
  {
    if Parent(role, roles).Some? {
      LineageFuelMonotone(Parent(role, roles).value, roles, fuel - 1, more - 1);
    }
  }

  /** Once settled, more fuel gives the same list. */
  lemma FullListFuelMonotone(role: RoleRow, roles: map<string, RoleRow>, fuel: nat, more: nat)
    requires FullPermissionList(role, roles, fuel).Some?
    requires fuel <= more
    ensures FullPermissionList(role, roles, more) == FullPermissionList(role, roles, fuel)
  {
    LineageFuelMonotone(role, roles, fuel, more);
  }

  /**
   * Roles that each inherit from another role of the same set (a cycle of
   * `inherit` links, such as a role inheriting from itself) never settle.
   */
  lemma {:induction false} CycleNeverSettles(cycle: set<RoleRow>, roles: map<string, RoleRow>, role: RoleRow, fuel: nat)
    requires forall r :: r in cycle ==> Parent(r, roles).Some? && Parent(r, roles).value in cycle
    requires role in cycle
    ensures Lineage(role, roles, fuel).None? && FullPermissionList(role, roles, fuel).None?
    decreases fuel
  {
    if fuel > 0 {
      CycleNeverSettles(cycle, roles, Parent(role, roles).value, fuel - 1);
    }
  }
}
