/**
  The department hierarchy: create, delete, replace, patch, move and enable or disable departments, one
  request at a time.

  The table is a value here, and what each request makes of it is a function. `DepartmentStore.dfy` holds the
  table as an object that is updated in place and is proved against these functions.
*/
module Departments {

  import opened Wrappers
  import opened ParentForest

  /** The columns of the department table; `order` is the order in which a query returns the rows. */
  datatype Table = Table(
    order: seq<Id>,
    parents: Parents,
    level: map<Id, int>,
    path: map<Id, string>,
    enabled: map<Id, bool>)

  ghost predicate SameRows(t: Table) {
    && (forall x :: x in t.level <==> x in t.parents)
    && (forall x :: x in t.path <==> x in t.parents)
    && (forall x :: x in t.enabled <==> x in t.parents)
  }

  ghost predicate Valid(t: Table) {
    && SameRows(t)
    && Lists(t.order, t.parents) && ParentsExist(t.parents) && Acyclic(t.parents)
  }

  /** A field of a partial update: left out, or given, possibly as null. */
  datatype Field<T> = Unset | Set(value: Option<T>)

  datatype Request =
    | Create(x: Id, parentId: Option<Id>, enabled: bool)
    | Delete(x: Id, staffed: set<Id>)
    | BatchDelete(ids: seq<Id>, staffed: set<Id>)
    | Put(x: Id, parentId: Option<Id>, enabled: bool)
    | Patch(x: Id, newParent: Field<Id>, newStatus: Field<bool>)
    | Move(x: Id, newParentId: Option<Id>)
    | SetStatus(ids: seq<Id>, enabled: bool)

  /** Done; 404; 400; or an exception while saving, which leaves the table as it was. */
  datatype Outcome = Done | NotFound | Refused | Failed

  /******* What requests do to the table *******/

  /** Saving a department computes its level and path from what is stored for its parent. */
  function SaveRow(t: Table, x: Id, parent: Option<Id>, enabled: bool): Table
    requires parent.Some? ==> parent.value in t.level && parent.value in t.path
  {
    match parent
    case None => Table(t.order, t.parents[x := None], t.level[x := 0], t.path[x := "/"], t.enabled[x := enabled])
    case Some(y) =>
      Table(t.order, t.parents[x := parent], t.level[x := t.level[y] + 1], t.path[x := t.path[y] + y + "/"],
            t.enabled[x := enabled])
  }

  function AddRow(t: Table, x: Id, parent: Option<Id>, enabled: bool): Table
    requires parent.Some? ==> parent.value in t.level && parent.value in t.path
  {
    SaveRow(t, x, parent, enabled).(order := t.order + [x])
  }

  function Without(order: seq<Id>, x: Id): (r: seq<Id>)
    ensures forall z :: z in r <==> z in order && z != x
  {
    if order == [] then []
    else if order[|order| - 1] == x then Without(order[..|order| - 1], x)
    else Without(order[..|order| - 1], x) + [order[|order| - 1]]
  }

  function RemoveRow(t: Table, x: Id): Table {
    Table(Without(t.order, x), t.parents - {x}, t.level - {x}, t.path - {x}, t.enabled - {x})
  }

  ghost predicate CanDelete(t: Table, x: Id, staffed: set<Id>) {
    IsLeaf(t.parents, x) && x !in staffed
  }

  /** Whether `x` may be put under `y`. */
  ghost function CheckParent(t: Table, x: Id, y: Id): Outcome
    requires Valid(t)
  {
    if y == x then Refused
    else if y !in t.parents then NotFound
    else if x in Chain(t.parents, y) then Refused
    else Done
  }

  /** The empty string passes every check as "no parent" but names no row when the department is saved. */
  ghost function CheckGiven(t: Table, x: Id, parentId: Option<Id>): Outcome
    requires Valid(t)
  {
    match parentId
    case None => Done
    case Some(y) => if y == "" then Failed else CheckParent(t, x, y)
  }

  ghost function CheckCreate(t: Table, x: Id, parentId: Option<Id>): Outcome
    requires Valid(t)
  {
    match parentId
    case None => if x in t.parents then Failed else Done
    case Some(y) =>
      if y == "" then Failed
      else if y !in t.parents then NotFound
      else if !t.enabled[y] then Refused
      else if x in t.parents then Failed
      else Done
  }

  ghost function CheckPatch(t: Table, x: Id, newParent: Field<Id>, newStatus: Field<bool>): Outcome
    requires Valid(t)
  {
    var check := if newParent.Set? then CheckGiven(t, x, newParent.value) else Done;
    if check == Done && newStatus == Set(None) then Failed else check
  }

  function NewParentId(newParentId: Option<Id>): Option<Id> {
    if newParentId == Some("") || newParentId == Some("null") then None else newParentId
  }

  ghost function DeleteEach(t: Table, ids: seq<Id>, staffed: set<Id>): Table
    decreases |ids|
  {
    if ids == [] then t
    else
      var before, x := DeleteEach(t, ids[..|ids| - 1], staffed), ids[|ids| - 1];
      if x in before.parents && CanDelete(before, x, staffed) then RemoveRow(before, x) else before
  }

  /** Saving the first `k` of these rows again, disabled. */
  ghost function DisableFirst(t: Table, ids: seq<Id>, k: nat): (r: Table)
    requires Valid(t) && k <= |ids|
    ensures Valid(r) && r.parents == t.parents && r.order == t.order
  {
    if k == 0 then t
    else
      var before, x := DisableFirst(t, ids, k - 1), ids[k - 1];
      if x in before.parents then
        SaveAgainValid(before, x, false);
        SaveRow(before, x, before.parents[x], false)
      else before
  }

  /** Disabling a department disables everything below it as well. */
  ghost function SetOne(t: Table, x: Id, enabled: bool): (r: Table)
    requires Valid(t) && x in t.parents
    ensures Valid(r) && r.parents == t.parents && r.order == t.order
  {
    SaveAgainValid(t, x, enabled);
    var saved := SaveRow(t, x, t.parents[x], enabled);
    if enabled then saved
    else
      var below := Below(saved.parents, saved.order, x);
      DisableFirst(saved, below, |below|)
  }

  ghost function SetEach(t: Table, ids: seq<Id>, enabled: bool): (r: Table)
    requires Valid(t)
    ensures Valid(r) && r.parents == t.parents && r.order == t.order
    decreases |ids|
  {
    if ids == [] then t
    else
      var before, x := SetEach(t, ids[..|ids| - 1], enabled), ids[|ids| - 1];
      if x in before.parents then SetOne(before, x, enabled) else before
  }

  /** What a request answers. */
  ghost function Answer(t: Table, r: Request): Outcome
    requires Valid(t)
  {
    match r
    case Create(x, parentId, _) => CheckCreate(t, x, parentId)
    case Delete(x, staffed) => if x !in t.parents then NotFound else if CanDelete(t, x, staffed) then Done else Refused
    case BatchDelete(_, _) => Done
    case Put(x, parentId, _) => if x !in t.parents then NotFound else CheckGiven(t, x, parentId)
    case Patch(x, newParent, newStatus) =>
      if x !in t.parents then NotFound else CheckPatch(t, x, newParent, newStatus)
    case Move(x, newParentId) => if x !in t.parents then NotFound else CheckGiven(t, x, NewParentId(newParentId))
    case SetStatus(_, _) => Done
  }

  /** The parent and status an edit of `x` saves. */
  ghost function Edited(t: Table, r: Request): (Option<Id>, bool)
    requires Valid(t) && (r.Put? || r.Patch? || r.Move?) && r.x in t.parents
  {
    match r
    case Put(x, parentId, enabled) => (if parentId.Some? then parentId else t.parents[x], enabled)
    case Patch(x, newParent, newStatus) =>
      (if newParent.Set? then newParent.value else t.parents[x],
       if newStatus.Set? && newStatus.value.Some? then newStatus.value.value else t.enabled[x])
    case Move(x, newParentId) => (NewParentId(newParentId), t.enabled[x])
  }

  /** The table after a request that is done; any other request leaves it as it was. */
  ghost function Apply(t: Table, r: Request): (t': Table)
    requires Valid(t)
    ensures Valid(t')
  {
    if Answer(t, r) != Done then t
    else
      match r
      case Create(x, parentId, enabled) => AddValid(t, x, parentId, enabled); AddRow(t, x, parentId, enabled)
      case Delete(x, _) => RemoveValid(t, x); RemoveRow(t, x)
      case BatchDelete(ids, staffed) => DeleteEachValid(t, ids, staffed); DeleteEach(t, ids, staffed)
      case SetStatus(ids, enabled) => SetEach(t, ids, enabled)
      case _ =>
        var (parent, enabled) := Edited(t, r);
        EditedOk(t, r);
        EditValid(t, r.x, parent, enabled);
        SaveRow(t, r.x, parent, enabled)
  }

  ghost function Run(t: Table, requests: seq<Request>): (t': Table)
    requires Valid(t)
    ensures Valid(t')
    decreases |requests|
  {
    if requests == [] then t else Apply(Run(t, requests[..|requests| - 1]), requests[|requests| - 1])
  }

  /******* Every request keeps the hierarchy acyclic *******/

  lemma AddValid(t: Table, x: Id, parent: Option<Id>, enabled: bool)
    requires Valid(t) && x !in t.parents && (parent.Some? ==> parent.value in t.parents)
    ensures Valid(AddRow(t, x, parent, enabled))
  {
    AddKeeps(t.parents, x, parent);
    AddListed(t.order, t.parents, x, parent);
    match parent
    case None =>
    case Some(_) =>
  }

  lemma AddListed(order: seq<Id>, p: Parents, x: Id, parent: Option<Id>)
    requires Lists(order, p) && x !in p
    ensures Lists(order + [x], p[x := parent])
  {
    NoRepeatsConcat(order, [x]);
  }

  lemma {:induction false} WithoutNoRepeats(order: seq<Id>, x: Id)
    requires NoRepeats(order)
    ensures NoRepeats(Without(order, x))
  {
    if order != [] {
      var z, rest := order[|order| - 1], order[..|order| - 1];
      WithoutNoRepeats(rest, x);
      assert z !in rest;
      NoRepeatsConcat(Without(rest, x), [z]);
    }
  }

  lemma RemoveValid(t: Table, x: Id)
    requires Valid(t) && IsLeaf(t.parents, x)
    ensures Valid(RemoveRow(t, x))
  {
    RemoveLeafKeeps(t.parents, x);
    WithoutNoRepeats(t.order, x);
  }

  lemma {:induction false} DeleteEachValid(t: Table, ids: seq<Id>, staffed: set<Id>)
    requires Valid(t)
    ensures Valid(DeleteEach(t, ids, staffed))
    decreases |ids|
  {
    if ids != [] {
      var before, x := DeleteEach(t, ids[..|ids| - 1], staffed), ids[|ids| - 1];
      DeleteEachValid(t, ids[..|ids| - 1], staffed);
      if x in before.parents && CanDelete(before, x, staffed) {
        RemoveValid(before, x);
      }
    }
  }

  /** `x` may go under `parent`: it is nothing, or a row that is neither `x` nor below it. */
  ghost predicate MayGoUnder(p: Parents, x: Id, parent: Option<Id>)
    requires Acyclic(p)
  {
    parent.Some? ==> parent.value in p && !OnLine(p, x, parent.value)
  }

  lemma EditValid(t: Table, x: Id, parent: Option<Id>, enabled: bool)
    requires Valid(t) && x in t.parents && MayGoUnder(t.parents, x, parent)
    ensures Valid(SaveRow(t, x, parent, enabled))
  {
    var p' := t.parents[x := parent];
    forall z ensures ParentIn(p', z) {
      assert ParentIn(t.parents, z);
    }
    match parent
    case None => UprootKeeps(t.parents, x);
    case Some(y) => ReparentExact(t.parents, x, y);
  }

  /** Where a department is, it may stay. */
  lemma MayStay(p: Parents, x: Id)
    requires Acyclic(p) && ParentsExist(p) && x in p
    ensures MayGoUnder(p, x, p[x])
  {
    assert ParentIn(p, x);
    if p[x].Some? {
      DepthStep(p, x, p[x].value);
      if OnLine(p, x, p[x].value) {
        OnLineDepth(p, x, p[x].value);
      }
    }
  }

  lemma SaveAgainValid(t: Table, x: Id, enabled: bool)
    requires Valid(t) && x in t.parents
    ensures t.parents[x].Some? ==>
              t.parents[x].value in t.parents && t.parents[x].value in t.level && t.parents[x].value in t.path
    ensures var r := SaveRow(t, x, t.parents[x], enabled);
            Valid(r) && r.parents == t.parents && r.order == t.order
  {
    assert ParentIn(t.parents, x);
    assert t.parents[x := t.parents[x]] == t.parents;
  }

  lemma EditedOk(t: Table, r: Request)
    requires Valid(t) && (r.Put? || r.Patch? || r.Move?) && Answer(t, r) == Done
    ensures r.x in t.parents && MayGoUnder(t.parents, r.x, Edited(t, r).0)
  {
    MayStay(t.parents, r.x);
  }

  /******* Levels and paths *******/

  /** The ids of a chain, root first, each followed by a slash. */
  function Spell(chain: seq<Id>): string {
    if chain == [] then "/" else Spell(chain[1..]) + chain[0] + "/"
  }

  /** The level counts the ancestors and the path spells them. */
  ghost predicate InPlace(t: Table, x: Id)
    requires Valid(t) && x in t.parents
  {
    t.level[x] == Depth(t.parents, x) && t.path[x] == Spell(Chain(t.parents, x))
  }

  ghost predicate Consistent(t: Table)
    requires Valid(t)
  {
    forall x :: x in t.parents ==> InPlace(t, x)
  }

  /** Saving puts a department in place when its parent is in place. */
  lemma SavePlaces(t: Table, x: Id, parent: Option<Id>, enabled: bool)
    requires Valid(t) && (parent.Some? ==> parent.value in t.parents && InPlace(t, parent.value))
    requires Acyclic(t.parents[x := parent])
    requires parent.Some? ==> Grounded(t.parents[x := parent], parent.value)
    requires parent.Some? ==> Chain(t.parents[x := parent], parent.value) == Chain(t.parents, parent.value)
    ensures var t', p' := SaveRow(t, x, parent, enabled), t.parents[x := parent];
            t'.level[x] == Depth(p', x) && t'.path[x] == Spell(Chain(p', x))
  {
    var p' := t.parents[x := parent];
    match parent
    case None => DepthUnique(p', x, 0, Depth(p', x));
    case Some(y) => DepthStep(p', x, y);
  }

  lemma CreateKeepsPlaces(t: Table, x: Id, parent: Option<Id>, enabled: bool)
    requires Valid(t) && Consistent(t) && x !in t.parents && (parent.Some? ==> parent.value in t.parents)
    ensures Valid(AddRow(t, x, parent, enabled)) && Consistent(AddRow(t, x, parent, enabled))
  {
    AddValid(t, x, parent, enabled);
    AddKeeps(t.parents, x, parent);
    SavePlaces(t, x, parent, enabled);
    var t' := AddRow(t, x, parent, enabled);
    forall z | z in t'.parents ensures InPlace(t', z) {
      assert z != x ==> InPlace(t, z);
    }
  }

  lemma DeleteKeepsPlaces(t: Table, x: Id)
    requires Valid(t) && Consistent(t) && IsLeaf(t.parents, x)
    ensures Valid(RemoveRow(t, x)) && Consistent(RemoveRow(t, x))
  {
    RemoveValid(t, x);
    RemoveLeafKeeps(t.parents, x);
    var t' := RemoveRow(t, x);
    forall z | z in t'.parents ensures InPlace(t', z) {
      assert InPlace(t, z);
    }
  }

  /** Re-parenting `x` changes the chains of `x` and of what lies below it, and no other. */
  lemma OtherChains(p: Parents, x: Id, parent: Option<Id>, z: Id)
    requires Acyclic(p) && ParentsExist(p) && x in p && z in p && MayGoUnder(p, x, parent) && Acyclic(p[x := parent])
    requires !OnLine(p[x := parent], x, z)
    ensures Chain(p[x := parent], z) == Chain(p, z)
  {
    var p' := p[x := parent];
    forall a | OnLine(p', a, z) ensures Up(p', a) == Up(p, a) {
    }
    ChainKept(p', p, z);
  }

  /** An edit leaves everything in place that is not strictly below the edited department. */
  lemma EditKeepsPlaces(t: Table, x: Id, parent: Option<Id>, enabled: bool, z: Id)
    requires Valid(t) && Consistent(t) && x in t.parents && MayGoUnder(t.parents, x, parent) && z in t.parents
    requires Valid(SaveRow(t, x, parent, enabled)) && x !in Chain(t.parents[x := parent], z)
    ensures InPlace(SaveRow(t, x, parent, enabled), z)
  {
    var p' := t.parents[x := parent];
    if z == x {
      if parent.Some? {
        UnderNewParent(t.parents, x, parent.value);
        assert InPlace(t, parent.value);
      }
      SavePlaces(t, x, parent, enabled);
    } else {
      OtherChains(t.parents, x, parent, z);
      assert InPlace(t, z);
    }
  }

  lemma UnderNewParent(p: Parents, x: Id, y: Id)
    requires Acyclic(p) && ParentsExist(p) && x in p && y in p && !OnLine(p, x, y) && Acyclic(p[x := Some(y)])
    ensures Chain(p[x := Some(y)], y) == Chain(p, y)
  {
    ChainKept(p, p[x := Some(y)], y);
  }

  /** A leaf, or a department whose parent stays, can be edited without disturbing any level or path. */
  lemma HarmlessEdit(t: Table, x: Id, parent: Option<Id>, enabled: bool)
    requires Valid(t) && Consistent(t) && x in t.parents && MayGoUnder(t.parents, x, parent)
    requires IsLeaf(t.parents, x) || parent == t.parents[x]
    ensures Valid(SaveRow(t, x, parent, enabled)) && Consistent(SaveRow(t, x, parent, enabled))
  {
    EditValid(t, x, parent, enabled);
    forall z | z in t.parents ensures InPlace(SaveRow(t, x, parent, enabled), z) {
      HarmlessFor(t, x, parent, enabled, z);
    }
  }

  lemma HarmlessFor(t: Table, x: Id, parent: Option<Id>, enabled: bool, z: Id)
    requires Valid(t) && Consistent(t) && x in t.parents && MayGoUnder(t.parents, x, parent) && z in t.parents
    requires IsLeaf(t.parents, x) || parent == t.parents[x]
    requires Valid(SaveRow(t, x, parent, enabled))
    ensures InPlace(SaveRow(t, x, parent, enabled), z)
  {
    if x !in Chain(t.parents[x := parent], z) {
      EditKeepsPlaces(t, x, parent, enabled, z);
    } else {
      StillAbove(t.parents, x, parent, z);
      assert InPlace(t, z);
    }
  }

  lemma StillAbove(p: Parents, x: Id, parent: Option<Id>, z: Id)
    requires Acyclic(p) && x in p && z in p && MayGoUnder(p, x, parent) && (IsLeaf(p, x) || parent == p[x])
    requires Acyclic(p[x := parent]) && x in Chain(p[x := parent], z)
    ensures p[x := parent] == p && z != x
  {
    ChainDistinct(p[x := parent], x);
    if IsLeaf(p, x) {
      LeafOnNoLine(p[x := parent], x, z);
    }
  }

  /******* What re-parenting an inner department breaks *******/

  /** Department ids are UUID texts. */
  predicate NoSlash(id: Id) {
    '/' !in id
  }

  /** Where the last of several ids begins in a path. */
  lemma LastSegment(a: string, x: Id, b: string, y: Id)
    requires a + x + "/" == b + y + "/" && NoSlash(x) && NoSlash(y)
    requires a != "" && b != "" && a[|a| - 1] == '/' && b[|b| - 1] == '/'
    ensures a == b && x == y
  {
    var s := a + x + "/";
    assert s[|a| - 1] == '/' && (b + y + "/")[|b| - 1] == '/';
    assert |a| == |b| by {
      assert forall i :: |a| <= i < |s| - 1 ==> s[i] in x;
      assert forall i :: |b| <= i < |s| - 1 ==> (b + y + "/")[i] in y;
    }
    assert a == s[..|a|] && b == s[..|b|];
    assert x == s[|a|..|s| - 1] && y == s[|b|..|s| - 1];
  }

  /** A path determines the chain it spells. */
  lemma {:induction false} SpellInjective(c: seq<Id>, d: seq<Id>)
    requires Spell(c) == Spell(d)
    requires forall i :: 0 <= i < |c| ==> NoSlash(c[i])
    requires forall i :: 0 <= i < |d| ==> NoSlash(d[i])
    ensures c == d
    decreases |c|
  {
    if c != [] && d != [] {
      LastSegment(Spell(c[1..]), c[0], Spell(d[1..]), d[0]);
      SpellInjective(c[1..], d[1..]);
      assert c == [c[0]] + c[1..] && d == [d[0]] + d[1..];
    }
  }

  /**
    The limit of the automatic levels and paths: after `x` moved, whatever lies strictly below it keeps its
    old level and path, and these are wrong unless the parent of `x` is the same as before.
  */
  lemma EditStrandsBelow(t: Table, x: Id, parent: Option<Id>, enabled: bool, z: Id)
    requires Valid(t) && Consistent(t) && x in t.parents && MayGoUnder(t.parents, x, parent)
    requires Valid(SaveRow(t, x, parent, enabled))
    requires z in t.parents && x in Chain(t.parents[x := parent], z)
    requires forall id :: id in t.parents ==> NoSlash(id)
    ensures InPlace(SaveRow(t, x, parent, enabled), z) <==> parent == t.parents[x]
  {
    if parent == t.parents[x] {
      HarmlessFor(t, x, parent, enabled, z);
    } else {
      Stranded(t, x, parent, enabled, z);
    }
  }

  lemma Stranded(t: Table, x: Id, parent: Option<Id>, enabled: bool, z: Id)
    requires Valid(t) && x in t.parents && z in t.parents && InPlace(t, z) && MayGoUnder(t.parents, x, parent)
    requires Valid(SaveRow(t, x, parent, enabled)) && x in Chain(t.parents[x := parent], z) && parent != t.parents[x]
    requires forall id :: id in t.parents ==> NoSlash(id)
    ensures !InPlace(SaveRow(t, x, parent, enabled), z)
  {
    ChainDistinct(t.parents[x := parent], x);
    OtherSpelling(t.parents, x, parent, z);
  }

  lemma OtherSpelling(p: Parents, x: Id, parent: Option<Id>, z: Id)
    requires Acyclic(p) && Acyclic(p[x := parent]) && ParentsExist(p) && x in p && z in p
    requires MayGoUnder(p, x, parent) && x in Chain(p[x := parent], z) && parent != p[x]
    requires forall id :: id in p ==> NoSlash(id)
    ensures Spell(Chain(p, z)) != Spell(Chain(p[x := parent], z))
  {
    var p' := p[x := parent];
    if Spell(Chain(p, z)) == Spell(Chain(p', z)) {
      ChainNoSlash(p, z);
      ChainNoSlash(p', z);
      SpellInjective(Chain(p, z), Chain(p', z));
      SameChainSameParent(p, x, parent, z);
    }
  }

  lemma ChainNoSlash(p: Parents, z: Id)
    requires Grounded(p, z) && z in p && forall id :: id in p ==> NoSlash(id)
    ensures forall i :: 0 <= i < |Chain(p, z)| ==> NoSlash(Chain(p, z)[i])
  {
    forall i | 0 <= i < |Chain(p, z)| ensures NoSlash(Chain(p, z)[i]) {
      ChainAt(p, z, i);
    }
  }

  lemma SameChainSameParent(p: Parents, x: Id, parent: Option<Id>, z: Id)
    requires Acyclic(p) && Acyclic(p[x := parent]) && ParentsExist(p) && x in p && z in p
    requires MayGoUnder(p, x, parent)
    requires x in Chain(p, z) && Chain(p[x := parent], z) == Chain(p, z)
    ensures parent == p[x]
  {
    var p' := p[x := parent];
    var i :| 0 <= i < |Chain(p, z)| && Chain(p, z)[i] == x;
    ChainAt(p, z, i);
    ChainAt(p', z, i);
    assert ParentIn(p, x) && Up(p, x) == p[x] && Up(p', x) == parent;
    ChainHead(p, x);
    ChainHead(p', x);
  }

  lemma ChainHead(p: Parents, x: Id)
    requires Grounded(p, x)
    ensures Up(p, x) == if Chain(p, x) == [] then None else Some(Chain(p, x)[0])
  {
  }

  /******* Disabling repairs *******/

  /** The row at `i` has its parent before it, or `x` as its parent. */
  ghost predicate ParentBefore(p: Parents, x: Id, s: seq<Id>, i: nat)
    requires i < |s|
  {
    s[i] in p && p[s[i]].Some? && (p[s[i]].value == x || exists j :: 0 <= j < i && s[j] == p[s[i]].value)
  }

  ghost predicate ParentsFirst(p: Parents, x: Id, s: seq<Id>) {
    forall i :: 0 <= i < |s| ==> ParentBefore(p, x, s, i)
  }

  lemma ParentsFirstConcat(p: Parents, x: Id, a: seq<Id>, c: Id, b: seq<Id>)
    requires ParentsFirst(p, x, a) && c in p && p[c] == Some(x) && ParentsFirst(p, c, b)
    ensures ParentsFirst(p, x, a + [c] + b)
  {
    var s := a + [c] + b;
    forall i | 0 <= i < |s| ensures ParentBefore(p, x, s, i) {
      if i < |a| {
        assert ParentBefore(p, x, a, i) && forall j :: 0 <= j < i ==> s[j] == a[j];
      } else if i > |a| {
        var n := |a| + 1;
        assert ParentBefore(p, c, b, i - n) && s[|a|] == c && forall j :: 0 <= j < i - n ==> s[n + j] == b[j];
      }
    }
  }

  lemma {:induction false} UnderParentsFirst(p: Parents, order: seq<Id>, x: Id, k: nat, room: nat)
    requires Grounded(p, x) && x in p && room == Room(p, x) && k <= |Children(p, order, x)|
    ensures ParentsFirst(p, x, Under(p, order, x, k))
    decreases room, k
  {
    if k > 0 {
      var c := Children(p, order, x)[k - 1];
      ChildRoom(p, order, x, k - 1);
      UnderParentsFirst(p, order, x, k - 1, room);
      UnderParentsFirst(p, order, c, |Children(p, order, c)|, room - 1);
      ParentsFirstConcat(p, x, Under(p, order, x, k - 1), c, Below(p, order, c));
    }
  }

  /** Saving again a department whose parent is in place puts it in place and disturbs nothing that is. */
  lemma SaveAgainPlaces(t: Table, x: Id, enabled: bool, z: Id)
    requires Valid(t) && x in t.parents && (t.parents[x].Some? ==> t.parents[x].value in t.parents && InPlace(t, t.parents[x].value))
    requires z in t.parents && (z == x || InPlace(t, z))
    ensures Valid(SaveRow(t, x, t.parents[x], enabled)) && InPlace(SaveRow(t, x, t.parents[x], enabled), z)
  {
    SaveAgainValid(t, x, enabled);
    SavePlaces(t, x, t.parents[x], enabled);
  }

  ghost predicate PlacedBy(t: Table, s: seq<Id>, k: nat, z: Id)
    requires Valid(t) && k <= |s|
  {
    z in t.parents && InPlace(DisableFirst(t, s, k), z)
  }

  lemma {:induction false} DisableFirstPlaces(t: Table, x: Id, s: seq<Id>, k: nat, z: Id)
    requires Valid(t) && ParentsFirst(t.parents, x, s) && k <= |s|
    requires x in t.parents && InPlace(t, x) && (z == x || exists i :: 0 <= i < k && s[i] == z)
    ensures PlacedBy(t, s, k, z)
    decreases k
  {
    hide Valid, InPlace;
    if k > 0 {
      var last := s[k - 1];
      assert ParentBefore(t.parents, x, s, k - 1);
      DisableFirstPlaces(t, x, s, k - 1, t.parents[last].value);
      if z != last {
        DisableFirstPlaces(t, x, s, k - 1, z);
      }
      DisableLastPlaces(t, s, k, z);
    }
  }

  lemma DisableLastPlaces(t: Table, s: seq<Id>, k: nat, z: Id)
    requires Valid(t) && 0 < k <= |s| && s[k - 1] in t.parents && z in t.parents
    requires var up := t.parents[s[k - 1]]; up.Some? ==> PlacedBy(t, s, k - 1, up.value)
    requires z == s[k - 1] || PlacedBy(t, s, k - 1, z)
    ensures PlacedBy(t, s, k, z)
  {
    hide Valid, InPlace;
    SaveAgainPlaces(DisableFirst(t, s, k - 1), s[k - 1], false, z);
  }

  lemma {:induction false} DisableFirstDisables(t: Table, s: seq<Id>, k: nat, z: Id)
    requires Valid(t) && k <= |s| && z in t.parents
    ensures DisableFirst(t, s, k).enabled[z] == (t.enabled[z] && forall i :: 0 <= i < k ==> s[i] != z)
    decreases k
  {
    hide Valid;
    if k > 0 {
      DisableFirstDisables(t, s, k - 1, z);
      if s[k - 1] in t.parents {
        SaveSets(DisableFirst(t, s, k - 1), s[k - 1], z);
      }
    }
  }

  lemma SaveSets(t: Table, x: Id, z: Id)
    requires Valid(t) && x in t.parents && z in t.parents
    ensures t.parents[x].Some? ==> t.parents[x].value in t.level && t.parents[x].value in t.path
    ensures var r := SaveRow(t, x, t.parents[x], false);
            z in r.enabled && r.enabled[z] == (z != x && t.enabled[z])
  {
    assert ParentIn(t.parents, x);
  }

  lemma BelowRepaired(t: Table, x: Id, z: Id)
    requires Valid(t) && x in t.parents && InPlace(t, x) && !t.enabled[x]
    requires z in t.parents && OnLine(t.parents, x, z)
    ensures var below := Below(t.parents, t.order, x);
            var r := DisableFirst(t, below, |below|);
            InPlace(r, z) && !r.enabled[z]
  {
    var below := Below(t.parents, t.order, x);
    BelowExact(t.parents, t.order, x);
    UnderParentsFirst(t.parents, t.order, x, |Children(t.parents, t.order, x)|, Room(t.parents, x));
    hide Valid, InPlace;
    assert z == x || z in below;
    DisableFirstPlaces(t, x, below, |below|, z);
    DisableFirstDisables(t, below, |below|, z);
  }

  /**
    Disabling a department whose parent is in place disables it and everything below it, and puts all of
    these in place, whatever moves stranded them before.
  */
  lemma DisablingRepairs(t: Table, x: Id, z: Id)
    requires Valid(t) && x in t.parents && (t.parents[x].Some? ==> t.parents[x].value in t.parents && InPlace(t, t.parents[x].value))
    requires z in t.parents && OnLine(t.parents, x, z)
    ensures InPlace(SetOne(t, x, false), z) && !SetOne(t, x, false).enabled[z]
  {
    SaveAgainPlaces(t, x, false, x);
    SaveAgainValid(t, x, false);
    hide Valid, InPlace;
    BelowRepaired(SaveRow(t, x, t.parents[x], false), x, z);
  }

  /******* Runs *******/

  lemma {:induction false} DeleteEachKeepsPlaces(t: Table, ids: seq<Id>, staffed: set<Id>)
    requires Valid(t) && Consistent(t)
    ensures Valid(DeleteEach(t, ids, staffed)) && Consistent(DeleteEach(t, ids, staffed))
    decreases |ids|
  {
    if ids != [] {
      var before, x := DeleteEach(t, ids[..|ids| - 1], staffed), ids[|ids| - 1];
      DeleteEachKeepsPlaces(t, ids[..|ids| - 1], staffed);
      if x in before.parents && CanDelete(before, x, staffed) {
        DeleteKeepsPlaces(before, x);
      }
    }
  }

  lemma SaveAgainConsistent(t: Table, x: Id, enabled: bool)
    requires Valid(t) && Consistent(t) && x in t.parents
    ensures t.parents[x].Some? ==> t.parents[x].value in t.level && t.parents[x].value in t.path
    ensures Valid(SaveRow(t, x, t.parents[x], enabled)) && Consistent(SaveRow(t, x, t.parents[x], enabled))
  {
    assert ParentIn(t.parents, x);
    MayStay(t.parents, x);
    HarmlessEdit(t, x, t.parents[x], enabled);
  }

  lemma {:induction false} DisableFirstConsistent(t: Table, ids: seq<Id>, k: nat)
    requires Valid(t) && Consistent(t) && k <= |ids|
    ensures Consistent(DisableFirst(t, ids, k))
  {
    hide Valid, Consistent;
    if k > 0 {
      DisableFirstConsistent(t, ids, k - 1);
      if ids[k - 1] in t.parents {
        SaveAgainConsistent(DisableFirst(t, ids, k - 1), ids[k - 1], false);
      }
    }
  }

  lemma SetOneConsistent(t: Table, x: Id, enabled: bool)
    requires Valid(t) && Consistent(t) && x in t.parents
    ensures Consistent(SetOne(t, x, enabled))
  {
    SaveAgainConsistent(t, x, enabled);
    SaveAgainValid(t, x, enabled);
    var saved := SaveRow(t, x, t.parents[x], enabled);
    if !enabled {
      var below := Below(saved.parents, saved.order, x);
      DisableFirstConsistent(saved, below, |below|);
    }
  }

  lemma {:induction false} SetEachConsistent(t: Table, ids: seq<Id>, enabled: bool)
    requires Valid(t) && Consistent(t)
    ensures Consistent(SetEach(t, ids, enabled))
    decreases |ids|
  {
    if ids != [] {
      var before, x := SetEach(t, ids[..|ids| - 1], enabled), ids[|ids| - 1];
      SetEachConsistent(t, ids[..|ids| - 1], enabled);
      if x in before.parents {
        SetOneConsistent(before, x, enabled);
      }
    }
  }

  /** The request does not put an inner department under another parent. */
  ghost predicate Gentle(t: Table, r: Request)
    requires Valid(t)
  {
    (r.Put? || r.Patch? || r.Move?) && r.x in t.parents ==>
      IsLeaf(t.parents, r.x) || Edited(t, r).0 == t.parents[r.x]
  }

  lemma ApplyEdit(t: Table, r: Request)
    requires Valid(t) && (r.Put? || r.Patch? || r.Move?) && Answer(t, r) == Done
    ensures r.x in t.parents && MayGoUnder(t.parents, r.x, Edited(t, r).0)
    ensures Apply(t, r) == SaveRow(t, r.x, Edited(t, r).0, Edited(t, r).1)
  {
    EditedOk(t, r);
  }

  lemma EditConsistent(t: Table, r: Request)
    requires Valid(t) && Consistent(t) && Gentle(t, r) && (r.Put? || r.Patch? || r.Move?)
    ensures Consistent(Apply(t, r))
  {
    hide Consistent, MayGoUnder, IsLeaf, CheckGiven, CheckPatch, SaveRow, Edited, Acyclic;
    if Answer(t, r) == Done {
      ApplyEdit(t, r);
      HarmlessEdit(t, r.x, Edited(t, r).0, Edited(t, r).1);
    }
  }

  lemma ConsistentStep(t: Table, r: Request)
    requires Valid(t) && Consistent(t) && Gentle(t, r)
    ensures Consistent(Apply(t, r))
  {
    match r
    case Create(x, parentId, enabled) => CreateConsistent(t, x, parentId, enabled);
    case Delete(x, staffed) => DeleteConsistent(t, x, staffed);
    case BatchDelete(ids, staffed) => DeleteEachKeepsPlaces(t, ids, staffed);
    case SetStatus(ids, enabled) => SetEachConsistent(t, ids, enabled);
    case _ => EditConsistent(t, r);
  }

  lemma CreateConsistent(t: Table, x: Id, parentId: Option<Id>, enabled: bool)
    requires Valid(t) && Consistent(t)
    ensures Consistent(Apply(t, Create(x, parentId, enabled)))
  {
    if Answer(t, Create(x, parentId, enabled)) == Done {
      CreateKeepsPlaces(t, x, parentId, enabled);
    }
  }

  lemma DeleteConsistent(t: Table, x: Id, staffed: set<Id>)
    requires Valid(t) && Consistent(t)
    ensures Consistent(Apply(t, Delete(x, staffed)))
  {
    if Answer(t, Delete(x, staffed)) == Done {
      DeleteKeepsPlaces(t, x);
    }
  }

  ghost predicate GentleRun(t: Table, requests: seq<Request>)
    requires Valid(t)
    decreases |requests|
  {
    requests == [] ||
    (GentleRun(t, requests[..|requests| - 1])
     && Gentle(Run(t, requests[..|requests| - 1]), requests[|requests| - 1]))
  }

  const EMPTY := Table([], map[], map[], map[], map[])

  lemma EmptyValid()
    ensures Valid(EMPTY) && Consistent(EMPTY)
  {
  }

  /** In every state reached from the empty table no department is its own ancestor, and every parent exists. */
  lemma HierarchyStaysAcyclic(requests: seq<Request>)
    ensures Valid(EMPTY)
    ensures var p := Run(EMPTY, requests).parents; forall x :: x in p ==> Grounded(p, x) && x !in Chain(p, x)
    ensures ParentsExist(Run(EMPTY, requests).parents)
  {
    EmptyValid();
    var p := Run(EMPTY, requests).parents;
    forall x | x in p ensures Grounded(p, x) && x !in Chain(p, x) {
      ChainDistinct(p, x);
    }
  }

  /** Levels and paths are right in every state reached without re-parenting an inner department. */
  lemma {:induction false} LevelsHoldOverRuns(requests: seq<Request>)
    requires Valid(EMPTY) && GentleRun(EMPTY, requests)
    ensures Consistent(Run(EMPTY, requests))
    decreases |requests|
  {
    if requests == [] {
      EmptyValid();
    } else {
      var init := requests[..|requests| - 1];
      LevelsHoldOverRuns(init);
      ConsistentStep(Run(EMPTY, init), requests[|requests| - 1]);
    }
  }
}
