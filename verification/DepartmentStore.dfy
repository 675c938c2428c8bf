/**
  The department table as an object that requests update in place.

  Each method answers and changes the table as `Departments.Answer` and `Departments.Apply` say; what those
  keep over whole runs is proved there.
*/
module DepartmentStore {

  import opened Wrappers
  import opened ParentForest
  import opened Departments

  /** What is left of a chain when `current` is the next ancestor. */
  ghost function Rest(p: Parents, current: Option<Id>): seq<Id>
    requires Acyclic(p) && (current.Some? ==> current.value in p)
  {
    match current
    case None => []
    case Some(y) => [y] + Chain(p, y)
  }

  lemma ChainUnfold(p: Parents, x: Id)
    requires Acyclic(p) && ParentsExist(p) && x in p
    ensures p[x].Some? ==> p[x].value in p
    ensures Chain(p, x) == Rest(p, p[x])
  {
    assert ParentIn(p, x) && Up(p, x) == p[x];
    ChainHead(p, x);
  }

  lemma RestNext(p: Parents, ancestors: seq<Id>, y: Id)
    requires Acyclic(p) && ParentsExist(p) && y in p
    ensures p[y].Some? ==> p[y].value in p
    ensures ancestors + Rest(p, Some(y)) == ancestors + [y] + Rest(p, p[y])
    ensures |Rest(p, p[y])| < |Rest(p, Some(y))|
  {
    ChainUnfold(p, y);
  }

  lemma UnderNext(p: Parents, order: seq<Id>, dept: Id, collected: seq<Id>, k: nat)
    requires dept in p && Grounded(p, dept) && k < |Children(p, order, dept)|
    ensures var c := Children(p, order, dept)[k];
            && c in p && Grounded(p, c) && Room(p, c) == Room(p, dept) - 1
            && collected + Under(p, order, dept, k + 1)
               == collected + Under(p, order, dept, k) + [c] + Below(p, order, c)
  {
    ChildRoom(p, order, dept, k);
    var c := Children(p, order, dept)[k];
    assert Under(p, order, dept, k + 1) == Under(p, order, dept, k) + [c] + Below(p, order, c);
  }

  lemma UnderEnds(p: Parents, order: seq<Id>, dept: Id, collected: seq<Id>)
    requires dept in p && Grounded(p, dept)
    ensures collected + Under(p, order, dept, 0) == collected
    ensures Below(p, order, dept) == Under(p, order, dept, |Children(p, order, dept)|)
  {
  }

  /** Appends everything below `dept` to what has been collected. */
  method CollectChildren(p: Parents, order: seq<Id>, dept: Id, collected: seq<Id>, ghost room: nat)
      returns (descendants: seq<Id>)
    requires dept in p && Grounded(p, dept) && room == Room(p, dept)
    ensures descendants == collected + Below(p, order, dept)
    decreases room
  {
    hide *;
    descendants := collected;
    var children := Children(p, order, dept);
    UnderEnds(p, order, dept, collected);
    for k := 0 to |children|
      invariant descendants == collected + Under(p, order, dept, k)
    {
      UnderNext(p, order, dept, collected, k);
      descendants := CollectChildren(p, order, children[k], descendants + [children[k]], room - 1);
    }
  }

  lemma SetNext(t: Table, ids: seq<Id>, on: bool, i: nat)
    requires Valid(t) && i < |ids|
    ensures var before, x := SetEach(t, ids[..i], on), ids[i];
            SetEach(t, ids[..i + 1], on) == if x in before.parents then SetOne(before, x, on) else before
  {
    assert ids[..i + 1][..i] == ids[..i];
  }

  lemma DeleteNext(t: Table, ids: seq<Id>, staffed: set<Id>, i: nat)
    requires i < |ids|
    ensures var before, x := DeleteEach(t, ids[..i], staffed), ids[i];
            DeleteEach(t, ids[..i + 1], staffed)
            == if x in before.parents && CanDelete(before, x, staffed) then RemoveRow(before, x) else before
  {
    assert ids[..i + 1][..i] == ids[..i];
  }

  class Store {
    var order: seq<Id>
    var parents: map<Id, Option<Id>>
    var level: map<Id, int>
    var path: map<Id, string>
    var enabled: map<Id, bool>

    ghost function Rows(): Table
      reads this
    {
      Table(order, parents, level, path, enabled)
    }

    constructor ()
      ensures Rows() == EMPTY && Valid(Rows())
    {
      order, parents, level, path, enabled := [], map[], map[], map[], map[];
      new;
      EmptyValid();
    }

    /** Computes level and path from the stored parent. */
    method Save(x: Id, parent: Option<Id>, on: bool)
      requires parent.Some? ==> parent.value in level && parent.value in path
      modifies this
      ensures Rows() == SaveRow(old(Rows()), x, parent, on)
    {
      match parent {
        case Some(y) =>
          level := level[x := level[y] + 1];
          path := path[x := path[y] + y + "/"];
        case None =>
          level := level[x := 0];
          path := path[x := "/"];
      }
      parents := parents[x := parent];
      enabled := enabled[x := on];
    }

    /** Follows the parents up to a root. */
    method GetAncestors(x: Id) returns (ancestors: seq<Id>)
      requires Valid(Rows()) && x in parents
      ensures ancestors == Chain(parents, x)
    {
      ancestors := [];
      var p := parents;
      var current := p[x];
      ChainUnfold(p, x);
      while current.Some?
        invariant current.Some? ==> current.value in p
        invariant Chain(p, x) == ancestors + Rest(p, current)
        decreases |Rest(p, current)|
      {
        RestNext(p, ancestors, current.value);
        ancestors := ancestors + [current.value];
        current := p[current.value];
      }
    }

    /** Lists, without repetition, exactly the departments that have this one among their ancestors. */
    method GetDescendants(x: Id) returns (descendants: seq<Id>)
      requires Valid(Rows()) && x in parents
      ensures descendants == Below(parents, order, x)
      ensures NoRepeats(descendants)
      ensures forall z :: z in descendants <==> z in parents && x in Chain(parents, z)
    {
      descendants := CollectChildren(parents, order, x, [], Room(parents, x));
      BelowExact(parents, order, x);
    }

    method HasChildren(x: Id) returns (b: bool)
      requires Valid(Rows())
      ensures b == !IsLeaf(parents, x)
    {
      var children := Children(parents, order, x);
      b := children != [];
      if b {
        assert parents[children[0]] == Some(x);
      } else {
        forall z | z in parents ensures parents[z] != Some(x) {
          if parents[z] == Some(x) {
            ChildrenComplete(parents, order, x, z);
          }
        }
      }
    }

    method Create(x: Id, parentId: Option<Id>, on: bool) returns (o: Outcome)
      requires Valid(Rows())
      modifies this
      ensures o == Answer(old(Rows()), Request.Create(x, parentId, on))
      ensures Rows() == Apply(old(Rows()), Request.Create(x, parentId, on))
    {
      if parentId.Some? && parentId.value != "" {
        if parentId.value !in parents {
          return NotFound;
        }
        if !enabled[parentId.value] {
          return Refused;
        }
      }
      if x in parents || parentId == Some("") {
        return Failed;
      }
      AddValid(Rows(), x, parentId, on);
      Save(x, parentId, on);
      order := order + [x];
      return Done;
    }

    method Remove(x: Id)
      modifies this
      ensures Rows() == RemoveRow(old(Rows()), x)
    {
      order := Without(order, x);
      parents, level, path, enabled := parents - {x}, level - {x}, path - {x}, enabled - {x};
    }

    method Delete(x: Id, staffed: set<Id>) returns (o: Outcome)
      requires Valid(Rows())
      modifies this
      ensures o == Answer(old(Rows()), Request.Delete(x, staffed))
      ensures Rows() == Apply(old(Rows()), Request.Delete(x, staffed))
    {
      if x !in parents {
        return NotFound;
      }
      var inner := HasChildren(x);
      if inner || x in staffed {
        return Refused;
      }
      Remove(x);
      return Done;
    }

    method DeleteIfPossible(x: Id, staffed: set<Id>) returns (ok: bool)
      requires Valid(Rows())
      modifies this
      ensures ok == (x in old(parents) && CanDelete(old(Rows()), x, staffed))
      ensures Valid(Rows()) && Rows() == if ok then RemoveRow(old(Rows()), x) else old(Rows())
      ensures |order| == |old(order)| - if ok then 1 else 0
    {
      var inner := HasChildren(x);
      ok := x in parents && !inner && x !in staffed;
      if ok {
        RemoveValid(Rows(), x);
        WithoutOne(order, x);
        Remove(x);
      }
    }

    /** Skips what is missing, has children or has users; a parent goes with its child if listed after it. */
    method BatchDelete(ids: seq<Id>, staffed: set<Id>) returns (count: nat, failed: seq<Id>)
      requires Valid(Rows())
      modifies this
      ensures Rows() == Apply(old(Rows()), Request.BatchDelete(ids, staffed))
      ensures count + |failed| == |ids| && count == |old(order)| - |order|
    {
      count, failed := 0, [];
      ghost var t := Rows();
      for i := 0 to |ids|
        invariant Valid(Rows()) && Rows() == DeleteEach(t, ids[..i], staffed)
        invariant count + |failed| == i && count == |t.order| - |order|
      {
        DeleteNext(t, ids, staffed, i);
        var ok := DeleteIfPossible(ids[i], staffed);
        if ok {
          count := count + 1;
        } else {
          failed := failed + [ids[i]];
        }
      }
      ApplyBatchDelete(t, ids, staffed);
    }

    /** The check that PUT and PATCH make before they set the parent. */
    method CheckNewParent(x: Id, y: Id) returns (o: Outcome)
      requires Valid(Rows()) && x in parents
      ensures o == CheckParent(Rows(), x, y)
    {
      if y == x {
        return Refused;
      }
      if y !in parents {
        return NotFound;
      }
      var ancestors := GetAncestors(y);
      return if x in ancestors then Refused else Done;
    }

    /** An empty id passes the check and makes the save fail. */
    method CheckGivenParent(x: Id, parentId: Option<Id>) returns (o: Outcome)
      requires Valid(Rows()) && x in parents
      ensures o == CheckGiven(Rows(), x, parentId)
    {
      if parentId.Some? && parentId.value != "" {
        o := CheckNewParent(x, parentId.value);
      } else {
        o := if parentId == Some("") then Failed else Done;
      }
    }

    method SaveEdit(x: Id, parent: Option<Id>, on: bool, ghost r: Request)
      requires Valid(Rows()) && (r.Put? || r.Patch? || r.Move?) && Answer(Rows(), r) == Done
      requires x == r.x && Edited(Rows(), r) == (parent, on)
      modifies this
      ensures Rows() == Apply(old(Rows()), r)
    {
      ApplyEdit(Rows(), r);
      Save(x, parent, on);
    }

    method Put(x: Id, parentId: Option<Id>, on: bool) returns (o: Outcome)
      requires Valid(Rows())
      modifies this
      ensures o == Answer(old(Rows()), Request.Put(x, parentId, on))
      ensures Rows() == Apply(old(Rows()), Request.Put(x, parentId, on))
    {
      if x !in parents {
        return NotFound;
      }
      o := CheckGivenParent(x, parentId);
      ghost var r := Request.Put(x, parentId, on);
      assert o == Answer(Rows(), r);
      if o == Done {
        var parent := if parentId.Some? then parentId else parents[x];
        SaveEdit(x, parent, on, r);
      }
    }

    method CheckPatchFields(x: Id, newParent: Field<Id>, newStatus: Field<bool>) returns (o: Outcome)
      requires Valid(Rows()) && x in parents
      ensures o == CheckPatch(Rows(), x, newParent, newStatus)
    {
      o := Done;
      if newParent.Set? {
        o := CheckGivenParent(x, newParent.value);
      }
      if o == Done && newStatus == Set(None) {
        o := Failed;
      }
    }

    method Patch(x: Id, newParent: Field<Id>, newStatus: Field<bool>) returns (o: Outcome)
      requires Valid(Rows())
      modifies this
      ensures o == Answer(old(Rows()), Request.Patch(x, newParent, newStatus))
      ensures Rows() == Apply(old(Rows()), Request.Patch(x, newParent, newStatus))
    {
      if x !in parents {
        return NotFound;
      }
      o := CheckPatchFields(x, newParent, newStatus);
      ghost var r := Request.Patch(x, newParent, newStatus);
      assert o == Answer(Rows(), r);
      if o == Done {
        var parent := if newParent.Set? then newParent.value else parents[x];
        var on := if newStatus.Set? then newStatus.value.value else enabled[x];
        SaveEdit(x, parent, on, r);
      }
    }

    /** An empty id and the text "null" stand for no parent. */
    method CheckMove(x: Id, newParentId: Option<Id>) returns (o: Outcome, parent: Option<Id>)
      requires Valid(Rows()) && x in parents
      ensures o == CheckGiven(Rows(), x, NewParentId(newParentId)) && parent == NewParentId(newParentId)
    {
      o, parent := Done, None;
      if newParentId.Some? && newParentId.value != "" && newParentId.value != "null" {
        var y := newParentId.value;
        parent := newParentId;
        if y !in parents {
          return NotFound, parent;
        }
        var ancestors := GetAncestors(y);
        if x in ancestors || x == y {
          o := Refused;
        }
      }
    }

    method Move(x: Id, newParentId: Option<Id>) returns (o: Outcome)
      requires Valid(Rows())
      modifies this
      ensures o == Answer(old(Rows()), Request.Move(x, newParentId))
      ensures Rows() == Apply(old(Rows()), Request.Move(x, newParentId))
    {
      if x !in parents {
        return NotFound;
      }
      var parent;
      o, parent := CheckMove(x, newParentId);
      ghost var r := Request.Move(x, newParentId);
      assert o == Answer(Rows(), r);
      if o == Done {
        SaveEdit(x, parent, enabled[x], r);
      }
    }

    method DisableAll(ids: seq<Id>)
      requires Valid(Rows()) && forall x :: x in ids ==> x in parents
      modifies this
      ensures Valid(Rows()) && Rows() == DisableFirst(old(Rows()), ids, |ids|)
    {
      hide Valid;
      ghost var t := Rows();
      for i := 0 to |ids|
        invariant Valid(Rows()) && Rows() == DisableFirst(t, ids, i)
      {
        SaveAgainValid(Rows(), ids[i], false);
        Save(ids[i], parents[ids[i]], false);
      }
    }

    method SetStatusOf(x: Id, on: bool) returns (count: nat)
      requires Valid(Rows()) && x in parents
      modifies this
      ensures Rows() == SetOne(old(Rows()), x, on)
      ensures count == 1 + if on then 0 else |Below(parents, order, x)|
    {
      SaveAgainValid(Rows(), x, on);
      Save(x, parents[x], on);
      count := 1;
      if !on {
        var descendants := GetDescendants(x);
        DisableAll(descendants);
        count := count + |descendants|;
      }
    }

    /** Unknown ids are skipped; disabling a department disables everything below it. */
    method SetStatus(ids: seq<Id>, on: bool) returns (count: nat)
      requires Valid(Rows())
      modifies this
      ensures Rows() == Apply(old(Rows()), Request.SetStatus(ids, on))
      ensures count == Changed(old(parents), old(order), ids, on)
    {
      hide SetEach, SetOne, Changed, Apply, Acyclic;
      count := 0;
      ghost var t := Rows();
      StatusStart(t, ids, on);
      for i := 0 to |ids|
        invariant Valid(Rows()) && Rows() == SetEach(t, ids[..i], on)
        invariant count == Changed(t.parents, t.order, ids[..i], on)
      {
        SetNext(t, ids, on, i);
        ChangedNext(t.parents, t.order, ids, on, i);
        if ids[i] in parents {
          var changed := SetStatusOf(ids[i], on);
          count := count + changed;
        }
      }
      ApplySetStatus(t, ids, on);
      assert ids[..|ids|] == ids;
    }
  }

  /** Each id that is found counts for one department, and if it is disabled for everything below it as well. */
  ghost function Changed(p: Parents, order: seq<Id>, ids: seq<Id>, on: bool): nat
    requires Acyclic(p)
  {
    if ids == [] then 0
    else
      var before, x := Changed(p, order, ids[..|ids| - 1], on), ids[|ids| - 1];
      if x !in p then before else before + 1 + if on then 0 else |Below(p, order, x)|
  }

  lemma StatusStart(t: Table, ids: seq<Id>, on: bool)
    requires Valid(t)
    ensures SetEach(t, ids[..0], on) == t && Changed(t.parents, t.order, ids[..0], on) == 0
  {
  }

  lemma ChangedNext(p: Parents, order: seq<Id>, ids: seq<Id>, on: bool, i: nat)
    requires Acyclic(p) && i < |ids|
    ensures Changed(p, order, ids[..i + 1], on) == Changed(p, order, ids[..i], on)
         + if ids[i] !in p then 0 else if on then 1 else 1 + |Below(p, order, ids[i])|
  {
    assert ids[..i + 1][..i] == ids[..i];
  }

  lemma ApplyBatchDelete(t: Table, ids: seq<Id>, staffed: set<Id>)
    requires Valid(t)
    ensures Apply(t, Request.BatchDelete(ids, staffed)) == DeleteEach(t, ids[..|ids|], staffed)
  {
    assert ids[..|ids|] == ids;
  }

  lemma ApplySetStatus(t: Table, ids: seq<Id>, on: bool)
    requires Valid(t)
    ensures Apply(t, Request.SetStatus(ids, on)) == SetEach(t, ids[..|ids|], on)
  {
    assert ids[..|ids|] == ids;
  }

  lemma {:induction false} WithoutNone(order: seq<Id>, x: Id)
    requires x !in order
    ensures Without(order, x) == order
  {
    if order != [] {
      WithoutNone(order[..|order| - 1], x);
    }
  }

  lemma {:induction false} WithoutOne(order: seq<Id>, x: Id)
    requires NoRepeats(order) && x in order
    ensures |Without(order, x)| == |order| - 1
  {
    var rest := order[..|order| - 1];
    if order[|order| - 1] == x {
      WithoutNone(rest, x);
    } else {
      WithoutOne(rest, x);
    }
  }
}
