/**
  The recursive builder, which nests the rows themselves: every row is searched for the children of every
  node, and rows that end up without children lose their list and are marked as choices.

  For rows with unique ids, some of them roots, it returns the same forest as the one-pass builder exactly when
  every parent that is named is present; without any root, exactly when none is.
*/
module RecursiveBuilder {

  import opened Wrappers
  import opened ParentForest
  import opened TreeBuilders

  /** The parents as the rows give them. */
  function Given(data: seq<Item>): Parents {
    var m := Mapping(data);
    map x | x in m :: m[x].parent
  }

  ghost predicate Identified(data: seq<Item>) {
    (forall item :: item in data ==> item.id.Some?) && NoRepeats(Ids(data))
  }

  function WithParent(data: seq<Item>): (r: seq<Item>)
    ensures forall item :: item in r ==> item in data && item.parent.Some?
  {
    if data == [] then []
    else
      var rest, item := WithParent(data[..|data| - 1]), data[|data| - 1];
      if item.parent.Some? then rest + [item] else rest
  }

  /** The ids of the rows whose parent id is `x`. */
  function ByParent(nodes: seq<Item>, x: Id): seq<Id>
    requires forall item :: item in nodes ==> item.id.Some?
  {
    if nodes == [] then []
    else
      var rest, item := ByParent(nodes[..|nodes| - 1], x), nodes[|nodes| - 1];
      if item.parent == Some(x) then rest + [item.id.value] else rest
  }

  /** The node list the recursion searches holds the children of every node. */
  ghost predicate Searches(nodes: seq<Item>, p: Parents, order: seq<Id>) {
    && (forall item :: item in nodes ==> item.id.Some?)
    && forall x :: ByParent(nodes, x) == Children(p, order, x)
  }

  lemma {:induction false} ByParentIsChildren(data: seq<Item>, m: map<Id, Item>, p: Parents, x: Id)
    requires Faithful(data, m) && forall item :: item in data ==> item.id.Some?
    requires p == map z | z in m :: m[z].parent
    ensures ByParent(WithParent(data), x) == Children(p, Ids(data), x)
  {
    if data != [] {
      var rest, item := data[..|data| - 1], data[|data| - 1];
      ByParentIsChildren(rest, m, p, x);
      assert Ids(data)[..|Ids(data)| - 1] == Ids(rest);
      assert item.parent.Some? ==> WithParent(data)[..|WithParent(data)| - 1] == WithParent(rest);
      assert item in data && m[item.id.value] == item;
    }
  }

  lemma NodesSearch(data: seq<Item>)
    requires Identified(data)
    ensures Searches(WithParent(data), Given(data), Ids(data))
  {
    UniqueFaithful(data);
    forall x ensures ByParent(WithParent(data), x) == Children(Given(data), Ids(data), x) {
      ByParentIsChildren(data, Mapping(data), Given(data), x);
    }
  }

  /** `z` is a row on the line of `x` or below it. */
  ghost predicate BelowOrAt(p: Parents, x: Id, z: Id) {
    z in p && Grounded(p, z) && OnLine(p, x, z)
  }

  ghost predicate BelowSome(p: Parents, c: seq<Id>, k: nat, z: Id)
    requires k <= |c|
  {
    exists i :: 0 <= i < k && BelowOrAt(p, c[i], z)
  }

  /** What is at or below `x` is `x` itself or at or below one of its children. */
  lemma LineSplit(p: Parents, order: seq<Id>, x: Id, z: Id)
    requires BelowOrAt(p, x, z) && z != x && Lists(order, p)
    ensures BelowSome(p, Children(p, order, x), |Children(p, order, x)|, z)
  {
    var i :| 0 <= i < |Chain(p, z)| && Chain(p, z)[i] == x;
    ChildToward(p, order, x, z, i);
    var cs := Children(p, order, x);
    var j :| 0 <= j < |cs| && OnLine(p, cs[j], z);
    assert BelowOrAt(p, cs[j], z);
  }

  /** What is at or below a child is below its parent, and not the parent itself. */
  lemma ChildLines(p: Parents, order: seq<Id>, x: Id, k: nat)
    requires x in p && Grounded(p, x) && k < |Children(p, order, x)|
    ensures var t := Children(p, order, x)[k];
            !BelowOrAt(p, t, x) && forall z :: BelowOrAt(p, t, z) ==> BelowOrAt(p, x, z)
  {
    var t := Children(p, order, x)[k];
    ChildRoom(p, order, x, k);
    DepthStep(p, t, x);
    if OnLine(p, t, x) {
      OnLineDepth(p, t, x);
    }
    forall z | BelowOrAt(p, t, z) ensures BelowOrAt(p, x, z) {
      BelowChild(p, x, t, z);
    }
  }

  /** The `children` and `choice` entries of the rows. */
  datatype Entries = Entries(children: map<Id, seq<Id>>, choice: map<Id, int>) {
    function At(z: Id): (Option<seq<Id>>, Option<int>) {
      (if z in children then Some(children[z]) else None, if z in choice then Some(choice[z]) else None)
    }

    /** The row is finished: its list is complete, or it has none and is marked. */
    predicate Finished(p: Parents, order: seq<Id>, z: Id) {
      if Children(p, order, z) == [] then z !in children && z in choice && choice[z] == 1
      else z in children && children[z] == Children(p, order, z)
    }

    ghost predicate AllFinished(p: Parents, order: seq<Id>, c: seq<Id>, k: nat)
      requires k <= |c|
    {
      forall z :: BelowSome(p, c, k, z) ==> Finished(p, order, z)
    }
  }

  /** From `e` to `e'` the rows at and below `x` were finished and no other was touched. */
  ghost predicate FinishedAt(e: Entries, e': Entries, p: Parents, order: seq<Id>, x: Id) {
    && (forall z :: BelowOrAt(p, x, z) ==> e'.Finished(p, order, z))
    && forall z :: !BelowOrAt(p, x, z) ==> e'.At(z) == e.At(z)
  }

  /** Finishing one more child keeps the list of `x`, and changes nothing that is not below `x`. */
  lemma Advance(e: Entries, e': Entries, p: Parents, order: seq<Id>, x: Id, cs: seq<Id>, k: nat)
    requires x in p && Grounded(p, x) && cs == Children(p, order, x) && k < |cs|
    requires x in e.children && e.children[x] == cs && e.AllFinished(p, order, cs, k)
    requires FinishedAt(e, e', p, order, cs[k])
    ensures x in e'.children && e'.children[x] == cs && e'.AllFinished(p, order, cs, k + 1)
    ensures forall z :: !BelowOrAt(p, x, z) ==> e'.At(z) == e.At(z)
  {
    ChildLines(p, order, x, k);
    assert e'.At(x) == e.At(x);
    forall z | BelowSome(p, cs, k + 1, z) && !BelowOrAt(p, cs[k], z) ensures e'.Finished(p, order, z) {
      assert BelowSome(p, cs, k, z);
      assert e'.At(z) == e.At(z);
    }
  }

  /******* What the builder returns *******/

  ghost predicate ShowsAll(children: map<Id, seq<Id>>, ts: seq<Tree>) {
    forall i :: 0 <= i < |ts| ==> Shows(children, ts[i])
  }

  function TopIds(ts: seq<Tree>): seq<Id> {
    seq(|ts|, i requires 0 <= i < |ts| => ts[i].id)
  }

  /** These lists and this list of tops are this forest. */
  ghost predicate Renders(children: map<Id, seq<Id>>, tops: seq<Id>, ts: seq<Tree>) {
    TopIds(ts) == tops && ShowsAll(children, ts)
  }

  /** Rows without children. */
  function Flat(ids: seq<Id>): seq<Tree> {
    seq(|ids|, i requires 0 <= i < |ids| => Node(ids[i], []))
  }

  /** The roots with everything below them; if no row is a root, every row, without children. */
  ghost function RecursiveForest(data: seq<Item>): (ts: seq<Tree>)
    ensures RootIds(Given(data), Ids(data)) != [] ==> TopIds(ts) == RootIds(Given(data), Ids(data))
    ensures RootIds(Given(data), Ids(data)) == [] ==> TopIds(ts) == Ids(data)
  {
    var p, order := Given(data), Ids(data);
    RootIdsAreRoots(p, order);
    var roots := RootIds(p, order);
    if roots == [] then Flat(order) else Forest(p, order, roots, |roots|)
  }

  class Rows {
    var children: map<Id, seq<Id>>
    var choice: map<Id, int>

    constructor ()
      ensures Now() == Entries(map[], map[])
    {
      children, choice := map[], map[];
    }

    ghost function Now(): Entries
      reads this
    {
      Entries(children, choice)
    }

    method FindChildren(x: Id, nodes: seq<Item>)
      requires forall item :: item in nodes ==> item.id.Some?
      modifies this`children
      ensures children == old(children)[x := ByParent(nodes, x)]
    {
      children := children[x := []];
      for i := 0 to |nodes|
        invariant children == old(children)[x := ByParent(nodes[..i], x)]
      {
        assert nodes[..i + 1][..i] == nodes[..i];
        if nodes[i].parent == Some(x) {
          children := children[x := children[x] + [nodes[i].id.value]];
        }
      }
      assert nodes[..|nodes|] == nodes;
    }

    /** A row without children loses its list. */
    method Mark(x: Id)
      requires x in children
      modifies this
      ensures old(children[x]) == [] ==> children == old(children) - {x} && choice == old(choice)[x := 1]
      ensures old(children[x]) != [] ==> children == old(children) && choice == old(choice)
    {
      if |children[x]| == 0 {
        children := children - {x};
        choice := choice[x := 1];
      }
    }

    method AddNode(x: Id, nodes: seq<Item>, ghost p: Parents, ghost order: seq<Id>, ghost room: nat)
      requires Searches(nodes, p, order) && Lists(order, p)
      requires x in p && Grounded(p, x) && room == Room(p, x)
      modifies this
      ensures FinishedAt(old(Now()), Now(), p, order, x)
      decreases room, 1
    {
      FindChildren(x, nodes);
      var cs := children[x];
      for k := 0 to |cs|
        invariant x in children && children[x] == cs == Children(p, order, x)
        invariant Now().AllFinished(p, order, cs, k)
        invariant forall z :: !BelowOrAt(p, x, z) ==> Now().At(z) == old(Now()).At(z)
      {
        AddChild(x, cs, k, nodes, p, order, room);
      }
      forall z | BelowOrAt(p, x, z) && z != x ensures BelowSome(p, cs, |cs|, z) {
        LineSplit(p, order, x, z);
      }
      Mark(x);
    }

    method AddChild(x: Id, cs: seq<Id>, k: nat, nodes: seq<Item>, ghost p: Parents, ghost order: seq<Id>,
        ghost room: nat)
      requires Searches(nodes, p, order) && Lists(order, p)
      requires x in p && Grounded(p, x) && room == Room(p, x)
      requires x in children && children[x] == cs == Children(p, order, x) && k < |cs|
      requires Now().AllFinished(p, order, cs, k)
      modifies this
      ensures x in children && children[x] == cs && Now().AllFinished(p, order, cs, k + 1)
      ensures forall z :: !BelowOrAt(p, x, z) ==> Now().At(z) == old(Now()).At(z)
      decreases room, 0
    {
      var t := cs[k];
      ghost var before := Now();
      ChildRoom(p, order, x, k);
      assert BelowOrAt(p, t, t);
      if t !in children || children[t] == [] {
        children := children[t := []];
      }
      AddNode(t, nodes, p, order, room - 1);
      Advance(before, Now(), p, order, x, cs, k);
    }

    /** Marks every row as no choice, and sorts the rows into roots and others. */
    method SplitRoots(data: seq<Item>) returns (root: seq<Id>, nodes: seq<Item>)
      requires forall item :: item in data ==> item.id.Some?
      modifies this`choice
      ensures root == WithoutParent(data) && nodes == WithParent(data)
      ensures forall item :: item in data ==> item.id.value in choice && choice[item.id.value] == 0
    {
      root, nodes := [], [];
      for i := 0 to |data|
        invariant root == WithoutParent(data[..i]) && nodes == WithParent(data[..i])
        invariant forall item :: item in data[..i] ==> item.id.value in choice && choice[item.id.value] == 0
      {
        assert data[..i + 1][..i] == data[..i];
        choice := choice[data[i].id.value := 0];
        if data[i].parent == None {
          root := root + [data[i].id.value];
        } else {
          nodes := nodes + [data[i]];
        }
      }
      assert data[..|data|] == data;
    }

    /** Without any root the rows come back as they are; otherwise the roots do, with everything below them. */
    method ListToTree(data: seq<Item>) returns (nested: bool, top: seq<Id>)
      requires Identified(data)
      modifies this
      ensures nested <==> exists item :: item in data && item.parent == None
      ensures !nested ==> top == Ids(data) && children == old(children)
      ensures nested ==> top == RootIds(Given(data), Ids(data))
      ensures nested || old(children) == map[] ==> Renders(children, top, RecursiveForest(data))
    {
      hide RecursiveForest, Renders, RootIds, WithoutParent, WithParent, IdList, Ids;
      ghost var p, order := Given(data), Ids(data);
      var root, nodes := SplitRoots(data);
      NodesSearch(data);
      GivenLists(data);
      WithoutParentIsRoots(data, Mapping(data), p);
      RootIdsAreRoots(p, order);
      for k := 0 to |root|
        invariant Now().AllFinished(p, order, root, k)
        invariant root == [] ==> children == old(children)
      {
        ghost var before := Now();
        AddNode(root[k], nodes, p, order, Room(p, root[k]));
        AdvanceRoot(before, Now(), p, order, root, k);
      }
      nested := root != [];
      top := if nested then root else IdList(nodes);
      NoRootsAllNodes(data);
      ResultRenders(Now(), data);
    }
  }

  function WithoutParent(data: seq<Item>): seq<Id>
    requires forall item :: item in data ==> item.id.Some?
  {
    if data == [] then []
    else
      var rest, item := WithoutParent(data[..|data| - 1]), data[|data| - 1];
      if item.parent == None then rest + [item.id.value] else rest
  }

  function IdList(nodes: seq<Item>): (r: seq<Id>)
    requires forall item :: item in nodes ==> item.id.Some?
    ensures |r| == |nodes|
  {
    if nodes == [] then [] else IdList(nodes[..|nodes| - 1]) + [nodes[|nodes| - 1].id.value]
  }

  lemma {:induction false} NoRootsAllNodes(data: seq<Item>)
    requires forall item :: item in data ==> item.id.Some?
    ensures WithoutParent(data) == [] <==> forall item :: item in data ==> item.parent.Some?
    ensures WithoutParent(data) == [] ==> IdList(WithParent(data)) == Ids(data)
  {
    if data != [] {
      var rest, item := data[..|data| - 1], data[|data| - 1];
      NoRootsAllNodes(rest);
      assert forall other :: other in data <==> other in rest || other == item;
      assert item.parent.Some? ==> WithParent(data)[..|WithParent(data)| - 1] == WithParent(rest);
    }
  }

  lemma {:induction false} WithoutParentIsRoots(data: seq<Item>, m: map<Id, Item>, p: Parents)
    requires Faithful(data, m) && forall item :: item in data ==> item.id.Some?
    requires p == map z | z in m :: m[z].parent
    ensures WithoutParent(data) == RootIds(p, Ids(data))
  {
    if data != [] {
      var rest, item := data[..|data| - 1], data[|data| - 1];
      WithoutParentIsRoots(rest, m, p);
      assert Ids(data)[..|Ids(data)| - 1] == Ids(rest);
      assert item in data && m[item.id.value] == item;
    }
  }

  lemma GivenLists(data: seq<Item>)
    requires Identified(data)
    ensures Faithful(data, Mapping(data)) && Lists(Ids(data), Given(data))
  {
    UniqueFaithful(data);
    forall x ensures x in Ids(data) <==> x in Given(data) {
      assert x in Ids(data) <==> x in Mapping0(data);
    }
  }

  lemma AdvanceRoot(e: Entries, e': Entries, p: Parents, order: seq<Id>, roots: seq<Id>, k: nat)
    requires k < |roots| && e.AllFinished(p, order, roots, k) && FinishedAt(e, e', p, order, roots[k])
    ensures e'.AllFinished(p, order, roots, k + 1)
  {
    forall z | BelowSome(p, roots, k + 1, z) && !BelowOrAt(p, roots[k], z) ensures e'.Finished(p, order, z) {
      assert BelowSome(p, roots, k, z);
      assert e'.At(z) == e.At(z);
    }
  }

  lemma FinishedShows(e: Entries, p: Parents, order: seq<Id>, roots: seq<Id>)
    requires AreRoots(p, roots) && e.AllFinished(p, order, roots, |roots|)
    ensures ShowsAll(e.children, Forest(p, order, roots, |roots|))
  {
    var ts := Forest(p, order, roots, |roots|);
    forall i | 0 <= i < |ts| ensures Shows(e.children, ts[i]) {
      ForestAt(p, order, roots, |roots|, i);
      forall z | z in p && Grounded(p, z) && OnLine(p, roots[i], z)
        ensures KidsIn(e.children, z) == Children(p, order, z)
      {
        assert BelowOrAt(p, roots[i], z);
        assert BelowSome(p, roots, |roots|, z);
        assert e.Finished(p, order, z);
      }
      RightListsShow(p, order, e.children, roots[i], Room(p, roots[i]));
    }
  }

  /** Lists that are finished at and below every root, or no lists at all, are the forest. */
  lemma ResultRenders(e: Entries, data: seq<Item>)
    requires Identified(data)
    requires var p, order := Given(data), Ids(data);
             AreRoots(p, RootIds(p, order)) && e.AllFinished(p, order, RootIds(p, order), |RootIds(p, order)|)
    ensures var roots := RootIds(Given(data), Ids(data));
            && (roots != [] ==> Renders(e.children, roots, RecursiveForest(data)))
            && (roots == [] && e.children == map[] ==> Renders(e.children, Ids(data), RecursiveForest(data)))
  {
    var p, order := Given(data), Ids(data);
    if RootIds(p, order) != [] {
      FinishedShows(e, p, order, RootIds(p, order));
    }
  }

  /******* When the two builders agree *******/

  /** A store of one node shows at most one tree. */
  lemma {:induction false} ShowsOne(children: map<Id, seq<Id>>, t: Tree, t': Tree)
    requires Shows(children, t) && Shows(children, t') && t.id == t'.id
    ensures t == t'
  {
    forall i | 0 <= i < |t.kids| ensures t.kids[i] == t'.kids[i] {
      ShowsOne(children, t.kids[i], t'.kids[i]);
    }
    assert t.kids == t'.kids;
  }

  /** So the result of a builder is at most one forest. */
  lemma RendersOne(children: map<Id, seq<Id>>, tops: seq<Id>, ts: seq<Tree>, ts': seq<Tree>)
    requires Renders(children, tops, ts) && Renders(children, tops, ts')
    ensures ts == ts'
  {
    assert |ts| == |TopIds(ts)| == |TopIds(ts')| == |ts'|;
    forall i | 0 <= i < |ts| ensures ts[i] == ts'[i] {
      assert ts[i].id == TopIds(ts)[i] == TopIds(ts')[i] == ts'[i].id;
      ShowsOne(children, ts[i], ts'[i]);
    }
  }

  ghost function OnePassForest(data: seq<Item>, rootValue: Option<Id>): (ts: seq<Tree>)
    ensures TopIds(ts) == RootIds(HungUnder(Mapping(data), rootValue), Ids(data))
  {
    var p, order := HungUnder(Mapping(data), rootValue), Ids(data);
    RootIdsAreRoots(p, order);
    Forest(p, order, RootIds(p, order), |RootIds(p, order)|)
  }

  /** What the one-pass builder returns is this forest. */
  lemma OnePassRenders(data: seq<Item>, rootValue: Option<Id>, children: map<Id, seq<Id>>, tree: seq<Id>)
    requires NoRepeats(Ids(data))
    requires AllHung(children, data, Mapping(data), rootValue) && tree == Tops(data, Mapping(data), rootValue)
    ensures Renders(children, tree, OnePassForest(data, rootValue))
  {
    OnePassShowsForest(data, rootValue, children, tree);
    UniqueFaithful(data);
    HungAreChildren(data, Mapping(data), rootValue, "");
  }

  ghost predicate SomeRoot(data: seq<Item>) {
    exists item :: item in data && item.parent == None
  }

  /**
    The condition under which the builders agree. If some row has no parent: every parent that a row names is a
    row, and not one of the values that mean "no parent". If none has: no parent that a row names is.
  */
  ghost predicate BuildersAgree(data: seq<Item>, rootValue: Option<Id>) {
    forall item :: item in data && item.parent.Some? ==>
      (SomeRoot(data) <==> item.parent.value in Mapping(data) && item.parent != Some("") && item.parent != rootValue)
  }

  lemma SameParents(data: seq<Item>, rootValue: Option<Id>)
    requires SomeRoot(data) && BuildersAgree(data, rootValue)
    ensures HungUnder(Mapping(data), rootValue) == Given(data)
  {
    var m := Mapping(data);
    forall x | x in m ensures HungUnder(m, rootValue)[x] == m[x].parent {
      assert m[x] in data;
    }
  }

  /** With a root, a row that only the one-pass builder takes as a root tells the two lists of roots apart. */
  lemma OtherRoots(data: seq<Item>, rootValue: Option<Id>, item: Item)
    requires Identified(data) && item in data && item.parent.Some? && IsRoot(item, Mapping(data), rootValue)
    ensures RootIds(HungUnder(Mapping(data), rootValue), Ids(data)) != RootIds(Given(data), Ids(data))
  {
    UniqueFaithful(data);
    var x := item.id.value;
    IdsComplete(data, x);
    assert HungUnder(Mapping(data), rootValue)[x] == None && Given(data)[x] == item.parent;
    assert x !in RootIds(Given(data), Ids(data));
  }

  /** Without a root, a row that the one-pass builder hangs under another one is missing among its roots. */
  lemma HungIsNoTop(data: seq<Item>, rootValue: Option<Id>, item: Item)
    requires Identified(data) && item in data && !IsRoot(item, Mapping(data), rootValue)
    ensures RootIds(HungUnder(Mapping(data), rootValue), Ids(data)) != Ids(data)
  {
    UniqueFaithful(data);
    var x := item.id.value;
    IdsComplete(data, x);
    assert x !in RootIds(HungUnder(Mapping(data), rootValue), Ids(data));
  }

  lemma {:induction false} AllTops(p: Parents, order: seq<Id>)
    requires forall z :: z in order ==> z in p && p[z] == None
    ensures RootIds(p, order) == order
  {
    if order != [] {
      AllTops(p, order[..|order| - 1]);
    }
  }

  lemma {:induction false} NoTops(p: Parents, order: seq<Id>)
    requires forall z :: z in order ==> z in p && p[z] != None
    ensures RootIds(p, order) == []
  {
    if order != [] {
      NoTops(p, order[..|order| - 1]);
    }
  }

  lemma {:induction false} NoChildren(p: Parents, order: seq<Id>, x: Id)
    requires forall z :: z in order ==> z in p && p[z] == None
    ensures Children(p, order, x) == []
  {
    if order != [] {
      NoChildren(p, order[..|order| - 1], x);
    }
  }

  /** Rows that all count as roots are shown flat. */
  lemma FlatForest(p: Parents, order: seq<Id>)
    requires forall z :: z in order ==> z in p && p[z] == None
    requires AreRoots(p, RootIds(p, order))
    ensures Forest(p, order, RootIds(p, order), |RootIds(p, order)|) == Flat(order)
  {
    AllTops(p, order);
    var ts := Forest(p, order, order, |order|);
    forall i | 0 <= i < |order| ensures ts[i] == Node(order[i], []) {
      ForestAt(p, order, order, |order|, i);
      NoChildren(p, order, order[i]);
    }
  }

  lemma RootsOfGiven(data: seq<Item>)
    requires Identified(data)
    ensures RootIds(Given(data), Ids(data)) == [] <==> !SomeRoot(data)
  {
    GivenLists(data);
    WithoutParentIsRoots(data, Mapping(data), Given(data));
    NoRootsAllNodes(data);
  }

  lemma AgreeWithoutRoot(data: seq<Item>, rootValue: Option<Id>)
    requires Identified(data) && !SomeRoot(data) && BuildersAgree(data, rootValue)
    ensures OnePassForest(data, rootValue) == Flat(Ids(data))
  {
    var p, order := HungUnder(Mapping(data), rootValue), Ids(data);
    forall z | z in order ensures z in p && p[z] == None {
      assert Mapping(data)[z] in data;
    }
    RootIdsAreRoots(p, order);
    FlatForest(p, order);
  }

  lemma Differ(data: seq<Item>, rootValue: Option<Id>)
    requires Identified(data) && !BuildersAgree(data, rootValue)
    ensures OnePassForest(data, rootValue) != RecursiveForest(data)
  {
    var item :| item in data && item.parent.Some?
      && !(SomeRoot(data) <==> item.parent.value in Mapping(data) && item.parent != Some("") && item.parent != rootValue);
    RootsOfGiven(data);
    if SomeRoot(data) {
      OtherRoots(data, rootValue, item);
    } else {
      HungIsNoTop(data, rootValue, item);
    }
    assert TopIds(OnePassForest(data, rootValue)) != TopIds(RecursiveForest(data));
  }

  /**
    For rows with unique ids, cycles allowed, both builders return the same ordered forest exactly under the
    condition above: where there is a root, every parent that is named is present, and where there is none, none is.
  */
  lemma SameForestExact(data: seq<Item>, rootValue: Option<Id>)
    requires Identified(data)
    ensures OnePassForest(data, rootValue) == RecursiveForest(data) <==> BuildersAgree(data, rootValue)
  {
    RootsOfGiven(data);
    if !BuildersAgree(data, rootValue) {
      Differ(data, rootValue);
    } else if SomeRoot(data) {
      SameParents(data, rootValue);
    } else {
      AgreeWithoutRoot(data, rootValue);
    }
  }

  /** Two rows that are each other's parents. */
  function Cycle(a: Id, b: Id): seq<Item> {
    [Item(Some(a), Some(b)), Item(Some(b), Some(a))]
  }

  lemma CycleRows(a: Id, b: Id)
    requires a != b
    ensures Identified(Cycle(a, b)) && Ids(Cycle(a, b)) == [a, b] && !SomeRoot(Cycle(a, b))
    ensures a in Mapping(Cycle(a, b)) && b in Mapping(Cycle(a, b))
  {
    var data := Cycle(a, b);
    assert data[..1] == [data[0]] && data[0] in data && data[1] in data;
    assert Ids(data[..1]) == [a];
  }

  /** Of them the one-pass builder returns nothing, and the recursive one both rows. */
  lemma CycleDiffers(a: Id, b: Id)
    requires a != b && a != "" && b != ""
    ensures Identified(Cycle(a, b)) && OnePassForest(Cycle(a, b), None) == []
    ensures RecursiveForest(Cycle(a, b)) == [Node(a, []), Node(b, [])]
  {
    hide Identified, Ids, Mapping, Forest;
    var data := Cycle(a, b);
    CycleRows(a, b);
    RootsOfGiven(data);
    var m := Mapping(data);
    assert m[a] in data && m[b] in data;
    NoTops(HungUnder(m, None), [a, b]);
    assert |OnePassForest(data, None)| == |TopIds(OnePassForest(data, None))|;
  }
}
