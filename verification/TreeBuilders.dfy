/**
  Two builders of nested lists from rows that name their parent: one pass over an id map, and a recursive
  search that nests the rows themselves.

  A node is identified by its id. The lists of children are updated in place, so they are kept in one map
  from ids to lists, and a tree is what that map shows from a root.
*/
module TreeBuilders {

  import opened Wrappers
  import opened ParentForest

  /** A row: its id and parent id may be missing. */
  datatype Item = Item(id: Option<Id>, parent: Option<Id>)

  datatype Tree = Node(id: Id, kids: seq<Tree>)

  /******* Forests as values *******/

  /** The trees of the first `k` children of `x`. */
  ghost function Grown(p: Parents, order: seq<Id>, x: Id, k: nat): (ts: seq<Tree>)
    requires Grounded(p, x) && x in p && k <= |Children(p, order, x)|
    ensures |ts| == k
    decreases Room(p, x), k
  {
    if k == 0 then []
    else
      ChildRoom(p, order, x, k - 1);
      Grown(p, order, x, k - 1) + [TreeAt(p, order, Children(p, order, x)[k - 1])]
  }

  ghost function TreeAt(p: Parents, order: seq<Id>, x: Id): Tree
    requires Grounded(p, x) && x in p
    decreases Room(p, x), |Children(p, order, x)| + 1
  {
    Node(x, Grown(p, order, x, |Children(p, order, x)|))
  }

  /** All ids in a forest, parents before their children. */
  function IdsOf(ts: seq<Tree>): seq<Id> {
    if ts == [] then [] else IdsOf(ts[..|ts| - 1]) + [ts[|ts| - 1].id] + IdsOf(ts[|ts| - 1].kids)
  }

  lemma {:induction false} GrownIds(p: Parents, order: seq<Id>, x: Id, k: nat, room: nat)
    requires Grounded(p, x) && x in p && room == Room(p, x) && k <= |Children(p, order, x)|
    ensures IdsOf(Grown(p, order, x, k)) == Under(p, order, x, k)
    decreases room, k
  {
    if k > 0 {
      var c := Children(p, order, x)[k - 1];
      ChildRoom(p, order, x, k - 1);
      GrownIds(p, order, x, k - 1, room);
      GrownIds(p, order, c, |Children(p, order, c)|, room - 1);
      assert Grown(p, order, x, k)[..k - 1] == Grown(p, order, x, k - 1);
    }
  }

  /** The rows of `order` that have no parent, in that order. */
  function RootIds(p: Parents, order: seq<Id>): (r: seq<Id>)
    ensures forall z :: z in r <==> z in order && z in p && p[z] == None
  {
    if order == [] then []
    else
      var z, rest := order[|order| - 1], RootIds(p, order[..|order| - 1]);
      if z in p && p[z] == None then rest + [z] else rest
  }

  lemma {:induction false} RootIdsDistinct(p: Parents, order: seq<Id>)
    requires NoRepeats(order)
    ensures NoRepeats(RootIds(p, order))
  {
    if order != [] {
      var z, rest := order[|order| - 1], RootIds(p, order[..|order| - 1]);
      RootIdsDistinct(p, order[..|order| - 1]);
      assert z !in order[..|order| - 1];
      NoRepeatsConcat(rest, [z]);
    }
  }

  ghost predicate AreRoots(p: Parents, roots: seq<Id>) {
    forall i :: 0 <= i < |roots| ==> roots[i] in p && p[roots[i]] == None && Grounded(p, roots[i])
  }

  lemma RootIdsAreRoots(p: Parents, order: seq<Id>)
    ensures AreRoots(p, RootIds(p, order))
  {
    forall i | 0 <= i < |RootIds(p, order)| ensures Grounded(p, RootIds(p, order)[i]) {
      assert IsDepth(p, RootIds(p, order)[i], 0);
    }
  }

  /** The trees of the first `k` roots. */
  ghost function Forest(p: Parents, order: seq<Id>, roots: seq<Id>, k: nat): (ts: seq<Tree>)
    requires AreRoots(p, roots) && k <= |roots|
    ensures |ts| == k && forall i :: 0 <= i < k ==> ts[i].id == roots[i]
  {
    if k == 0 then [] else Forest(p, order, roots, k - 1) + [TreeAt(p, order, roots[k - 1])]
  }

  /******* What a forest contains *******/

  lemma ForestSplit(p: Parents, order: seq<Id>, roots: seq<Id>, k: nat)
    requires AreRoots(p, roots) && 0 < k <= |roots|
    ensures IdsOf(Forest(p, order, roots, k))
         == IdsOf(Forest(p, order, roots, k - 1)) + ([roots[k - 1]] + Below(p, order, roots[k - 1]))
  {
    var r := roots[k - 1];
    assert Forest(p, order, roots, k)[..k - 1] == Forest(p, order, roots, k - 1);
    GrownIds(p, order, r, |Children(p, order, r)|, Room(p, r));
  }

  lemma ForestSplitMembers(p: Parents, order: seq<Id>, roots: seq<Id>, k: nat, z: Id)
    requires AreRoots(p, roots) && 0 < k <= |roots|
    ensures z in IdsOf(Forest(p, order, roots, k)) <==>
              z in IdsOf(Forest(p, order, roots, k - 1)) || z == roots[k - 1] || z in Below(p, order, roots[k - 1])
  {
    ForestSplit(p, order, roots, k);
  }

  lemma {:induction false} ForestMembers(p: Parents, order: seq<Id>, roots: seq<Id>, k: nat, z: Id)
    requires AreRoots(p, roots) && k <= |roots| && Lists(order, p)
    ensures z in IdsOf(Forest(p, order, roots, k)) <==> Reached(p, roots, k, z)
  {
    if k == 0 {
      assert IdsOf(Forest(p, order, roots, k)) == [] && !Reached(p, roots, k, z);
    } else {
      ForestMembers(p, order, roots, k - 1, z);
      BelowMembers(p, order, roots[k - 1], z, Room(p, roots[k - 1]));
      ForestSplitMembers(p, order, roots, k, z);
    }
  }

  lemma {:induction false} ForestNoRepeats(p: Parents, order: seq<Id>, roots: seq<Id>, k: nat)
    requires AreRoots(p, roots) && NoRepeats(roots) && k <= |roots| && Lists(order, p)
    ensures NoRepeats(IdsOf(Forest(p, order, roots, k)))
  {
    if k > 0 {
      var r := roots[k - 1];
      ForestNoRepeats(p, order, roots, k - 1);
      BelowExact(p, order, r);
      ChainDistinct(p, r);
      NoRepeatsConcat([r], Below(p, order, r));
      ForestApart(p, order, roots, k);
      ForestSplit(p, order, roots, k);
      NoRepeatsConcat(IdsOf(Forest(p, order, roots, k - 1)), [r] + Below(p, order, r));
    }
  }

  ghost predicate Apart(a: seq<Id>, b: seq<Id>) {
    forall z :: z in a ==> z !in b
  }

  lemma ForestApart(p: Parents, order: seq<Id>, roots: seq<Id>, k: nat)
    requires AreRoots(p, roots) && NoRepeats(roots) && 0 < k <= |roots| && Lists(order, p)
    ensures Apart(IdsOf(Forest(p, order, roots, k - 1)), [roots[k - 1]] + Below(p, order, roots[k - 1]))
  {
    var before, after := IdsOf(Forest(p, order, roots, k - 1)), [roots[k - 1]] + Below(p, order, roots[k - 1]);
    forall z | z in before ensures z !in after {
      ForestApartAt(p, order, roots, k, z);
    }
  }

  lemma ForestApartAt(p: Parents, order: seq<Id>, roots: seq<Id>, k: nat, z: Id)
    requires AreRoots(p, roots) && NoRepeats(roots) && 0 < k <= |roots| && Lists(order, p)
    requires z in IdsOf(Forest(p, order, roots, k - 1))
    ensures z != roots[k - 1] && z !in Below(p, order, roots[k - 1])
  {
    hide IdsOf, Forest, Below, Under, Chain, Children, NoRepeats, Lists, Acyclic, OnSomeLine;
    ForestMembers(p, order, roots, k - 1, z);
    RootsApart(p, roots, k, z);
    BelowMembers(p, order, roots[k - 1], z, Room(p, roots[k - 1]));
  }

  lemma RootsApart(p: Parents, roots: seq<Id>, k: nat, z: Id)
    requires AreRoots(p, roots) && NoRepeats(roots) && 0 < k <= |roots| && Reached(p, roots, k - 1, z)
    ensures !OnLine(p, roots[k - 1], z)
  {
    var i :| 0 <= i < k - 1 && OnLine(p, roots[i], z);
    if OnLine(p, roots[k - 1], z) {
      OnLineUnique(p, roots[i], roots[k - 1], z);
    }
  }

  /** Some root is on the line of every grounded row. */
  lemma {:induction false} RootOf(p: Parents, x: Id) returns (r: Id)
    requires Grounded(p, x) && x in p && ParentsExist(p)
    ensures r in p && p[r] == None && OnLine(p, r, x)
    decreases Depth(p, x)
  {
    assert ParentIn(p, x);
    match p[x]
    case None => r := x;
    case Some(y) =>
      DepthStep(p, x, y);
      r := RootOf(p, y);
      assert Chain(p, x) == [y] + Chain(p, y);
  }

  /** The forest below all roots holds each grounded row exactly once, and rows on or below a cycle nowhere. */
  lemma ForestExact(p: Parents, order: seq<Id>, roots: seq<Id>)
    requires Lists(order, p) && ParentsExist(p) && roots == RootIds(p, order) && AreRoots(p, roots)
    ensures var ids := IdsOf(Forest(p, order, roots, |roots|));
            NoRepeats(ids) && forall z :: z in ids <==> z in p && Grounded(p, z)
  {
    RootIdsDistinct(p, order);
    ForestNoRepeats(p, order, roots, |roots|);
    forall z ensures z in IdsOf(Forest(p, order, roots, |roots|)) <==> z in p && Grounded(p, z) {
      ForestMembers(p, order, roots, |roots|, z);
      if z in p && Grounded(p, z) {
        var r := RootOf(p, z);
        var i :| 0 <= i < |roots| && roots[i] == r;
        assert OnSomeLine(p, roots, |roots|, z);
      }
    }
  }

  /******* What a store of children lists shows *******/

  function KidsIn(children: map<Id, seq<Id>>, x: Id): seq<Id> {
    if x in children then children[x] else []
  }

  /** From the node of `t` on, the lists show exactly `t`. */
  predicate Shows(children: map<Id, seq<Id>>, t: Tree) {
    var kids := KidsIn(children, t.id);
    |kids| == |t.kids| && forall i :: 0 <= i < |kids| ==> t.kids[i].id == kids[i] && Shows(children, t.kids[i])
  }

  lemma {:induction false} GrownAt(p: Parents, order: seq<Id>, x: Id, k: nat, i: nat)
    requires Grounded(p, x) && x in p && i < k <= |Children(p, order, x)|
    ensures var c := Children(p, order, x)[i];
            c in p && Grounded(p, c) && Grown(p, order, x, k)[i] == TreeAt(p, order, c)
    decreases k
  {
    ChildRoom(p, order, x, i);
    if i < k - 1 {
      GrownAt(p, order, x, k - 1, i);
    }
  }

  /** If the lists of `x` and of everything below it are right, they show the tree at `x`. */
  lemma {:induction false} RightListsShow(p: Parents, order: seq<Id>, children: map<Id, seq<Id>>, x: Id, room: nat)
    requires Grounded(p, x) && x in p && room == Room(p, x)
    requires forall z :: z in p && Grounded(p, z) && OnLine(p, x, z) ==> KidsIn(children, z) == Children(p, order, z)
    ensures Shows(children, TreeAt(p, order, x))
    decreases room
  {
    var cs, t := Children(p, order, x), TreeAt(p, order, x);
    assert OnLine(p, x, x);
    forall i | 0 <= i < |cs| ensures t.kids[i].id == cs[i] && Shows(children, t.kids[i]) {
      GrownAt(p, order, x, |cs|, i);
      ChildRoom(p, order, x, i);
      forall z | z in p && Grounded(p, z) && OnLine(p, cs[i], z)
        ensures KidsIn(children, z) == Children(p, order, z)
      {
        BelowChild(p, x, cs[i], z);
      }
      RightListsShow(p, order, children, cs[i], room - 1);
    }
  }

  lemma BelowChild(p: Parents, x: Id, c: Id, z: Id)
    requires Grounded(p, z) && OnLine(p, c, z) && Grounded(p, c) && Up(p, c) == Some(x)
    ensures x in Chain(p, z) && OnLine(p, x, z)
  {
    DepthStep(p, c, x);
    assert Chain(p, c) == [x] + Chain(p, x);
    OnLineTransitive(p, x, c, z);
    OnLineDepth(p, c, z);
  }

  /******* The one-pass builder *******/

  /** The last row with each id. */
  function Mapping(data: seq<Item>): (m: map<Id, Item>)
    ensures forall x :: x in m ==> m[x] in data && m[x].id == Some(x)
    ensures forall item :: item in data && item.id.Some? ==> item.id.value in m
  {
    if data == [] then map[]
    else
      var m, item := Mapping(data[..|data| - 1]), data[|data| - 1];
      if item.id.Some? then m[item.id.value := item] else m
  }

  predicate IsRoot(item: Item, m: map<Id, Item>, rootValue: Option<Id>) {
    || item.parent == None || item.parent == rootValue || item.parent == Some("")
    || item.parent.value !in m
  }

  /** The ids of the rows that become roots, and of those that are hung under `x`. */
  function Tops(data: seq<Item>, m: map<Id, Item>, rootValue: Option<Id>): seq<Id> {
    if data == [] then []
    else
      var rest, item := Tops(data[..|data| - 1], m, rootValue), data[|data| - 1];
      if item.id.Some? && IsRoot(item, m, rootValue) then rest + [item.id.value] else rest
  }

  function Hung(data: seq<Item>, m: map<Id, Item>, rootValue: Option<Id>, x: Id): seq<Id> {
    if data == [] then []
    else
      var rest, item := Hung(data[..|data| - 1], m, rootValue, x), data[|data| - 1];
      if item.id.Some? && !IsRoot(item, m, rootValue) && item.parent == Some(x) then rest + [item.id.value] else rest
  }

  /** Later rows replace earlier ones with the same id. */
  method MakeNodes(data: seq<Item>) returns (mapping: map<Id, Item>, children: map<Id, seq<Id>>)
    ensures mapping == Mapping(data)
    ensures forall x :: x in children <==> x in mapping
    ensures forall x :: x in children ==> children[x] == []
  {
    mapping, children := map[], map[];
    for i := 0 to |data|
      invariant mapping == Mapping(data[..i])
      invariant forall x :: x in children <==> x in mapping
      invariant forall x :: x in children ==> children[x] == []
    {
      assert data[..i + 1][..i] == data[..i];
      if data[i].id.Some? {
        mapping := mapping[data[i].id.value := data[i]];
        children := children[data[i].id.value := []];
      }
    }
    assert data[..|data|] == data;
  }

  lemma HungNext(data: seq<Item>, m: map<Id, Item>, rootValue: Option<Id>, i: nat, x: Id)
    requires i < |data|
    ensures var item := data[i];
            && Hung(data[..i + 1], m, rootValue, x) ==
                 Hung(data[..i], m, rootValue, x)
                 + (if item.id.Some? && !IsRoot(item, m, rootValue) && item.parent == Some(x) then [item.id.value] else [])
            && Tops(data[..i + 1], m, rootValue) ==
                 Tops(data[..i], m, rootValue)
                 + (if item.id.Some? && IsRoot(item, m, rootValue) then [item.id.value] else [])
  {
    assert data[..i + 1][..i] == data[..i];
  }

  /** Every list holds the rows of `data` that are hung under its node. */
  ghost predicate AllHung(children: map<Id, seq<Id>>, data: seq<Item>, m: map<Id, Item>, rootValue: Option<Id>) {
    && (forall x :: x in children <==> x in m)
    && forall x :: x in children ==> children[x] == Hung(data, m, rootValue, x)
  }

  function Hang(children: map<Id, seq<Id>>, m: map<Id, Item>, rootValue: Option<Id>, item: Item): map<Id, seq<Id>>
    requires forall x :: x in children <==> x in m
  {
    if item.id.Some? && !IsRoot(item, m, rootValue) then
      children[item.parent.value := children[item.parent.value] + [item.id.value]]
    else children
  }

  lemma HangStep(children: map<Id, seq<Id>>, data: seq<Item>, m: map<Id, Item>, rootValue: Option<Id>, i: nat)
    requires i < |data| && AllHung(children, data[..i], m, rootValue)
    ensures AllHung(Hang(children, m, rootValue, data[i]), data[..i + 1], m, rootValue)
  {
    forall x | x in children
      ensures Hang(children, m, rootValue, data[i])[x] == Hung(data[..i + 1], m, rootValue, x)
    {
      HungNext(data, m, rootValue, i, x);
    }
  }

  method Place(children: map<Id, seq<Id>>, tree: seq<Id>, m: map<Id, Item>, rootValue: Option<Id>, item: Item)
      returns (children': map<Id, seq<Id>>, tree': seq<Id>)
    requires forall x :: x in children <==> x in m
    ensures children' == Hang(children, m, rootValue, item)
    ensures tree' == tree + if item.id.Some? && IsRoot(item, m, rootValue) then [item.id.value] else []
  {
    children', tree' := children, tree;
    if item.id.Some? {
      if IsRoot(item, m, rootValue) {
        tree' := tree + [item.id.value];
      } else {
        var parent := item.parent.value;
        children' := children[parent := children[parent] + [item.id.value]];
      }
    }
  }

  /** Builds the id map first, then hangs each row under its parent. */
  method ListToTree(data: seq<Item>, rootValue: Option<Id>) returns (children: map<Id, seq<Id>>, tree: seq<Id>)
    ensures AllHung(children, data, Mapping(data), rootValue)
    ensures tree == Tops(data, Mapping(data), rootValue)
  {
    var mapping: map<Id, Item>;
    mapping, children := MakeNodes(data);
    tree := [];
    for i := 0 to |data|
      invariant AllHung(children, data[..i], mapping, rootValue)
      invariant tree == Tops(data[..i], mapping, rootValue)
    {
      HangStep(children, data, mapping, rootValue, i);
      HungNext(data, mapping, rootValue, i, "");
      children, tree := Place(children, tree, mapping, rootValue, data[i]);
    }
    assert data[..|data|] == data;
  }

  /******* What the one-pass builder shows *******/

  function Ids(data: seq<Item>): (r: seq<Id>)
    ensures forall x :: x in r ==> x in Mapping(data)
  {
    if data == [] then []
    else
      var rest, item := Ids(data[..|data| - 1]), data[|data| - 1];
      if item.id.Some? then rest + [item.id.value] else rest
  }

  lemma {:induction false} IdsComplete(data: seq<Item>, x: Id)
    requires x in Mapping(data)
    ensures x in Ids(data)
  {
    var rest, item := data[..|data| - 1], data[|data| - 1];
    if item.id != Some(x) {
      IdsComplete(rest, x);
    }
  }

  /** The parent each node is hung under; rows that count as roots have none. */
  function HungUnder(m: map<Id, Item>, rootValue: Option<Id>): (p: Parents)
    ensures ParentsExist(p)
  {
    map x | x in m :: if IsRoot(m[x], m, rootValue) then None else m[x].parent
  }

  /** Each row is the one its id is mapped to. */
  ghost predicate Faithful(data: seq<Item>, m: map<Id, Item>) {
    forall item :: item in data && item.id.Some? ==> item.id.value in m && m[item.id.value] == item
  }

  lemma {:induction false} UniqueFaithful(data: seq<Item>)
    requires NoRepeats(Ids(data))
    ensures Faithful(data, Mapping(data)) && Lists(Ids(data), Mapping0(data))
  {
    forall x | x in Mapping(data) ensures x in Ids(data) {
      IdsComplete(data, x);
    }
    if data != [] {
      var rest, item := data[..|data| - 1], data[|data| - 1];
      PrefixNoRepeats(Ids(rest), Ids(data));
      UniqueFaithful(rest);
      forall other | other in data && other.id.Some? ensures Mapping(data)[other.id.value] == other {
        if other != item {
          assert other in rest;
        }
        if other in rest && item.id == other.id {
          assert other.id.value in Mapping(rest);
          IdsComplete(rest, other.id.value);
          assert Ids(data)[|Ids(rest)|] == other.id.value;
        }
      }
    }
  }

  /** The ids as rows without parents. */
  function Mapping0(data: seq<Item>): Parents {
    map x | x in Mapping(data) :: None
  }

  lemma PrefixNoRepeats(a: seq<Id>, b: seq<Id>)
    requires NoRepeats(b) && a <= b
    ensures NoRepeats(a)
  {
    forall i, j | 0 <= i < j < |a| ensures a[i] != a[j] {
      assert a[i] == b[i] && a[j] == b[j];
    }
  }

  lemma {:induction false} HungAreChildren(data: seq<Item>, m: map<Id, Item>, rootValue: Option<Id>, x: Id)
    requires Faithful(data, m)
    ensures Hung(data, m, rootValue, x) == Children(HungUnder(m, rootValue), Ids(data), x)
    ensures Tops(data, m, rootValue) == RootIds(HungUnder(m, rootValue), Ids(data))
  {
    if data != [] {
      var rest, item := data[..|data| - 1], data[|data| - 1];
      HungAreChildren(rest, m, rootValue, x);
      assert Faithful(rest, m) && item in data;
      assert item.id.Some? ==> Ids(data)[..|Ids(data)| - 1] == Ids(rest);
    }
  }

  lemma ListedRows(data: seq<Item>, rootValue: Option<Id>)
    requires NoRepeats(Ids(data))
    ensures Lists(Ids(data), HungUnder(Mapping(data), rootValue))
  {
    UniqueFaithful(data);
    forall x ensures x in Ids(data) <==> x in HungUnder(Mapping(data), rootValue) {
      assert x in Ids(data) <==> x in Mapping0(data);
    }
  }

  /**
    With unique ids, whatever the parents are, the one-pass builder shows a finite forest that holds each row
    whose chain of parents reaches a root exactly once, and the rows on or below a cycle nowhere.
  */
  lemma OnePassShowsForest(data: seq<Item>, rootValue: Option<Id>, children: map<Id, seq<Id>>, tree: seq<Id>)
    requires NoRepeats(Ids(data))
    requires AllHung(children, data, Mapping(data), rootValue)
    requires tree == Tops(data, Mapping(data), rootValue)
    ensures var p, order := HungUnder(Mapping(data), rootValue), Ids(data);
            && AreRoots(p, tree)
            && (var forest := Forest(p, order, tree, |tree|);
                && (forall i :: 0 <= i < |tree| ==> Shows(children, forest[i]))
                && NoRepeats(IdsOf(forest))
                && forall z :: z in IdsOf(forest) <==> z in p && Grounded(p, z))
  {
    var m, order := Mapping(data), Ids(data);
    var p := HungUnder(m, rootValue);
    UniqueFaithful(data);
    ListedRows(data, rootValue);
    forall x ensures Hung(data, m, rootValue, x) == Children(p, order, x) && tree == RootIds(p, order) {
      HungAreChildren(data, m, rootValue, x);
    }
    assert tree == RootIds(p, order) by {
      HungAreChildren(data, m, rootValue, "");
    }
    RootIdsAreRoots(p, order);
    ForestExact(p, order, tree);
    forall i | 0 <= i < |tree| ensures Shows(children, Forest(p, order, tree, |tree|)[i]) {
      ForestAt(p, order, tree, |tree|, i);
      RightListsShow(p, order, children, tree[i], Room(p, tree[i]));
    }
  }

  lemma {:induction false} ForestAt(p: Parents, order: seq<Id>, roots: seq<Id>, k: nat, i: nat)
    requires AreRoots(p, roots) && i < k <= |roots|
    ensures Forest(p, order, roots, k)[i] == TreeAt(p, order, roots[i])
    decreases k
  {
    if i < k - 1 {
      ForestAt(p, order, roots, k - 1, i);
    }
  }
}
