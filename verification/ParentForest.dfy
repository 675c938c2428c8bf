/**
  Rows that name their parent: chains of ancestors, what lies below a row, and what re-parenting does.

  Both the tree builders and the department hierarchy work on such rows. Nothing here assumes that the
  parent relation is acyclic; a row whose chain of parents ends is called grounded.
*/
module ParentForest {

  import opened Wrappers

  type Id = string

  /** A row without a parent, or whose parent is no row, is a root. */
  type Parents = map<Id, Option<Id>>

  function Up(p: Parents, x: Id): Option<Id> {
    if x in p && p[x].Some? && p[x].value in p then p[x] else None
  }

  /** `n` steps up from `x` lead to a root. */
  predicate IsDepth(p: Parents, x: Id, n: nat)
    decreases n
  {
    match Up(p, x)
    case None => n == 0
    case Some(y) => n > 0 && IsDepth(p, y, n - 1)
  }

  ghost predicate Grounded(p: Parents, x: Id) {
    exists n: nat :: IsDepth(p, x, n)
  }

  ghost predicate Acyclic(p: Parents) {
    forall x {:trigger Grounded(p, x)} :: x in p ==> Grounded(p, x)
  }

  ghost function Depth(p: Parents, x: Id): (n: nat)
    requires Grounded(p, x)
    ensures IsDepth(p, x, n)
  {
    var n: nat :| IsDepth(p, x, n);
    n
  }

  lemma {:induction false} DepthUnique(p: Parents, x: Id, n: nat, m: nat)
    requires IsDepth(p, x, n) && IsDepth(p, x, m)
    ensures n == m
    decreases n
  {
    if n > 0 && m > 0 {
      DepthUnique(p, Up(p, x).value, n - 1, m - 1);
    }
  }

  /** The parent of a grounded row is grounded, one step nearer to the root; so are its children, one further. */
  lemma DepthStep(p: Parents, x: Id, y: Id)
    requires Up(p, x) == Some(y)
    ensures Grounded(p, x) <==> Grounded(p, y)
    ensures Grounded(p, x) ==> Depth(p, x) == Depth(p, y) + 1
  {
    if Grounded(p, x) {
      assert IsDepth(p, y, Depth(p, x) - 1);
    }
    if Grounded(p, y) {
      assert IsDepth(p, x, Depth(p, y) + 1);
      DepthUnique(p, x, Depth(p, x), Depth(p, y) + 1);
    }
  }

  /******* Ancestors *******/

  /** The ancestors of `x`, nearest first. */
  ghost function Chain(p: Parents, x: Id): (c: seq<Id>)
    requires Grounded(p, x)
    ensures |c| == Depth(p, x)
    decreases Depth(p, x)
  {
    match Up(p, x)
    case None => []
    case Some(y) =>
      DepthStep(p, x, y);
      [y] + Chain(p, y)
  }

  /** Each ancestor is a row, nearer to the root by its distance, and its own ancestors are the rest of the chain. */
  lemma {:induction false} ChainAt(p: Parents, x: Id, i: nat)
    requires Grounded(p, x) && i < Depth(p, x)
    ensures var a := Chain(p, x)[i];
            a in p && Grounded(p, a) && Depth(p, a) == Depth(p, x) - 1 - i && Chain(p, a) == Chain(p, x)[i + 1..]
    decreases Depth(p, x)
  {
    var y := Up(p, x).value;
    DepthStep(p, x, y);
    if i > 0 {
      ChainAt(p, y, i - 1);
    }
  }

  /** `c` is `z` or one of its ancestors. */
  ghost predicate OnLine(p: Parents, c: Id, z: Id)
    requires Grounded(p, z)
  {
    c == z || c in Chain(p, z)
  }

  lemma OnLineDepth(p: Parents, c: Id, z: Id)
    requires Grounded(p, z) && OnLine(p, c, z)
    ensures Grounded(p, c) && Depth(p, c) <= Depth(p, z) && (c != z ==> Depth(p, c) < Depth(p, z))
  {
    if c != z {
      var i :| 0 <= i < |Chain(p, z)| && Chain(p, z)[i] == c;
      ChainAt(p, z, i);
    }
  }

  /** A line holds one row at each depth. */
  lemma OnLineUnique(p: Parents, c: Id, d: Id, z: Id)
    requires Grounded(p, z) && OnLine(p, c, z) && OnLine(p, d, z)
    requires Grounded(p, c) && Grounded(p, d) && Depth(p, c) == Depth(p, d)
    ensures c == d
  {
    if c != z && d != z {
      var i :| 0 <= i < |Chain(p, z)| && Chain(p, z)[i] == c;
      var j :| 0 <= j < |Chain(p, z)| && Chain(p, z)[j] == d;
      ChainAt(p, z, i);
      ChainAt(p, z, j);
    } else {
      OnLineDepth(p, c, z);
      OnLineDepth(p, d, z);
    }
  }

  lemma OnLineTransitive(p: Parents, a: Id, c: Id, z: Id)
    requires Grounded(p, z) && OnLine(p, c, z) && Grounded(p, c) && OnLine(p, a, c)
    ensures OnLine(p, a, z)
  {
    if c != z && a != c {
      var i :| 0 <= i < |Chain(p, z)| && Chain(p, z)[i] == c;
      ChainAt(p, z, i);
    }
  }

  /** No row is its own ancestor, and no ancestor comes twice. */
  lemma ChainDistinct(p: Parents, x: Id)
    requires Grounded(p, x)
    ensures x !in Chain(p, x)
    ensures NoRepeats(Chain(p, x))
  {
    forall i | 0 <= i < |Chain(p, x)|
      ensures Grounded(p, Chain(p, x)[i]) && Depth(p, Chain(p, x)[i]) == Depth(p, x) - 1 - i
    {
      ChainAt(p, x, i);
    }
  }

  lemma {:induction false} DistinctFit(s: seq<Id>, keys: set<Id>)
    requires NoRepeats(s)
    requires forall i :: 0 <= i < |s| ==> s[i] in keys
    ensures |s| <= |keys|
    decreases |s|
  {
    if s != [] {
      DistinctFit(s[1..], keys - {s[0]});
    }
  }

  /** A chain is shorter than the number of rows: following parents ends. */
  lemma DepthBounded(p: Parents, x: Id)
    requires Grounded(p, x) && x in p
    ensures Depth(p, x) < |p|
  {
    ChainDistinct(p, x);
    forall i | 0 <= i < |Chain(p, x)| ensures Chain(p, x)[i] in p {
      ChainAt(p, x, i);
    }
    DistinctFit([x] + Chain(p, x), p.Keys);
  }

  /******* Descendants *******/

  ghost predicate NoRepeats(s: seq<Id>) {
    forall i, j :: 0 <= i < j < |s| ==> s[i] != s[j]
  }

  lemma NoRepeatsConcat(a: seq<Id>, b: seq<Id>)
    requires NoRepeats(a) && NoRepeats(b) && forall z :: z in a ==> z !in b
    ensures NoRepeats(a + b)
  {
    forall i, j | 0 <= i < j < |a + b| ensures (a + b)[i] != (a + b)[j] {
      if i < |a| <= j {
        assert a[i] in a && b[j - |a|] in b;
      }
    }
  }

  /** `order` lists the rows, each once. */
  ghost predicate Lists(order: seq<Id>, p: Parents) {
    && NoRepeats(order)
    && forall x :: x in order <==> x in p
  }

  /** The rows of `order` whose parent is `x`, in that order. */
  function Children(p: Parents, order: seq<Id>, x: Id): (c: seq<Id>)
    ensures forall z :: z in c ==> z in order && z in p && p[z] == Some(x)
  {
    if order == [] then []
    else
      var rest := Children(p, order[..|order| - 1], x);
      var z := order[|order| - 1];
      if z in p && p[z] == Some(x) then rest + [z] else rest
  }

  lemma {:induction false} ChildrenComplete(p: Parents, order: seq<Id>, x: Id, z: Id)
    requires z in order && z in p && p[z] == Some(x)
    ensures z in Children(p, order, x)
  {
    if z != order[|order| - 1] {
      ChildrenComplete(p, order[..|order| - 1], x, z);
    }
  }

  lemma {:induction false} ChildrenDistinct(p: Parents, order: seq<Id>, x: Id)
    requires NoRepeats(order)
    ensures NoRepeats(Children(p, order, x))
  {
    if order != [] {
      var z, rest := order[|order| - 1], Children(p, order[..|order| - 1], x);
      ChildrenDistinct(p, order[..|order| - 1], x);
      assert z !in order[..|order| - 1];
      NoRepeatsConcat(rest, [z]);
    }
  }

  /** How deep the rows below `x` can still go. */
  ghost function Room(p: Parents, x: Id): nat
    requires Grounded(p, x) && x in p
  {
    DepthBounded(p, x);
    |p| - Depth(p, x)
  }

  lemma ChildRoom(p: Parents, order: seq<Id>, x: Id, k: nat)
    requires Grounded(p, x) && x in p && k < |Children(p, order, x)|
    ensures var c := Children(p, order, x)[k];
            c in p && Grounded(p, c) && Up(p, c) == Some(x) && Room(p, c) == Room(p, x) - 1
  {
    DepthStep(p, Children(p, order, x)[k], x);
  }

  /** The first `k` children of `x`, each followed by everything below it. */
  ghost function Under(p: Parents, order: seq<Id>, x: Id, k: nat): seq<Id>
    requires Grounded(p, x) && x in p && k <= |Children(p, order, x)|
    decreases Room(p, x), k
  {
    if k == 0 then []
    else
      ChildRoom(p, order, x, k - 1);
      var c := Children(p, order, x)[k - 1];
      Under(p, order, x, k - 1) + [c] + Under(p, order, c, |Children(p, order, c)|)
  }

  /** Everything below `x`, parents before their children. */
  ghost function Below(p: Parents, order: seq<Id>, x: Id): seq<Id>
    requires Grounded(p, x) && x in p
  {
    Under(p, order, x, |Children(p, order, x)|)
  }

  /** `z` lies on the line of one of the first `k` children. */
  ghost predicate OnSomeLine(p: Parents, c: seq<Id>, k: nat, z: Id)
    requires Grounded(p, z) && k <= |c|
  {
    exists i :: 0 <= i < k && OnLine(p, c[i], z)
  }

  /** `z` is a row on the line of one of the first `k` of `c`. */
  ghost predicate Reached(p: Parents, c: seq<Id>, k: nat, z: Id)
    requires k <= |c|
  {
    z in p && Grounded(p, z) && OnSomeLine(p, c, k, z)
  }

  lemma UnderNone(p: Parents, order: seq<Id>, x: Id, z: Id)
    requires Grounded(p, x) && x in p
    ensures z !in Under(p, order, x, 0) && !Reached(p, Children(p, order, x), 0, z)
  {
  }

  lemma {:induction false} UnderMembers(p: Parents, order: seq<Id>, x: Id, k: nat, z: Id, room: nat)
    requires Grounded(p, x) && x in p && room == Room(p, x) && k <= |Children(p, order, x)| && Lists(order, p)
    ensures z in Under(p, order, x, k) <==> Reached(p, Children(p, order, x), k, z)
    decreases room, k
  {
    hide *;
    if k == 0 {
      UnderNone(p, order, x, z);
    } else {
      var c := Children(p, order, x)[k - 1];
      ChildRoom(p, order, x, k - 1);
      UnderMembers(p, order, x, k - 1, z, room);
      BelowMembers(p, order, c, z, room - 1);
      UnderNextMembers(p, order, x, k, z);
    }
  }

  /** One more child adds itself and what is below it. */
  lemma UnderNextMembers(p: Parents, order: seq<Id>, x: Id, k: nat, z: Id)
    requires Grounded(p, x) && x in p && 0 < k <= |Children(p, order, x)|
    requires z in Under(p, order, x, k - 1) <==> Reached(p, Children(p, order, x), k - 1, z)
    requires var c := Children(p, order, x)[k - 1];
             c in p && Grounded(p, c) && (z in Below(p, order, c) <==> z in p && Grounded(p, z) && c in Chain(p, z))
    ensures z in Under(p, order, x, k) <==> Reached(p, Children(p, order, x), k, z)
  {
    UnderSplit(p, order, x, k, z);
  }

  lemma UnderSplit(p: Parents, order: seq<Id>, x: Id, k: nat, z: Id)
    requires Grounded(p, x) && x in p && 0 < k <= |Children(p, order, x)|
    ensures var c := Children(p, order, x)[k - 1];
            && c in p && Grounded(p, c)
            && (z in Under(p, order, x, k) <==> z in Under(p, order, x, k - 1) || z == c || z in Below(p, order, c))
  {
    ChildRoom(p, order, x, k - 1);
  }

  lemma {:induction false} BelowMembers(p: Parents, order: seq<Id>, x: Id, z: Id, room: nat)
    requires Grounded(p, x) && x in p && room == Room(p, x) && Lists(order, p)
    ensures z in Below(p, order, x) <==> z in p && Grounded(p, z) && x in Chain(p, z)
    decreases room, |Children(p, order, x)| + 1
  {
    var cs := Children(p, order, x);
    UnderMembers(p, order, x, |cs|, z, room);
    if z in p && Grounded(p, z) {
      if x in Chain(p, z) {
        var i :| 0 <= i < |Chain(p, z)| && Chain(p, z)[i] == x;
        ChildToward(p, order, x, z, i);
      }
      if OnSomeLine(p, cs, |cs|, z) {
        var i :| 0 <= i < |cs| && OnLine(p, cs[i], z);
        ChildRoom(p, order, x, i);
        OnLineTransitive(p, x, cs[i], z);
        OnLineDepth(p, cs[i], z);
      }
    }
  }

  /** From an ancestor of `z`, one child leads toward `z`. */
  lemma ChildToward(p: Parents, order: seq<Id>, x: Id, z: Id, i: nat)
    requires Grounded(p, z) && z in p && i < |Chain(p, z)| && Chain(p, z)[i] == x && Lists(order, p)
    ensures OnSomeLine(p, Children(p, order, x), |Children(p, order, x)|, z)
  {
    var c := if i == 0 then z else Chain(p, z)[i - 1];
    if i > 0 {
      ChainAt(p, z, i - 1);
      assert Chain(p, c)[0] == x;
    }
    ChildrenComplete(p, order, x, c);
    var cs := Children(p, order, x);
    var j :| 0 <= j < |cs| && cs[j] == c;
    assert OnLine(p, cs[j], z);
  }

  lemma {:induction false} UnderNoRepeats(p: Parents, order: seq<Id>, x: Id, k: nat, room: nat)
    requires Grounded(p, x) && x in p && room == Room(p, x) && k <= |Children(p, order, x)| && Lists(order, p)
    ensures NoRepeats(Under(p, order, x, k))
    decreases room, k
  {
    if k > 0 {
      var c := Children(p, order, x)[k - 1];
      ChildRoom(p, order, x, k - 1);
      UnderNoRepeats(p, order, x, k - 1, room);
      UnderNoRepeats(p, order, c, |Children(p, order, c)|, room - 1);
      UnderJoin(p, order, x, k);
    }
  }

  lemma UnderJoin(p: Parents, order: seq<Id>, x: Id, k: nat)
    requires Grounded(p, x) && x in p && 0 < k <= |Children(p, order, x)| && Lists(order, p)
    requires var c := Children(p, order, x)[k - 1];
             NoRepeats(Under(p, order, x, k - 1)) && c in p && Grounded(p, c) && NoRepeats(Below(p, order, c))
    ensures NoRepeats(Under(p, order, x, k))
  {
    var c := Children(p, order, x)[k - 1];
    ChildRoom(p, order, x, k - 1);
    BelowMembers(p, order, c, c, Room(p, c));
    ChainDistinct(p, c);
    NoRepeatsConcat([c], Below(p, order, c));
    UnderApart(p, order, x, k);
    NoRepeatsConcat(Under(p, order, x, k - 1), [c] + Below(p, order, c));
    UnderConcat(p, order, x, k);
  }

  lemma UnderConcat(p: Parents, order: seq<Id>, x: Id, k: nat)
    requires Grounded(p, x) && x in p && 0 < k <= |Children(p, order, x)|
    ensures var c := Children(p, order, x)[k - 1];
            c in p && Grounded(p, c) && Under(p, order, x, k) == Under(p, order, x, k - 1) + ([c] + Below(p, order, c))
  {
    ChildRoom(p, order, x, k - 1);
  }

  lemma UnderApart(p: Parents, order: seq<Id>, x: Id, k: nat)
    requires Grounded(p, x) && x in p && 0 < k <= |Children(p, order, x)| && Lists(order, p)
    ensures var c := Children(p, order, x)[k - 1];
            c in p && Grounded(p, c) && forall z :: z in Under(p, order, x, k - 1) ==> z !in [c] + Below(p, order, c)
  {
    var c := Children(p, order, x)[k - 1];
    ChildRoom(p, order, x, k - 1);
    forall z | z in Under(p, order, x, k - 1) ensures z !in [c] + Below(p, order, c) {
      UnderMembers(p, order, x, k - 1, z, Room(p, x));
      BelowMembers(p, order, c, z, Room(p, c));
      LinesApart(p, order, x, k, z);
    }
  }

  /** A row below one child is not below a later one. */
  lemma LinesApart(p: Parents, order: seq<Id>, x: Id, k: nat, z: Id)
    requires Grounded(p, x) && x in p && 0 < k <= |Children(p, order, x)| && Lists(order, p)
    requires Grounded(p, z) && OnSomeLine(p, Children(p, order, x), k - 1, z)
    ensures !OnLine(p, Children(p, order, x)[k - 1], z)
  {
    hide Chain, OnLine, Children, Grounded, Depth;
    var cs := Children(p, order, x);
    var i :| 0 <= i < k - 1 && OnLine(p, cs[i], z);
    ChildRoom(p, order, x, i);
    ChildRoom(p, order, x, k - 1);
    ChildrenDistinct(p, order, x);
    if OnLine(p, cs[k - 1], z) {
      OnLineUnique(p, cs[i], cs[k - 1], z);
    }
  }

  /** Below `x` lies, without repetition, exactly what has `x` among its ancestors. */
  lemma BelowExact(p: Parents, order: seq<Id>, x: Id)
    requires Grounded(p, x) && x in p && Lists(order, p)
    ensures NoRepeats(Below(p, order, x))
    ensures forall z :: z in Below(p, order, x) <==> z in p && Grounded(p, z) && x in Chain(p, z)
  {
    UnderNoRepeats(p, order, x, |Children(p, order, x)|, Room(p, x));
    forall z ensures z in Below(p, order, x) <==> z in p && Grounded(p, z) && x in Chain(p, z) {
      BelowMembers(p, order, x, z, Room(p, x));
    }
  }

  /******* Changing parents *******/

  /** A row whose line goes up as before keeps its chain. */
  lemma {:induction false} ChainKept(p: Parents, p': Parents, z: Id)
    requires Grounded(p, z) && forall a :: OnLine(p, a, z) ==> Up(p', a) == Up(p, a)
    ensures Grounded(p', z) && Depth(p', z) == Depth(p, z) && Chain(p', z) == Chain(p, z)
    decreases Depth(p, z)
  {
    assert OnLine(p, z, z);
    match Up(p, z)
    case None =>
      assert IsDepth(p', z, 0);
      DepthUnique(p', z, 0, Depth(p', z));
      DepthUnique(p, z, 0, Depth(p, z));
    case Some(y) =>
      DepthStep(p, z, y);
      forall a | OnLine(p, a, y) ensures OnLine(p, a, z) {
        assert Chain(p, z) == [y] + Chain(p, y);
      }
      ChainKept(p, p', y);
      DepthStep(p', z, y);
  }

  /** If every row goes up as before, except that `x` goes up to a row grounded apart from it, all stay grounded. */
  lemma {:induction false} GroundedKept(p: Parents, p': Parents, x: Id, z: Id)
    requires Grounded(p, z) && Grounded(p', x) && forall a :: a != x ==> Up(p', a) == Up(p, a)
    ensures Grounded(p', z)
    decreases Depth(p, z)
  {
    if z != x {
      match Up(p, z)
      case None => assert IsDepth(p', z, 0);
      case Some(y) =>
        DepthStep(p, z, y);
        GroundedKept(p, p', x, y);
        DepthStep(p', z, y);
    }
  }

  /** Below its new place, `x` is still found on the lines that went through it. */
  lemma {:induction false} LineThrough(p: Parents, p': Parents, x: Id, z: Id)
    requires Grounded(p, z) && Grounded(p', z) && OnLine(p, x, z) && forall a :: a != x ==> Up(p', a) == Up(p, a)
    ensures OnLine(p', x, z)
    decreases Depth(p, z)
  {
    if z != x {
      var y := Up(p, z).value;
      DepthStep(p, z, y);
      DepthStep(p', z, y);
      assert Chain(p, z) == [y] + Chain(p, y);
      LineThrough(p, p', x, y);
      assert Chain(p', z) == [y] + Chain(p', y);
    }
  }

  /** Giving `x` the parent `y` keeps the rows acyclic if and only if `x` is neither `y` nor one of its ancestors. */
  lemma ReparentExact(p: Parents, x: Id, y: Id)
    requires Acyclic(p) && x in p && y in p
    ensures Acyclic(p[x := Some(y)]) <==> !OnLine(p, x, y)
  {
    var p' := p[x := Some(y)];
    assert Up(p', x) == Some(y);
    if !OnLine(p, x, y) {
      ChainKept(p, p', y);
      DepthStep(p', x, y);
      forall z | z in p' ensures Grounded(p', z) {
        GroundedKept(p, p', x, z);
      }
    } else if Acyclic(p') {
      LineThrough(p, p', x, y);
      DepthStep(p', x, y);
      OnLineDepth(p', x, y);
    }
  }

  lemma UprootKeeps(p: Parents, x: Id)
    requires Acyclic(p) && x in p
    ensures Acyclic(p[x := None])
  {
    var p' := p[x := None];
    assert IsDepth(p', x, 0);
    forall z | z in p' ensures Grounded(p', z) {
      GroundedKept(p, p', x, z);
    }
  }

  predicate ParentIn(p: Parents, x: Id) {
    x in p && p[x].Some? ==> p[x].value in p
  }

  /** The trigger keeps the solver from following parents on its own. */
  ghost predicate ParentsExist(p: Parents) {
    forall x {:trigger ParentIn(p, x)} :: ParentIn(p, x)
  }

  ghost predicate IsLeaf(p: Parents, x: Id) {
    forall z :: z in p ==> p[z] != Some(x)
  }

  /** A new row under an existing one, or as a root, changes no other chain. */
  lemma AddKeeps(p: Parents, x: Id, parent: Option<Id>)
    requires Acyclic(p) && ParentsExist(p) && x !in p && (parent.Some? ==> parent.value in p)
    ensures var p' := p[x := parent]; Acyclic(p') && ParentsExist(p')
    ensures forall z :: z in p ==> Grounded(p[x := parent], z) && Chain(p[x := parent], z) == Chain(p, z)
  {
    var p' := p[x := parent];
    forall z | z in p ensures Grounded(p', z) && Chain(p', z) == Chain(p, z) {
      forall a | OnLine(p, a, z) ensures Up(p', a) == Up(p, a) {
        LineInRows(p, a, z);
        assert ParentIn(p, a);
      }
      ChainKept(p, p', z);
    }
    forall z ensures ParentIn(p', z) {
      assert ParentIn(p, z);
    }
    match parent
    case None => assert IsDepth(p', x, 0);
    case Some(y) => DepthStep(p', x, y);
  }

  lemma LineInRows(p: Parents, a: Id, z: Id)
    requires Grounded(p, z) && z in p && OnLine(p, a, z)
    ensures a in p
  {
    if a != z {
      var i :| 0 <= i < |Chain(p, z)| && Chain(p, z)[i] == a;
      ChainAt(p, z, i);
    }
  }

  /** Removing a row without children changes no other chain. */
  lemma RemoveLeafKeeps(p: Parents, x: Id)
    requires Acyclic(p) && ParentsExist(p) && IsLeaf(p, x)
    ensures Acyclic(p - {x}) && ParentsExist(p - {x})
    ensures forall z :: z in p - {x} ==> Grounded(p - {x}, z) && Chain(p - {x}, z) == Chain(p, z)
  {
    var p' := p - {x};
    forall z ensures ParentIn(p', z) {
      assert ParentIn(p, z);
    }
    forall z | z in p' ensures Grounded(p', z) && Chain(p', z) == Chain(p, z) {
      forall a | OnLine(p, a, z) ensures Up(p', a) == Up(p, a) {
        LineInRows(p, a, z);
        LeafOnNoLine(p, x, z);
      }
      ChainKept(p, p', z);
    }
  }

  lemma LeafOnNoLine(p: Parents, x: Id, z: Id)
    requires Grounded(p, z) && z in p && IsLeaf(p, x) && z != x
    ensures !OnLine(p, x, z)
  {
    if OnLine(p, x, z) {
      var i :| 0 <= i < |Chain(p, z)| && Chain(p, z)[i] == x;
      if i > 0 {
        ChainAt(p, z, i - 1);
      }
    }
  }
}
