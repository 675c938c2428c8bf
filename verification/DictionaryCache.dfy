/**
  Dictionaries and their items in a database, and the cached lists of items by dictionary code that the
  requests invalidate one by one. Requests come one at a time; a cached list may be gone at any moment.
*/
module DictionaryCache {

  import opened Wrappers

  type Id = string
  type Code = string

  datatype Row = Row(id: Id, dict: Id, data: string)

  /** The dictionaries by id with their codes, the items newest first, and the cached lists by code. */
  datatype State = State(dicts: map<Id, Code>, items: seq<Row>, cache: map<Code, seq<Row>>)

  datatype Request =
    | CreateDict(id: Id, code: Code)
    | UpdateDict(id: Id, code: Code)
    | DeleteDict(id: Id)
    | CreateItem(row: Row)
    | UpdateItem(id: Id, dict: Option<Id>, data: string)
    | DeleteItem(id: Id)
    | ListByCode(code: Code)
    | Evict(code: Code)

  /******* Queries *******/

  function ItemsOf(items: seq<Row>, dict: Id): (r: seq<Row>)
    ensures forall row :: row in r <==> row in items && row.dict == dict
  {
    if items == [] then []
    else if items[0].dict == dict then [items[0]] + ItemsOf(items[1..], dict)
    else ItemsOf(items[1..], dict)
  }

  function ItemById(items: seq<Row>, id: Id): (r: Option<Row>)
    ensures r.Some? ==> r.value in items && r.value.id == id
    ensures r.None? ==> forall row :: row in items ==> row.id != id
  {
    if items == [] then None else if items[0].id == id then Some(items[0]) else ItemById(items[1..], id)
  }

  predicate HasCode(dicts: map<Id, Code>, code: Code) {
    exists d | d in dicts :: dicts[d] == code
  }

  ghost predicate UniqueCodes(dicts: map<Id, Code>) {
    forall d, e :: d in dicts && e in dicts && dicts[d] == dicts[e] ==> d == e
  }

  /** The dictionary with a code. */
  function ByCode(dicts: map<Id, Code>, code: Code): (d: Id)
    requires UniqueCodes(dicts) && HasCode(dicts, code)
    ensures d in dicts && dicts[d] == code
  {
    var d :| d in dicts && dicts[d] == code;
    d
  }

  /******* Changes *******/

  function Change(items: seq<Row>, id: Id, row: Row): seq<Row> {
    if items == [] then [] else [if items[0].id == id then row else items[0]] + Change(items[1..], id, row)
  }

  function WithoutItem(items: seq<Row>, id: Id): (r: seq<Row>)
    ensures forall row :: row in r <==> row in items && row.id != id
  {
    if items == [] then []
    else if items[0].id == id then WithoutItem(items[1..], id)
    else [items[0]] + WithoutItem(items[1..], id)
  }

  function WithoutDict(items: seq<Row>, dict: Id): (r: seq<Row>)
    ensures forall row :: row in r <==> row in items && row.dict != dict
  {
    if items == [] then []
    else if items[0].dict == dict then WithoutDict(items[1..], dict)
    else [items[0]] + WithoutDict(items[1..], dict)
  }

  /** The row after an update that leaves out what is null. */
  function Updated(row: Row, dict: Option<Id>, data: string): Row {
    Row(row.id, if dict.Some? then dict.value else row.dict, data)
  }

  /** The code lists are cached under by item requests: none if the item's dictionary does not exist. */
  function Drop(s: State, dict: Id): map<Code, seq<Row>> {
    if dict in s.dicts then s.cache - {s.dicts[dict]} else s.cache
  }

  datatype Answer = Done | NotFound | Failed | Listed(rows: seq<Row>)

  ghost predicate Distinct(items: seq<Row>) {
    forall i, j :: 0 <= i < j < |items| ==> items[i].id != items[j].id
  }

  ghost predicate Valid(s: State) {
    && UniqueCodes(s.dicts)
    && Distinct(s.items)
  }

  function AnswerTo(s: State, r: Request): Answer
    requires Valid(s)
  {
    match r
    case CreateDict(id, code) => if id in s.dicts || HasCode(s.dicts, code) then Failed else Done
    case UpdateDict(id, code) =>
      if id !in s.dicts then NotFound
      else if HasCode(s.dicts, code) && ByCode(s.dicts, code) != id then Failed
      else Done
    case DeleteDict(id) => if id !in s.dicts then NotFound else Done
    case CreateItem(row) =>
      if ItemById(s.items, row.id).Some? then Failed else if row.dict !in s.dicts then Failed else Done
    case UpdateItem(id, _, _) =>
      var row := ItemById(s.items, id);
      if row.None? then NotFound else if row.value.dict !in s.dicts then Failed else Done
    case DeleteItem(id) =>
      var row := ItemById(s.items, id);
      if row.None? then NotFound else if row.value.dict !in s.dicts then Failed else Done
    case ListByCode(code) =>
      // an empty code is no path that lists anything
      if code == "" then NotFound
      else if code in s.cache then Listed(s.cache[code])
      else if HasCode(s.dicts, code) then Listed(ItemsOf(s.items, ByCode(s.dicts, code)))
      else NotFound
    case Evict(_) => Done
  }

  /** An item of a missing dictionary is stored before the request fails; every other failure changes nothing. */
  function After(s: State, r: Request): State
    requires Valid(s)
  {
    if AnswerTo(s, r) == NotFound then s
    else if AnswerTo(s, r) == Failed then
      if r.CreateItem? && ItemById(s.items, r.row.id).None? then s.(items := [r.row] + s.items) else s
    else AfterDone(s, r)
  }

  function AfterDone(s: State, r: Request): State
    requires Valid(s) && AnswerTo(s, r) != NotFound && AnswerTo(s, r) != Failed
  {
    match r
    case CreateDict(id, code) => s.(dicts := s.dicts[id := code])
    case UpdateDict(id, code) =>
      s.(dicts := s.dicts[id := code], cache := if s.dicts[id] != code then s.cache - {s.dicts[id]} else s.cache)
    case DeleteDict(id) => State(s.dicts - {id}, WithoutDict(s.items, id), s.cache - {s.dicts[id]})
    case CreateItem(row) => s.(items := [row] + s.items, cache := Drop(s, row.dict))
    case UpdateItem(id, dict, data) =>
      var row := ItemById(s.items, id).value;
      s.(items := Change(s.items, id, Updated(row, dict, data)), cache := Drop(s, row.dict))
    case DeleteItem(id) =>
      s.(items := WithoutItem(s.items, id), cache := Drop(s, ItemById(s.items, id).value.dict))
    case ListByCode(code) => s.(cache := s.cache[code := AnswerTo(s, r).rows])
    case Evict(code) => s.(cache := s.cache - {code})
  }

  /******* Fresh lists *******/

  /** The cached list of a code, if any, is what the database holds. */
  ghost predicate FreshAt(s: State, code: Code)
    requires UniqueCodes(s.dicts)
  {
    code in s.cache ==> HasCode(s.dicts, code) && s.cache[code] == ItemsOf(s.items, ByCode(s.dicts, code))
  }

  ghost predicate Fresh(s: State)
    requires UniqueCodes(s.dicts)
  {
    forall code :: code in s.cache ==> FreshAt(s, code)
  }

  /** No item moves into a dictionary whose list is cached. */
  predicate KeepsLists(s: State, r: Request) {
    r.UpdateItem? ==>
      match ItemById(s.items, r.id)
      case None => true
      case Some(row) =>
        row.dict !in s.dicts || r.dict == None || r.dict.value == row.dict
        || r.dict.value !in s.dicts || s.dicts[r.dict.value] !in s.cache
  }

  /** In particular, requests by which items keep their dictionary move none. */
  predicate KeepsDictionary(s: State, r: Request) {
    r.UpdateItem? && r.dict.Some? ==>
      match ItemById(s.items, r.id)
      case None => true
      case Some(row) => r.dict.value == row.dict
  }

  lemma {:induction false} ChangeKeeps(items: seq<Row>, id: Id, row: Row, d: Id)
    requires row.id == id && Distinct(items)
    requires forall r :: r in items && r.id == id ==> r.dict != d
    ensures |Change(items, id, row)| == |items|
    ensures forall i :: 0 <= i < |items| ==> Change(items, id, row)[i] == if items[i].id == id then row else items[i]
    ensures row.dict != d ==> ItemsOf(Change(items, id, row), d) == ItemsOf(items, d)
  {
    if items != [] {
      ChangeKeeps(items[1..], id, row, d);
      assert items[0] in items;
    }
  }

  lemma DistinctCons(row: Row, rest: seq<Row>)
    requires Distinct(rest) && forall r :: r in rest ==> r.id != row.id
    ensures Distinct([row] + rest)
  {
    forall i, j | 0 <= i < j < |rest| + 1 ensures ([row] + rest)[i].id != ([row] + rest)[j].id {
      assert rest[j - 1] in rest;
    }
  }

  lemma {:induction false} WithoutItemDistinct(items: seq<Row>, id: Id)
    requires Distinct(items)
    ensures Distinct(WithoutItem(items, id))
  {
    if items != [] {
      WithoutItemDistinct(items[1..], id);
      DistinctCons(items[0], WithoutItem(items[1..], id));
    }
  }

  lemma {:induction false} WithoutDictDistinct(items: seq<Row>, dict: Id)
    requires Distinct(items)
    ensures Distinct(WithoutDict(items, dict))
  {
    if items != [] {
      WithoutDictDistinct(items[1..], dict);
      DistinctCons(items[0], WithoutDict(items[1..], dict));
    }
  }

  lemma {:induction false} WithoutItemKeeps(items: seq<Row>, id: Id, d: Id)
    requires forall row :: row in items && row.id == id ==> row.dict != d
    ensures ItemsOf(WithoutItem(items, id), d) == ItemsOf(items, d)
  {
    if items != [] {
      WithoutItemKeeps(items[1..], id, d);
      assert items[0] in items;
    }
  }

  lemma {:induction false} WithoutDictKeeps(items: seq<Row>, dict: Id, d: Id)
    requires d != dict
    ensures ItemsOf(WithoutDict(items, dict), d) == ItemsOf(items, d)
  {
    if items != [] {
      WithoutDictKeeps(items[1..], dict, d);
    }
  }

  /******* Steps *******/

  lemma UniqueSet(dicts: map<Id, Code>, id: Id, code: Code)
    requires UniqueCodes(dicts) && (HasCode(dicts, code) ==> ByCode(dicts, code) == id)
    ensures UniqueCodes(dicts[id := code])
  {
    forall d | d in dicts && dicts[d] == code ensures d == id {
      assert HasCode(dicts, code);
    }
  }

  /** A list stays fresh if its dictionary keeps its code and its items. */
  lemma StaysFresh(s: State, s': State, code: Code)
    requires UniqueCodes(s.dicts) && UniqueCodes(s'.dicts) && FreshAt(s, code) && code in s.cache
    requires var d := ByCode(s.dicts, code);
             d in s'.dicts && s'.dicts[d] == code && ItemsOf(s'.items, d) == ItemsOf(s.items, d)
    requires code in s'.cache ==> s'.cache[code] == s.cache[code]
    ensures FreshAt(s', code)
  {
  }

  lemma CreateDictStep(s: State, id: Id, code: Code)
    requires Valid(s) && Fresh(s) && AnswerTo(s, CreateDict(id, code)) == Done
    ensures Valid(After(s, CreateDict(id, code))) && Fresh(After(s, CreateDict(id, code)))
  {
    var s' := After(s, CreateDict(id, code));
    UniqueSet(s.dicts, id, code);
    forall c | c in s'.cache ensures FreshAt(s', c) {
      assert FreshAt(s, c);
      StaysFresh(s, s', c);
    }
  }

  lemma UpdateDictStep(s: State, id: Id, code: Code)
    requires Valid(s) && Fresh(s) && AnswerTo(s, UpdateDict(id, code)) == Done
    ensures Valid(After(s, UpdateDict(id, code))) && Fresh(After(s, UpdateDict(id, code)))
  {
    var s' := After(s, UpdateDict(id, code));
    UniqueSet(s.dicts, id, code);
    forall c | c in s'.cache ensures FreshAt(s', c) {
      assert FreshAt(s, c);
      assert c == s.dicts[id] ==> code == c;
      StaysFresh(s, s', c);
    }
  }

  lemma DeleteDictStep(s: State, id: Id)
    requires Valid(s) && Fresh(s) && AnswerTo(s, DeleteDict(id)) == Done
    ensures Valid(After(s, DeleteDict(id))) && Fresh(After(s, DeleteDict(id)))
  {
    var s' := After(s, DeleteDict(id));
    WithoutDictDistinct(s.items, id);
    forall c | c in s'.cache ensures FreshAt(s', c) {
      assert FreshAt(s, c);
      WithoutDictKeeps(s.items, id, ByCode(s.dicts, c));
      StaysFresh(s, s', c);
    }
  }

  /** Dictionary `d` keeps its items unless it is `dict`. */
  ghost predicate SameItems(s: State, s': State, dict: Id, d: Id) {
    d != dict ==> ItemsOf(s'.items, d) == ItemsOf(s.items, d)
  }

  /** An item request that leaves the items of every dictionary but `dict` alone, and drops the list of that one. */
  lemma ItemStep(s: State, s': State, dict: Id)
    requires Valid(s) && Fresh(s) && s'.dicts == s.dicts && Distinct(s'.items)
    requires s'.cache == Drop(s, dict)
    requires forall c :: c in s'.cache ==> HasCode(s.dicts, c) && SameItems(s, s', dict, ByCode(s.dicts, c))
    ensures Valid(s') && Fresh(s')
  {
    forall c | c in s'.cache ensures FreshAt(s', c) {
      assert FreshAt(s, c);
      StaysFresh(s, s', c);
    }
  }

  lemma CreateItemStep(s: State, row: Row)
    requires Valid(s) && Fresh(s) && ItemById(s.items, row.id).None?
    ensures Valid(After(s, CreateItem(row))) && Fresh(After(s, CreateItem(row)))
  {
    var s' := After(s, CreateItem(row));
    DistinctCons(row, s.items);
    forall c | c in s'.cache
      ensures HasCode(s.dicts, c) && SameItems(s, s', row.dict, ByCode(s.dicts, c))
    {
      assert FreshAt(s, c);
    }
    ItemStep(s, s', row.dict);
  }

  lemma DeleteItemStep(s: State, id: Id)
    requires Valid(s) && Fresh(s) && AnswerTo(s, DeleteItem(id)) == Done
    ensures Valid(After(s, DeleteItem(id))) && Fresh(After(s, DeleteItem(id)))
  {
    var s', row := After(s, DeleteItem(id)), ItemById(s.items, id).value;
    WithoutItemDistinct(s.items, id);
    forall c | c in s'.cache
      ensures HasCode(s.dicts, c) && SameItems(s, s', row.dict, ByCode(s.dicts, c))
    {
      assert FreshAt(s, c);
      if ByCode(s.dicts, c) != row.dict {
        WithoutItemKeeps(s.items, id, ByCode(s.dicts, c));
      }
    }
    ItemStep(s, s', row.dict);
  }

  lemma UpdateItemStep(s: State, id: Id, dict: Option<Id>, data: string)
    requires Valid(s) && Fresh(s) && AnswerTo(s, UpdateItem(id, dict, data)) == Done
    requires KeepsLists(s, UpdateItem(id, dict, data))
    ensures Valid(After(s, UpdateItem(id, dict, data))) && Fresh(After(s, UpdateItem(id, dict, data)))
  {
    var s', row := After(s, UpdateItem(id, dict, data)), ItemById(s.items, id).value;
    var row' := Updated(row, dict, data);
    ChangeDistinct(s.items, id, row');
    forall c | c in s'.cache
      ensures HasCode(s.dicts, c) && SameItems(s, s', row.dict, ByCode(s.dicts, c))
    {
      assert FreshAt(s, c);
      if ByCode(s.dicts, c) != row.dict {
        ChangeKeeps(s.items, id, row', ByCode(s.dicts, c));
      }
    }
    ItemStep(s, s', row.dict);
  }

  lemma ChangeDistinct(items: seq<Row>, id: Id, row: Row)
    requires row.id == id && Distinct(items)
    ensures Distinct(Change(items, id, row))
  {
    ChangeAt(items, id, row);
  }

  lemma {:induction false} ChangeAt(items: seq<Row>, id: Id, row: Row)
    ensures |Change(items, id, row)| == |items|
    ensures forall i :: 0 <= i < |items| ==> Change(items, id, row)[i] == if items[i].id == id then row else items[i]
  {
    if items != [] {
      ChangeAt(items[1..], id, row);
    }
  }

  lemma FreshStep(s: State, r: Request)
    requires Valid(s) && Fresh(s) && KeepsLists(s, r)
    ensures Valid(After(s, r)) && Fresh(After(s, r))
  {
    if AnswerTo(s, r) == NotFound {
    } else if AnswerTo(s, r) == Failed {
      if r.CreateItem? && ItemById(s.items, r.row.id).None? {
        CreateItemStep(s, r.row);
      }
    } else {
      match r
      case CreateDict(id, code) => CreateDictStep(s, id, code);
      case UpdateDict(id, code) => UpdateDictStep(s, id, code);
      case DeleteDict(id) => DeleteDictStep(s, id);
      case CreateItem(row) => CreateItemStep(s, row);
      case UpdateItem(id, dict, data) => UpdateItemStep(s, id, dict, data);
      case DeleteItem(id) => DeleteItemStep(s, id);
      case _ =>
    }
  }

  /******* Exactly when a list goes stale *******/

  /** A list taken before a row moved in does not hold it. */
  lemma MovedRowIn(items: seq<Row>, row: Row, dict: Id, data: string)
    requires Distinct(items) && row in items && row.dict != dict
    ensures ItemsOf(Change(items, row.id, Row(row.id, dict, data)), dict) != ItemsOf(items, dict)
  {
    var row' := Row(row.id, dict, data);
    ChangeAt(items, row.id, row');
    var i :| 0 <= i < |items| && items[i] == row;
    assert Change(items, row.id, row')[i] == row';
    assert row' in ItemsOf(Change(items, row.id, row'), dict) && row' !in ItemsOf(items, dict);
  }

  lemma MovedRowMissing(s: State, id: Id, dict: Id, data: string)
    requires Valid(s) && Fresh(s) && AnswerTo(s, UpdateItem(id, Some(dict), data)) == Done
    requires dict in s.dicts && s.dicts[dict] in s.cache && dict != ItemById(s.items, id).value.dict
    ensures UniqueCodes(After(s, UpdateItem(id, Some(dict), data)).dicts)
    ensures !FreshAt(After(s, UpdateItem(id, Some(dict), data)), s.dicts[dict])
  {
    var row, code := ItemById(s.items, id).value, s.dicts[dict];
    assert FreshAt(s, code) && HasCode(s.dicts, code) && ByCode(s.dicts, code) == dict;
    MovedRowIn(s.items, row, dict, data);
    assert s.dicts[row.dict] != code;
    assert After(s, UpdateItem(id, Some(dict), data)).cache == s.cache - {s.dicts[row.dict]};
  }

  /**
    A successful item update leaves every cached list fresh if and only if the item does not move into an
    existing dictionary whose list is cached.
  */
  lemma UpdateFreshExactly(s: State, id: Id, dict: Option<Id>, data: string)
    requires Valid(s) && Fresh(s) && AnswerTo(s, UpdateItem(id, dict, data)) == Done
    ensures Valid(After(s, UpdateItem(id, dict, data)))
    ensures Fresh(After(s, UpdateItem(id, dict, data))) <==> KeepsLists(s, UpdateItem(id, dict, data))
  {
    ValidStep(s, UpdateItem(id, dict, data));
    if KeepsLists(s, UpdateItem(id, dict, data)) {
      UpdateItemStep(s, id, dict, data);
    } else {
      MovedRowMissing(s, id, dict.value, data);
      assert s.dicts[ItemById(s.items, id).value.dict] != s.dicts[dict.value];
    }
  }

  lemma ValidStep(s: State, r: Request)
    requires Valid(s)
    ensures Valid(After(s, r))
  {
    match r
    case CreateDict(id, code) =>
      if AnswerTo(s, r) == Done { UniqueSet(s.dicts, id, code); }
    case UpdateDict(id, code) =>
      if AnswerTo(s, r) == Done { UniqueSet(s.dicts, id, code); }
    case DeleteDict(id) => WithoutDictDistinct(s.items, id);
    case CreateItem(row) =>
      if ItemById(s.items, row.id).None? { DistinctCons(row, s.items); }
    case UpdateItem(id, dict, data) =>
      if AnswerTo(s, r) == Done { ChangeDistinct(s.items, id, Updated(ItemById(s.items, id).value, dict, data)); }
    case DeleteItem(id) => WithoutItemDistinct(s.items, id);
    case _ =>
  }

  /******* Runs *******/

  const EMPTY := State(map[], [], map[])

  ghost function Run(requests: seq<Request>): (s: State)
    ensures Valid(s)
  {
    if requests == [] then EMPTY
    else
      var s := Run(requests[..|requests| - 1]);
      ValidStep(s, requests[|requests| - 1]);
      After(s, requests[|requests| - 1])
  }

  /** In this run no item ever changes its dictionary. */
  ghost predicate ItemsStay(requests: seq<Request>) {
    forall n :: 0 <= n < |requests| ==> KeepsDictionary(Run(requests[..n]), requests[n])
  }

  lemma {:induction false} RunFresh(requests: seq<Request>)
    requires ItemsStay(requests)
    ensures Fresh(Run(requests))
  {
    if requests != [] {
      var init, r := requests[..|requests| - 1], requests[|requests| - 1];
      forall n | 0 <= n < |init| ensures KeepsDictionary(Run(init[..n]), init[n]) {
        assert init[..n] == requests[..n];
      }
      RunFresh(init);
      assert KeepsDictionary(Run(init), r);
      FreshStep(Run(init), r);
    }
  }

  /**
    In every run in which items keep their dictionaries, listing by code gives exactly the rows in the
    database, whatever was cached or evicted, and also after a code was renamed or used again.
  */
  lemma ListingIsExact(requests: seq<Request>, code: Code)
    requires ItemsStay(requests) && code != ""
    ensures var s := Run(requests);
            AnswerTo(s, ListByCode(code)) ==
              if HasCode(s.dicts, code) then Listed(ItemsOf(s.items, ByCode(s.dicts, code))) else NotFound
  {
    RunFresh(requests);
    assert FreshAt(Run(requests), code);
  }

  /** The store as it is updated in place. */
  class Store {
    var dicts: map<Id, Code>
    var items: seq<Row>
    var cache: map<Code, seq<Row>>

    ghost function Now(): State
      reads this
    {
      State(dicts, items, cache)
    }

    constructor ()
      ensures Now() == EMPTY
    {
      dicts, items, cache := map[], [], map[];
    }

    method DropList(dict: Id)
      modifies this`cache
      ensures cache == Drop(old(Now()), dict)
    {
      if dict in dicts {
        cache := cache - {dicts[dict]};
      }
    }

    method CreateDictRow(id: Id, code: Code) returns (a: Answer)
      requires Valid(Now())
      modifies this
      ensures a == AnswerTo(old(Now()), CreateDict(id, code))
      ensures Now() == After(old(Now()), CreateDict(id, code))
    {
      if id in dicts || HasCode(dicts, code) {
        return Failed;
      }
      dicts := dicts[id := code];
      return Done;
    }

    method UpdateDictRow(id: Id, code: Code) returns (a: Answer)
      requires Valid(Now())
      modifies this
      ensures a == AnswerTo(old(Now()), UpdateDict(id, code))
      ensures Now() == After(old(Now()), UpdateDict(id, code))
    {
      if id !in dicts {
        return NotFound;
      }
      var taken := HasCode(dicts, code) && dicts[id] != code;
      if taken {
        return Failed;
      }
      var oldCode := dicts[id];
      dicts := dicts[id := code];
      if oldCode != code {
        cache := cache - {oldCode};
      }
      return Done;
    }

    method DeleteDictRow(id: Id) returns (a: Answer)
      requires Valid(Now())
      modifies this
      ensures a == AnswerTo(old(Now()), DeleteDict(id))
      ensures Now() == After(old(Now()), DeleteDict(id))
    {
      if id !in dicts {
        return NotFound;
      }
      var code := dicts[id];
      dicts, items := dicts - {id}, WithoutDict(items, id);
      cache := cache - {code};
      return Done;
    }

    method CreateItemRow(row: Row) returns (a: Answer)
      requires Valid(Now())
      modifies this
      ensures a == AnswerTo(old(Now()), CreateItem(row))
      ensures Now() == After(old(Now()), CreateItem(row))
    {
      if ItemById(items, row.id).Some? {
        return Failed;
      }
      items := [row] + items;
      if row.dict !in dicts {
        return Failed;
      }
      DropList(row.dict);
      return Done;
    }

    /** Only the list of the dictionary that the item was in before is dropped. */
    method UpdateItemRow(id: Id, dict: Option<Id>, data: string) returns (a: Answer)
      requires Valid(Now())
      modifies this
      ensures a == AnswerTo(old(Now()), UpdateItem(id, dict, data))
      ensures Now() == After(old(Now()), UpdateItem(id, dict, data))
    {
      var row := ItemById(items, id);
      if row.None? {
        return NotFound;
      }
      if row.value.dict !in dicts {
        return Failed;
      }
      items := Change(items, id, Updated(row.value, dict, data));
      DropList(row.value.dict);
      return Done;
    }

    method DeleteItemRow(id: Id) returns (a: Answer)
      requires Valid(Now())
      modifies this
      ensures a == AnswerTo(old(Now()), DeleteItem(id))
      ensures Now() == After(old(Now()), DeleteItem(id))
    {
      var row := ItemById(items, id);
      if row.None? {
        return NotFound;
      }
      if row.value.dict !in dicts {
        return Failed;
      }
      items := WithoutItem(items, id);
      DropList(row.value.dict);
      return Done;
    }

    method ListItems(code: Code) returns (a: Answer)
      requires Valid(Now())
      modifies this
      ensures a == AnswerTo(old(Now()), ListByCode(code))
      ensures Now() == After(old(Now()), ListByCode(code))
    {
      if code == "" {
        return NotFound;
      }
      if code in cache {
        assert cache[code := cache[code]] == cache;
        return Listed(cache[code]);
      }
      if !HasCode(dicts, code) {
        return NotFound;
      }
      var rows := ItemsOf(items, ByCode(dicts, code));
      cache := cache[code := rows];
      return Listed(rows);
    }
  }
}
