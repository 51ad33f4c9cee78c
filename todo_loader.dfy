/** The one-to-many batch function `todoByUserIDLoader`: given the user ids
    of one batch, answer each id with the todos that user owns. */
module TodoLoader {
  import opened Entities
  import opened Batch

  /** Reference definition: the todos of `todos` owned by `u`, in row order. */
  function TodosOf(todos: seq<Todo>, u: int32): (r: seq<Todo>)
    ensures forall t :: t in r <==> t in todos && t.userId == u
    ensures (forall j :: 0 <= j < |todos| ==> todos[j].userId != u) ==> r == []
    ensures |r| <= |todos|
    decreases |todos|
  {
    if |todos| == 0 then []
    else
      var t := todos[|todos| - 1];
      TodosOf(todos[..|todos| - 1], u) + (if t.userId == u then [t] else [])
  }

  /** Each todo of `u` appears in `TodosOf(todos, u)` exactly as often as in
      `todos`, and no other todo appears at all. */
  lemma {:induction false} TodosOfCount(todos: seq<Todo>, u: int32, t: Todo)
    ensures multiset(TodosOf(todos, u))[t] == if t.userId == u then multiset(todos)[t] else 0
    decreases |todos|
  {
    if |todos| > 0 {
      var init, last := todos[..|todos| - 1], todos[|todos| - 1];
      TodosOfCount(init, u, t);
      assert todos == init + [last];
    }
  }

  /** `todoMap[u]` in Go: a missing key reads as the nil (empty) slice. */
  function Lookup(m: map<int32, seq<Todo>>, u: int32): seq<Todo> {
    if u in m then m[u] else []
  }

  /** The map that the grouping loop builds: each todo, in row order, is
      appended to the group of its own `userId`. */
  function GroupTodos(todos: seq<Todo>): (m: map<int32, seq<Todo>>)
    ensures forall u :: u in m ==> m[u] != []
    decreases |todos|
  {
    if |todos| == 0 then map[]
    else
      var m := GroupTodos(todos[..|todos| - 1]);
      var t := todos[|todos| - 1];
      m[t.userId := Lookup(m, t.userId) + [t]]
  }

  /** Every group holds exactly the todos of its user, in row order. */
  lemma {:induction false} GroupTodosLookup(todos: seq<Todo>, u: int32)
    ensures Lookup(GroupTodos(todos), u) == TodosOf(todos, u)
    decreases |todos|
  {
    if |todos| > 0 {
      GroupTodosLookup(todos[..|todos| - 1], u);
    }
  }

  /** All the todos filed in the groups of `m`, counted with multiplicity. */
  ghost function Flatten(m: map<int32, seq<Todo>>): multiset<Todo>
    decreases |m|
  {
    if |m| == 0 then multiset{}
    else
      var u :| u in m;
      multiset(m[u]) + Flatten(m - {u})
  }

  /** Flatten does not depend on which key it takes first. */
  lemma {:induction false} FlattenRemove(m: map<int32, seq<Todo>>, u: int32)
    requires u in m
    ensures Flatten(m) == multiset(m[u]) + Flatten(m - {u})
    decreases |m|
  {
    var v :| v in m && Flatten(m) == multiset(m[v]) + Flatten(m - {v});
    if v != u {
      FlattenRemove(m - {v}, u);
      FlattenRemove(m - {u}, v);
      assert m - {v} - {u} == m - {u} - {v};
    }
  }

  /** Appending one todo to a group adds exactly that todo to the groups. */
  lemma FlattenAppend(m: map<int32, seq<Todo>>, t: Todo)
    ensures Flatten(m[t.userId := Lookup(m, t.userId) + [t]]) == Flatten(m) + multiset{t}
  {
    var u := t.userId;
    var m' := m[u := Lookup(m, u) + [t]];
    FlattenRemove(m', u);
    assert m' - {u} == m - {u};
    FlattenLookup(m, u);
    assert multiset(Lookup(m, u) + [t]) == multiset(Lookup(m, u)) + multiset{t};
  }

  /** Taking out the group of `u`, present or not, splits Flatten in two. */
  lemma FlattenLookup(m: map<int32, seq<Todo>>, u: int32)
    ensures Flatten(m) == multiset(Lookup(m, u)) + Flatten(m - {u})
  {
    if u in m {
      FlattenRemove(m, u);
    } else {
      assert m - {u} == m;
    }
  }

  /** Grouping loses no todo and invents none: the groups together hold
      exactly the scanned todos, so their sizes add up to the row count. */
  lemma {:induction false} GroupTodosFlatten(todos: seq<Todo>)
    ensures Flatten(GroupTodos(todos)) == multiset(todos)
    ensures |Flatten(GroupTodos(todos))| == |todos|
    decreases |todos|
  {
    if |todos| > 0 {
      var init, t := todos[..|todos| - 1], todos[|todos| - 1];
      GroupTodosFlatten(init);
      FlattenAppend(GroupTodos(init), t);
      assert todos == init + [t];
    }
  }

  /** What the batch function returns: one result per key, in key order. On
      success slot i holds the todos owned by keys[i]; on failure every slot
      holds the same error. */
  function TodosBatch(keys: seq<int32>, outcome: Outcome<Todo>): (r: seq<Result<seq<Todo>>>)
    ensures |r| == |keys|
  {
    match Fetch(outcome)
    case Err(e) => seq(|keys|, _ => Err(e))
    case Ok(todos) => seq(|keys|, i requires 0 <= i < |keys| => Ok(TodosOf(todos, keys[i])))
  }

  /** A failed query or row scan puts that same error in every slot, so no
      slot keeps the todos scanned before the failure. */
  lemma TodosBatchFailure(keys: seq<int32>, outcome: Outcome<Todo>, e: Error)
    requires FailsWith(outcome, e)
    ensures forall i :: 0 <= i < |keys| ==> TodosBatch(keys, outcome)[i] == Err(e)
  {
    FetchFails(outcome, e);
  }

  /** When every row scans, every slot succeeds, and slot i holds exactly the
      scanned todos owned by keys[i], each as often as it was scanned (and in
      row order, by `TodosOf`). */
  lemma TodosBatchSuccess(keys: seq<int32>, rows: seq<RowScan<Todo>>, i: int)
    requires AllScanned(rows) && 0 <= i < |keys|
    ensures TodosBatch(keys, Rows(rows))[i].Ok?
    ensures forall t :: t in TodosBatch(keys, Rows(rows))[i].data <==>
      (exists j :: 0 <= j < |rows| && rows[j] == Scanned(t)) && t.userId == keys[i]
    ensures forall t ::
      multiset(TodosBatch(keys, Rows(rows))[i].data)[t]
      == (if t.userId == keys[i] then multiset(ScanRows(rows).data)[t] else 0)
  {
    forall t ensures multiset(TodosBatch(keys, Rows(rows))[i].data)[t] ==
      if t.userId == keys[i] then multiset(ScanRows(rows).data)[t] else 0
    {
      TodosOfCount(ScanRows(rows).data, keys[i], t);
    }
  }

  /** A key that owns no scanned todo gets an empty success, never an error. */
  lemma TodosBatchMissingKey(keys: seq<int32>, rows: seq<RowScan<Todo>>, i: int)
    requires AllScanned(rows) && 0 <= i < |keys|
    requires forall j :: 0 <= j < |rows| ==> rows[j].record.userId != keys[i]
    ensures TodosBatch(keys, Rows(rows))[i] == Ok([])
  {
  }

  /** Slots follow key positions: slot i is what a batch of keys[i] alone
      would get, so a key repeated in the batch gets identical results. */
  lemma TodosBatchPerKey(keys: seq<int32>, outcome: Outcome<Todo>, i: int, k: int)
    requires 0 <= i < |keys| && 0 <= k < |keys| && keys[i] == keys[k]
    ensures TodosBatch(keys, outcome)[i] == TodosBatch([keys[i]], outcome)[0]
    ensures TodosBatch(keys, outcome)[i] == TodosBatch(keys, outcome)[k]
  {
  }

  /** `todoByUserIDLoader`: scan the rows into `todos`, group them by owner
      into `todoMap`, then fill one slot per key; on a query or scan error,
      fill every slot with that error instead. Slots start out nil. */
  method TodosByUserIdLoader(userIds: seq<int32>, outcome: Outcome<Todo>)
    returns (res: array<Option<Result<seq<Todo>>>>)
    ensures fresh(res) && res.Length == |userIds|
    ensures forall i :: 0 <= i < |userIds| ==> res[i] == Some(TodosBatch(userIds, outcome)[i])
  {
    res := new Option<Result<seq<Todo>>>[|userIds|](_ => None);
    var todos: seq<Todo> := [];
    var failure: Option<Error> := None;

    match outcome {
      case QueryFailed(e) =>
        failure := Some(e);
      case Rows(rows) =>
        var j := 0;
        while j < |rows|
          invariant 0 <= j <= |rows|
          invariant failure == None
          invariant |todos| == j
          invariant forall k :: 0 <= k < j ==> rows[k].Scanned? && todos[k] == rows[k].record
        {
          if rows[j].ScanFailed? {
            failure := Some(rows[j].err);
            assert FirstFailureAt(rows, j);
            break;
          }
          todos := todos + [rows[j].record];
          j := j + 1;
        }
        if failure.None? {
          assert ScanRows(rows).data == todos;
        }
    }

    if failure.Some? {
      // The shared error label: every slot gets the same error.
      var e := failure.value;
      assert FailsWith(outcome, e);
      TodosBatchFailure(userIds, outcome, e);
      for idx := 0 to |userIds|
        invariant forall i :: 0 <= i < idx ==> res[i] == Some(Err(e))
      {
        res[idx] := Some(Err(e));
      }
      return;
    }
    assert Fetch(outcome) == Ok(todos);

    var todoMap: map<int32, seq<Todo>> := map[];
    for k := 0 to |todos|
      invariant todoMap == GroupTodos(todos[..k])
    {
      var td := todos[k];
      assert todos[..k + 1][..k] == todos[..k];
      todoMap := todoMap[td.userId := Lookup(todoMap, td.userId) + [td]];
    }
    assert todos[..|todos|] == todos;

    for idx := 0 to |userIds|
      invariant forall i :: 0 <= i < idx ==> res[i] == Some(Ok(Lookup(todoMap, userIds[i])))
    {
      res[idx] := Some(Ok(Lookup(todoMap, userIds[idx])));
    }
    forall i | 0 <= i < |userIds|
      ensures res[i] == Some(TodosBatch(userIds, outcome)[i])
    {
      GroupTodosLookup(todos, userIds[i]);
    }
  }
}
