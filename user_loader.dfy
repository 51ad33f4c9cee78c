/** The one-to-one batch function `usersByIdLoader`: given the user ids of
    one batch, answer each id with that user, or nil when no row has it. */
module UserLoader {
  import opened Entities
  import opened Batch

  /** Reference definition: the last user in row order whose id is `id`. */
  function LastUserWithId(users: seq<User>, id: int32): (r: Option<User>)
    ensures r.None? <==> forall j :: 0 <= j < |users| ==> users[j].id != id
    ensures r.Some? ==> r.value.id == id && exists j ::
      && 0 <= j < |users| && users[j] == r.value
      && forall k :: j < k < |users| ==> users[k].id != id
    decreases |users|
  {
    if |users| == 0 then None
    else if users[|users| - 1].id == id then Some(users[|users| - 1])
    else LastUserWithId(users[..|users| - 1], id)
  }

  /** `userMap[id]` in Go: a missing key reads as the nil pointer. */
  function Get(m: map<int32, User>, id: int32): Option<User> {
    if id in m then Some(m[id]) else None
  }

  /** The map that the scan loop builds: `userMap[u.Id] = &u` for each
      scanned user in row order, so a later row overwrites an earlier one. */
  function IndexUsers(users: seq<User>): (m: map<int32, User>)
    ensures forall id :: id in m ==> m[id] in users && m[id].id == id
    decreases |users|
  {
    if |users| == 0 then map[]
    else
      var u := users[|users| - 1];
      IndexUsers(users[..|users| - 1])[u.id := u]
  }

  /** The map holds, for every id, the last user scanned with that id. */
  lemma {:induction false} IndexUsersLookup(users: seq<User>, id: int32)
    ensures Get(IndexUsers(users), id) == LastUserWithId(users, id)
    decreases |users|
  {
    if |users| > 0 {
      IndexUsersLookup(users[..|users| - 1], id);
    }
  }

  /** Every entry of the map is filed under its own id, and only ids of
      scanned users appear. */
  lemma {:induction false} IndexUsersKeys(users: seq<User>)
    ensures forall id :: id in IndexUsers(users) ==> IndexUsers(users)[id].id == id
    ensures IndexUsers(users).Keys == set j | 0 <= j < |users| :: users[j].id
    decreases |users|
  {
    if |users| > 0 {
      var init := users[..|users| - 1];
      IndexUsersKeys(init);
      assert (set j | 0 <= j < |users| :: users[j].id)
        == (set j | 0 <= j < |init| :: init[j].id) + {users[|users| - 1].id};
    }
  }

  /** What the batch function returns: one result per key, in key order. On
      success slot i holds the last scanned user with id keys[i], or nil; on
      failure every slot holds the same error. */
  function UsersBatch(keys: seq<int32>, outcome: Outcome<User>): (r: seq<Result<Option<User>>>)
    ensures |r| == |keys|
  {
    match Fetch(outcome)
    case Err(e) => seq(|keys|, _ => Err(e))
    case Ok(users) => seq(|keys|, i requires 0 <= i < |keys| => Ok(LastUserWithId(users, keys[i])))
  }

  /** A failed query or row scan puts that same error in every slot, so no
      slot keeps a user scanned before the failure. */
  lemma UsersBatchFailure(keys: seq<int32>, outcome: Outcome<User>, e: Error)
    requires FailsWith(outcome, e)
    ensures forall i :: 0 <= i < |keys| ==> UsersBatch(keys, outcome)[i] == Err(e)
  {
    FetchFails(outcome, e);
  }

  /** When every row scans, slot i succeeds with the user of the last row
      whose id is keys[i]; a key no row has gets nil, not an error. */
  lemma UsersBatchSuccess(keys: seq<int32>, rows: seq<RowScan<User>>, i: int)
    requires AllScanned(rows) && 0 <= i < |keys|
    ensures UsersBatch(keys, Rows(rows))[i].Ok?
    ensures UsersBatch(keys, Rows(rows))[i].data.None? <==>
      forall j :: 0 <= j < |rows| ==> rows[j].record.id != keys[i]
    ensures UsersBatch(keys, Rows(rows))[i].data.Some? ==> exists j ::
      && 0 <= j < |rows|
      && rows[j] == Scanned(UsersBatch(keys, Rows(rows))[i].data.value)
      && rows[j].record.id == keys[i]
      && forall k :: j < k < |rows| ==> rows[k].record.id != keys[i]
  {
  }

  /** Slots follow key positions: slot i is what a batch of keys[i] alone
      would get, so a key repeated in the batch gets identical results. */
  lemma UsersBatchPerKey(keys: seq<int32>, outcome: Outcome<User>, i: int, k: int)
    requires 0 <= i < |keys| && 0 <= k < |keys| && keys[i] == keys[k]
    ensures UsersBatch(keys, outcome)[i] == UsersBatch([keys[i]], outcome)[0]
    ensures UsersBatch(keys, outcome)[i] == UsersBatch(keys, outcome)[k]
  {
  }

  /** `usersByIdLoader`: scan each row and store it in `userMap` under its
      id, then fill one slot per key; on a query or scan error, fill every
      slot with that error instead. Slots start out nil. */
  method UsersByIdLoader(keys: seq<int32>, outcome: Outcome<User>)
    returns (res: array<Option<Result<Option<User>>>>)
    ensures fresh(res) && res.Length == |keys|
    ensures forall i :: 0 <= i < |keys| ==> res[i] == Some(UsersBatch(keys, outcome)[i])
  {
    res := new Option<Result<Option<User>>>[|keys|](_ => None);
    var userMap: map<int32, User> := map[];
    ghost var users: seq<User> := [];
    var failure: Option<Error> := None;

    match outcome {
      case QueryFailed(e) =>
        failure := Some(e);
      case Rows(rows) =>
        var j := 0;
        while j < |rows|
          invariant 0 <= j <= |rows|
          invariant failure == None
          invariant |users| == j
          invariant forall k :: 0 <= k < j ==> rows[k].Scanned? && users[k] == rows[k].record
          invariant userMap == IndexUsers(users)
        {
          if rows[j].ScanFailed? {
            failure := Some(rows[j].err);
            assert FirstFailureAt(rows, j);
            break;
          }
          var u := rows[j].record;
          assert (users + [u])[..j] == users;
          users := users + [u];
          userMap := userMap[u.id := u];
          j := j + 1;
        }
        if failure.None? {
          assert ScanRows(rows).data == users;
        }
    }

    if failure.Some? {
      // The shared error label: every slot gets the same error.
      var e := failure.value;
      assert FailsWith(outcome, e);
      UsersBatchFailure(keys, outcome, e);
      for idx := 0 to |keys|
        invariant forall i :: 0 <= i < idx ==> res[i] == Some(Err(e))
      {
        res[idx] := Some(Err(e));
      }
      return;
    }
    assert Fetch(outcome) == Ok(users);

    for idx := 0 to |keys|
      invariant forall i :: 0 <= i < idx ==> res[i] == Some(Ok(Get(userMap, keys[i])))
    {
      res[idx] := Some(Ok(Get(userMap, keys[idx])));
    }
    forall i | 0 <= i < |keys|
      ensures res[i] == Some(UsersBatch(keys, outcome)[i])
    {
      IndexUsersLookup(users, keys[i]);
    }
  }
}
