// The database behind every repository (internal/db: GORM or MongoDB adapters), reduced to
// the contract the repositories rely on: rows with a unique primary key, kept in insertion order.
module Store {
  import opened Wrappers

  datatype Row<T> = Row(key: string, value: T)

  /** What a failed database call reports. */
  datatype StoreError = ErrNotFound | ErrDuplicateKey | ErrUnavailable

  /**
   * Failures injected into one repository call: the i-th database call and the i-th cache
   * call made by that repository method (counted from 0, in program order) fail iff listed.
   */
  datatype Faults = Faults(store: set<nat>, cache: set<nat>)
  {
    predicate StoreOk(i: nat) { i !in store }
    predicate CacheOk(i: nat) { i !in cache }
  }

  const NoFaults: Faults := Faults({}, {})

  /** The primary key is unique. */
  ghost predicate UniqueKeys<T>(rows: seq<Row<T>>)
  {
    forall i, j :: 0 <= i < j < |rows| ==> rows[i].key != rows[j].key
  }

  /** The value stored under `key`, if any (the first such row). */
  function Lookup<T>(rows: seq<Row<T>>, key: string): Option<T>
  {
    if |rows| == 0 then None
    else if rows[0].key == key then Some(rows[0].value)
    else Lookup(rows[1..], key)
  }

  /** The first stored value satisfying `p` (a lookup by a secondary field). */
  function Find<T>(rows: seq<Row<T>>, p: T -> bool): (r: Option<T>)
    ensures r.Some? ==> p(r.value) && exists i :: 0 <= i < |rows| && rows[i].value == r.value
    ensures r.Some? ==> exists i :: 0 <= i < |rows| && rows[i].value == r.value && forall j :: 0 <= j < i ==> !p(rows[j].value)
    ensures r.None? <==> forall i :: 0 <= i < |rows| ==> !p(rows[i].value)
  {
    if |rows| == 0 then None
    else if p(rows[0].value) then Some(rows[0].value)
    else
      var rest := Find(rows[1..], p);
      assert rest.Some? ==> exists i :: 1 <= i < |rows| && rows[i].value == rest.value && forall j :: 0 <= j < i ==> !p(rows[j].value) by {
        if rest.Some? {
          var i :| 0 <= i < |rows[1..]| && rows[1..][i].value == rest.value && forall j :: 0 <= j < i ==> !p(rows[1..][j].value);
          assert rows[i + 1].value == rest.value;
          forall j | 0 <= j < i + 1 ensures !p(rows[j].value) {
            if j > 0 { assert rows[j] == rows[1..][j - 1]; }
          }
        }
      }
      rest
  }

  /** All stored values, in store order. */
  function Values<T>(rows: seq<Row<T>>): (vs: seq<T>)
    ensures |vs| == |rows|
    ensures forall i :: 0 <= i < |rows| ==> vs[i] == rows[i].value
  {
    if |rows| == 0 then [] else [rows[0].value] + Values(rows[1..])
  }

  function Replace<T>(rows: seq<Row<T>>, key: string, v: T): seq<Row<T>>
  {
    if |rows| == 0 then []
    else [if rows[0].key == key then Row(key, v) else rows[0]] + Replace(rows[1..], key, v)
  }

  function Remove<T>(rows: seq<Row<T>>, key: string): seq<Row<T>>
  {
    if |rows| == 0 then []
    else if rows[0].key == key then Remove(rows[1..], key)
    else [rows[0]] + Remove(rows[1..], key)
  }

  // ---- the database calls ----

  /** Insert; rejected when the key exists. */
  function Create<T>(rows: seq<Row<T>>, key: string, v: T, ok: bool): Result<seq<Row<T>>, StoreError>
  {
    if !ok then Failure(ErrUnavailable)
    else if Lookup(rows, key).Some? then Failure(ErrDuplicateKey)
    else Success(rows + [Row(key, v)])
  }

  /** Update by primary key; no affected row is ErrNotFound. */
  function Update<T>(rows: seq<Row<T>>, key: string, v: T, ok: bool): Result<seq<Row<T>>, StoreError>
  {
    if !ok then Failure(ErrUnavailable)
    else if Lookup(rows, key).None? then Failure(ErrNotFound)
    else Success(Replace(rows, key, v))
  }

  /** Delete by primary key; deleting an absent key is no error. */
  function Delete<T>(rows: seq<Row<T>>, key: string, ok: bool): Result<seq<Row<T>>, StoreError>
  {
    if !ok then Failure(ErrUnavailable) else Success(Remove(rows, key))
  }

  function GetByID<T>(rows: seq<Row<T>>, key: string, ok: bool): Result<T, StoreError>
  {
    if !ok then Failure(ErrUnavailable)
    else match Lookup(rows, key)
      case Some(v) => Success(v)
      case None => Failure(ErrNotFound)
  }

  function GetByField<T>(rows: seq<Row<T>>, p: T -> bool, ok: bool): Result<T, StoreError>
  {
    if !ok then Failure(ErrUnavailable)
    else match Find(rows, p)
      case Some(v) => Success(v)
      case None => Failure(ErrNotFound)
  }

  function GetAll<T>(rows: seq<Row<T>>, ok: bool): Result<seq<T>, StoreError>
  {
    if !ok then Failure(ErrUnavailable) else Success(Values(rows))
  }

  // ---- what the calls guarantee ----

  /** With unique keys, every stored row is what a lookup of its key finds. */
  lemma {:induction false} LookupFindsRow<T>(rows: seq<Row<T>>, i: nat)
    requires UniqueKeys(rows) && i < |rows|
    ensures Lookup(rows, rows[i].key) == Some(rows[i].value)
  {
    if i > 0 {
      assert rows[1..][i - 1] == rows[i];
      LookupFindsRow(rows[1..], i - 1);
    }
  }

  /** A lookup finds something exactly when some row has the key. */
  lemma {:induction false} LookupSomeIffKeyPresent<T>(rows: seq<Row<T>>, key: string)
    ensures Lookup(rows, key).Some? <==> exists i :: 0 <= i < |rows| && rows[i].key == key
  {
    if |rows| > 0 {
      LookupSomeIffKeyPresent(rows[1..], key);
      if rows[0].key != key && Lookup(rows, key).Some? {
        var j :| 0 <= j < |rows[1..]| && rows[1..][j].key == key;
        assert rows[j + 1].key == key;
      }
      if exists i :: 0 <= i < |rows| && rows[i].key == key {
        var i :| 0 <= i < |rows| && rows[i].key == key;
        if i > 0 { assert rows[1..][i - 1].key == key; }
      }
    }
  }

  /** A successful Create adds exactly the new row and keeps keys unique. */
  lemma {:induction false} CreateAddsRow<T>(rows: seq<Row<T>>, key: string, v: T, k: string)
    requires UniqueKeys(rows) && Create(rows, key, v, true).Success?
    ensures UniqueKeys(Create(rows, key, v, true).value)
    ensures Lookup(Create(rows, key, v, true).value, k) == if k == key then Some(v) else Lookup(rows, k)
  {
    var rows' := rows + [Row(key, v)];
    LookupSomeIffKeyPresent(rows, key);
    LookupAppend(rows, Row(key, v), k);
  }

  lemma {:induction false} LookupAppend<T>(rows: seq<Row<T>>, r: Row<T>, k: string)
    ensures Lookup(rows + [r], k) == if Lookup(rows, k).Some? then Lookup(rows, k) else if r.key == k then Some(r.value) else None
  {
    if |rows| > 0 {
      assert (rows + [r])[1..] == rows[1..] + [r];
      LookupAppend(rows[1..], r, k);
    }
  }

  /** Replace rewrites the value under `key` and no other. */
  lemma {:induction false} LookupReplace<T>(rows: seq<Row<T>>, key: string, v: T, k: string)
    ensures Lookup(Replace(rows, key, v), k) == if k == key && Lookup(rows, k).Some? then Some(v) else Lookup(rows, k)
    ensures |Replace(rows, key, v)| == |rows|
    ensures forall i :: 0 <= i < |rows| ==>
      Replace(rows, key, v)[i] == if rows[i].key == key then Row(key, v) else rows[i]
  {
    if |rows| > 0 {
      LookupReplace(rows[1..], key, v, k);
    }
  }

  /** Remove deletes `key` and leaves every other key as it was. */
  lemma {:induction false} LookupRemove<T>(rows: seq<Row<T>>, key: string, k: string)
    ensures Lookup(Remove(rows, key), k) == if k == key then None else Lookup(rows, k)
  {
    if |rows| > 0 {
      LookupRemove(rows[1..], key, k);
    }
  }

  lemma {:induction false} RemoveKeepsUnique<T>(rows: seq<Row<T>>, key: string)
    requires UniqueKeys(rows)
    ensures UniqueKeys(Remove(rows, key))
    ensures forall i :: 0 <= i < |Remove(rows, key)| ==> exists j :: 0 <= j < |rows| && Remove(rows, key)[i] == rows[j]
  {
    if |rows| > 0 {
      RemoveKeepsUnique(rows[1..], key);
      var tail := Remove(rows[1..], key);
      forall i | 0 <= i < |tail| ensures tail[i].key != rows[0].key {
        var j :| 0 <= j < |rows[1..]| && tail[i] == rows[1..][j];
        assert tail[i] == rows[j + 1];
      }
      forall i | 0 <= i < |tail| ensures exists j :: 0 <= j < |rows| && tail[i] == rows[j] {
        var j :| 0 <= j < |rows[1..]| && tail[i] == rows[1..][j];
        assert tail[i] == rows[j + 1];
      }
    }
  }

  /** Whatever a lookup finds is a stored row. */
  lemma {:induction false} LookupIsStored<T>(rows: seq<Row<T>>, key: string)
    ensures Lookup(rows, key).Some? ==> exists i :: 0 <= i < |rows| && rows[i] == Row(key, Lookup(rows, key).value)
  {
    if |rows| > 0 && rows[0].key != key && Lookup(rows, key).Some? {
      LookupIsStored(rows[1..], key);
      var i :| 0 <= i < |rows[1..]| && rows[1..][i] == Row(key, Lookup(rows, key).value);
      assert rows[i + 1] == rows[1..][i];
    }
  }

  /** Removing a stored key shortens the table. */
  lemma {:induction false} RemoveShrinks<T>(rows: seq<Row<T>>, key: string)
    ensures |Remove(rows, key)| <= |rows|
    ensures Lookup(rows, key).Some? ==> |Remove(rows, key)| < |rows|
  {
    if |rows| > 0 {
      RemoveShrinks(rows[1..], key);
    }
  }

  lemma ReplaceKeepsUnique<T>(rows: seq<Row<T>>, key: string, v: T)
    requires UniqueKeys(rows)
    ensures UniqueKeys(Replace(rows, key, v))
  {
    LookupReplace(rows, key, v, key);
  }
}
