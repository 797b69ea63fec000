// Two facts about a table keyed by id that the profile and user handlers rely
// on: a string column under a unique index, and the rows whose reference
// column points at a given id (the in-use count of a profile).
module Keyed {
  import opened Api

  /** A row other than `except` carries `k` in the column `key`. */
  predicate Taken<T>(rows: map<int, T>, key: T -> string, k: string, except: Option<int>) {
    exists id :: id in rows && key(rows[id]) == k && Some(id) != except
  }

  /** The unique index on the column `key`. */
  ghost predicate Unique<T>(rows: map<int, T>, key: T -> string) {
    forall i, j :: i in rows && j in rows && key(rows[i]) == key(rows[j]) ==> i == j
  }

  /** Writing `row` under `id` keeps the index unique when the row keeps the
      value the old row under `id` had, or carries one no other row carries. */
  lemma {:induction false} UniqueAfterWrite<T>(rows: map<int, T>, key: T -> string, id: int, row: T)
    requires Unique(rows, key)
    requires (id in rows && key(row) == key(rows[id])) || !Taken(rows, key, key(row), Some(id))
    ensures Unique(rows[id := row], key)
  {
    var after := rows[id := row];
    forall i, j | i in after && j in after && i != j
      ensures key(after[i]) != key(after[j])
    {
      if i != id && j != id {
        assert after[i] == rows[i] && after[j] == rows[j];
      } else if i == id {
        assert after[j] == rows[j];
      } else {
        assert after[i] == rows[i];
      }
    }
  }

  /** Removing a row keeps the index unique. */
  lemma {:induction false} UniqueAfterRemove<T>(rows: map<int, T>, key: T -> string, id: int)
    requires Unique(rows, key)
    ensures Unique(rows - {id}, key)
  {
    var after := rows - {id};
    forall i, j | i in after && j in after && i != j
      ensures key(after[i]) != key(after[j])
    {
      assert after[i] == rows[i] && after[j] == rows[j];
    }
  }

  /** On a unique column, a value is taken by some row other than `id`
      exactly when it is taken and not by `id` itself. */
  lemma {:induction false} TakenByOther<T>(rows: map<int, T>, key: T -> string, k: string, id: int)
    requires Unique(rows, key)
    ensures Taken(rows, key, k, Some(id)) <==> Taken(rows, key, k, None) && !(id in rows && key(rows[id]) == k)
  {
    if Taken(rows, key, k, Some(id)) {
      var other :| other in rows && key(rows[other]) == k && Some(other) != Some(id);
      assert Some(other) != None;
    }
    if Taken(rows, key, k, None) && !(id in rows && key(rows[id]) == k) {
      var other :| other in rows && key(rows[other]) == k && Some(other) != None;
      assert Some(other) != Some(id);
    }
  }

  /** The rows whose column `ref` holds `target`. */
  function Referencing<T>(rows: map<int, T>, ref: T -> int, target: int): (r: set<int>)
    ensures forall id :: id in r <==> id in rows && ref(rows[id]) == target
  {
    set id | id in rows && ref(rows[id]) == target
  }
}
