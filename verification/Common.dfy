/** Shared value types and the append-only table vocabulary used by every component. */
module Common {

  datatype Option<+T> = None | Some(value: T)

  datatype Result<+T, +E> = Ok(value: T) | Err(error: E)

  /** The row a primary-key lookup returns. */
  function Find<T, K(==)>(rows: seq<T>, key: T -> K, id: K): (r: Option<T>)
    ensures r.Some? ==> r.value in rows && key(r.value) == id
    ensures r.None? ==> forall x :: x in rows ==> key(x) != id
  {
    if rows == [] then None
    else if key(rows[0]) == id then Some(rows[0])
    else Find(rows[1..], key, id)
  }

  /** A primary-key lookup that succeeds keeps its answer after any later append. */
  lemma {:induction false} FindStable<T, K>(rows: seq<T>, more: seq<T>, key: T -> K, id: K)
    requires rows <= more
    requires Find(rows, key, id).Some?
    ensures Find(more, key, id) == Find(rows, key, id)
  {
    assert rows[0] == more[0];
    if key(rows[0]) != id {
      FindStable(rows[1..], more[1..], key, id);
    }
  }

  /** A key that is absent from the table finds exactly the row appended under it. */
  lemma {:induction false} FindAppended<T, K>(rows: seq<T>, row: T, key: T -> K, id: K)
    ensures Find(rows, key, id).None? ==>
              Find(rows + [row], key, id) == if key(row) == id then Some(row) else None
  {
    if rows == [] {
      assert (rows + [row])[1..] == [];
    } else {
      assert (rows + [row])[1..] == rows[1..] + [row];
      FindAppended(rows[1..], row, key, id);
    }
  }

  /** With unique keys, looking up a retained row's own key returns that row. */
  lemma {:induction false} FindUnique<T, K>(rows: seq<T>, key: T -> K, row: T)
    requires row in rows
    requires forall i, j :: 0 <= i < j < |rows| ==> key(rows[i]) != key(rows[j])
    ensures Find(rows, key, key(row)) == Some(row)
  {
    if rows[0] != row {
      assert row in rows[1..];
      var k :| 0 <= k < |rows[1..]| && rows[1..][k] == row;
      assert rows[k + 1] == row;
      FindUnique(rows[1..], key, row);
    }
  }
}
