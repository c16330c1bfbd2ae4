/** Persistence tables as values: rows keyed by an auto-incremented integer id,
    with the lookups the routes perform (`findUnique` by id, `findFirst` by a
    condition, `findMany`) and the writes (`create`, `update`, `delete`). */
module Tables {
  import opened Wrappers

  /** A table whose next insert receives id `next`. */
  datatype Table<R> = Table(rows: map<int, R>, next: int) {

    /** Every id is positive and below `next`. */
    ghost predicate Valid() {
      next >= 1 && forall k :: k in rows ==> 1 <= k < next
    }

    /** `findUnique({ where: { id: k } })`. */
    function Get(k: int): (r: Option<R>)
      ensures r.Some? <==> k in rows
      ensures r.Some? ==> r.value == rows[k]
    {
      if k in rows then Some(rows[k]) else None
    }

    /** `create`: the new row receives id `next`, which no row has yet. */
    function Insert(row: R): (t: Table<R>)
      ensures t.rows == rows[next := row] && t.next == next + 1
      ensures Valid() ==> t.Valid() && next !in rows
    {
      Table(rows[next := row], next + 1)
    }

    /** `update({ where: { id: k } })` on an existing row. */
    function Update(k: int, row: R): (t: Table<R>)
      requires k in rows
      ensures t.rows == rows[k := row] && t.next == next
      ensures t.rows.Keys == rows.Keys
      ensures Valid() ==> t.Valid()
    {
      Table(rows[k := row], next)
    }

    /** `delete({ where: { id: k } })`. */
    function Delete(k: int): (t: Table<R>)
      ensures t.rows == rows - {k} && t.next == next
      ensures Valid() ==> t.Valid()
    {
      Table(rows - {k}, next)
    }

    /** The lowest id at or above `from` whose row satisfies `p`. */
    function FindFrom(p: R -> bool, from: int): (o: Option<int>)
      requires from >= 1
      ensures o.Some? ==> from <= o.value && o.value in rows && p(rows[o.value])
      ensures o.Some? ==> forall j :: j in rows && from <= j < o.value ==> !p(rows[j])
      ensures o.None? ==> forall j :: j in rows && from <= j < next ==> !p(rows[j])
      decreases next - from
    {
      if from >= next then None
      else if from in rows && p(rows[from]) then Some(from)
      else FindFrom(p, from + 1)
    }

    /** `findFirst({ where: p })` with no `orderBy`, read as the lowest id. */
    function FindFirst(p: R -> bool): (o: Option<int>)
      requires Valid()
      ensures o.Some? ==> o.value in rows && p(rows[o.value])
      ensures o.Some? ==> forall j :: j in rows && j < o.value ==> !p(rows[j])
      ensures o.None? <==> forall j :: j in rows ==> !p(rows[j])
    {
      FindFrom(p, 1)
    }

    /** The rows with ids in `from..next`, in id order. */
    function RowsFrom(from: int): (s: seq<R>)
      decreases next - from
    {
      if from >= next then []
      else (if from in rows then [rows[from]] else []) + RowsFrom(from + 1)
    }

    /** `findMany()` with no condition, in id order. */
    function AllRows(): seq<R> {
      RowsFrom(1)
    }

    /** A row is listed exactly when some id at or above `from` holds it. */
    lemma {:induction false} RowsFromExactly(from: int, row: R)
      requires Valid() && from >= 1
      ensures row in RowsFrom(from) <==> exists k :: k in rows && from <= k && rows[k] == row
      decreases next - from
    {
      if from < next {
        RowsFromExactly(from + 1, row);
        if from in rows && rows[from] == row {
          assert row in RowsFrom(from);
        }
        if row in RowsFrom(from) && !(from in rows && rows[from] == row) {
          assert row in RowsFrom(from + 1);
        }
      }
    }

    /** `findMany()` lists exactly the stored rows. */
    lemma AllRowsExactly(row: R)
      requires Valid()
      ensures row in AllRows() <==> exists k :: k in rows && rows[k] == row
    {
      RowsFromExactly(1, row);
    }
  }

  /** A table with no rows. */
  function EmptyTable<R>(): (t: Table<R>)
    ensures t.Valid() && t.rows == map[]
  {
    Table(map[], 1)
  }
}
