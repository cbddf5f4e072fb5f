/** The remote relational store, reduced to what the components use: a table
    of rows, an insert of one row, a delete of every row equal to a given
    pair, a point lookup with `.maybeSingle()` and a count filtered on one
    column. Each write or query reports success or an error; the model takes
    that outcome as an input. */
module Store {
  import opened Seqs

  /** A write the client issues: `.insert(row)` or `.delete()` filtered on
      both columns of `row`. */
  datatype Write<T> = Insert(row: T) | DeleteMatching(row: T)

  /** The table's rows after `w`; a write the store rejects changes nothing. */
  function Apply<T(==,!new)>(rows: seq<T>, w: Write<T>, ok: bool): (r: seq<T>)
    ensures !ok ==> r == rows
    ensures ok && w.Insert? ==> multiset(r) == multiset(rows) + multiset{w.row}
    ensures ok && w.DeleteMatching? ==> multiset(r) == multiset(rows)[w.row := 0]
  {
    if !ok then rows
    else match w
      case Insert(row) => rows + [row]
      case DeleteMatching(row) => WithoutMultiset(rows, row); Without(rows, row)
  }

  /** `.eq(a).eq(b).maybeSingle()` returns data only when the query succeeds
      and exactly one row matches; with two or more it returns an error and
      no data, which the callers read as "absent". */
  predicate MaybeSingle<T(==,!new)>(rows: seq<T>, row: T, ok: bool)
    ensures MaybeSingle(rows, row, ok) <==> ok && exists i :: OnlyAt(rows, row, i)
  {
    CountOneIffOnlyAt(rows, row);
    ok && multiset(rows)[row] == 1
  }

  /** `row` stands at index `i` of `rows` and nowhere else. */
  ghost predicate OnlyAt<T>(rows: seq<T>, row: T, i: int)
  {
    0 <= i < |rows| && rows[i] == row &&
    forall j :: 0 <= j < |rows| && rows[j] == row ==> j == i
  }

  lemma {:induction false} CountOneIffOnlyAt<T(!new)>(rows: seq<T>, row: T)
    ensures multiset(rows)[row] == 1 <==> exists i :: OnlyAt(rows, row, i)
    decreases |rows|
  {
    if rows != [] {
      var rest := rows[1..];
      assert rows == [rows[0]] + rest;
      assert multiset(rows)[row] == (if rows[0] == row then 1 else 0) + multiset(rest)[row];
      CountOneIffOnlyAt(rest, row);
      if rows[0] == row {
        if row !in rest {
          assert forall j :: 1 <= j < |rows| ==> rows[j] == rest[j - 1];
          assert OnlyAt(rows, row, 0);
        } else {
          var k :| 0 <= k < |rest| && rest[k] == row;
          assert rows[k + 1] == row;
          assert multiset(rest)[row] > 0;
        }
      } else {
        if i' :| OnlyAt(rest, row, i') {
          assert OnlyAt(rows, row, i' + 1) by {
            forall j | 0 <= j < |rows| && rows[j] == row
              ensures j == i' + 1
            {
              assert rest[j - 1] == row;
            }
          }
        }
        if i :| OnlyAt(rows, row, i) {
          assert OnlyAt(rest, row, i - 1) by {
            forall j | 0 <= j < |rest| && rest[j] == row
              ensures j == i - 1
            {
              assert rows[j + 1] == row;
            }
          }
        }
      }
    }
  }

  /** The table holds every row at most once, as a uniqueness constraint on
      the pair would guarantee. */
  ghost predicate Unique<T(!new)>(rows: seq<T>)
  {
    forall x :: multiset(rows)[x] <= 1
  }

  /** Under uniqueness, the `.maybeSingle()` lookup is exactly "the row exists". */
  lemma MaybeSingleFindsUnique<T(!new)>(rows: seq<T>, row: T, ok: bool)
    requires Unique(rows)
    ensures MaybeSingle(rows, row, ok) <==> ok && row in rows
  {
    assert row in rows <==> multiset(rows)[row] > 0;
  }

  /** Inserting a row that is absent, or deleting one, keeps the table unique. */
  lemma ApplyKeepsUnique<T(!new)>(rows: seq<T>, w: Write<T>, ok: bool)
    requires Unique(rows)
    requires ok && w.Insert? ==> w.row !in rows
    ensures Unique(Apply(rows, w, ok))
  {
    var r := Apply(rows, w, ok);
    forall x
      ensures multiset(r)[x] <= 1
    {
      if ok && w.Insert? {
        assert multiset(rows)[w.row] == 0;
      }
    }
  }

  /** Inserting an absent row and then deleting it restores the table. */
  lemma {:induction false} InsertThenDeleteRestores<T(!new)>(rows: seq<T>, row: T)
    requires row !in rows
    ensures Apply(Apply(rows, Insert(row), true), DeleteMatching(row), true) == rows
  {
    FilterAppend(rows, [row], y => y != row);
    WithoutAbsent(rows, row);
  }

  /** A point lookup issued right after a successful write sees it: after an
      insert of an absent row exactly one copy matches, after a delete none. */
  lemma LookupAfterWrite<T(!new)>(rows: seq<T>, w: Write<T>)
    requires w.Insert? ==> w.row !in rows
    ensures MaybeSingle(Apply(rows, w, true), w.row, true) <==> w.Insert?
  {
    if w.Insert? {
      assert multiset(rows)[w.row] == 0;
    }
  }

  /** The write a toggle issues given the local state: delete the row when
      it is shown as present, insert it otherwise. */
  function ToggleWrite<T>(row: T, present: bool): (w: Write<T>)
    ensures w.row == row
    ensures w.DeleteMatching? <==> present
  {
    if present then DeleteMatching(row) else Insert(row)
  }

  /** How a successful write moves a count filtered by `p`: an insert adds
      one if the row passes the filter, a delete removes every copy. */
  lemma CountAfterWrite<T(!new)>(rows: seq<T>, w: Write<T>, p: T -> bool)
    ensures Count(Apply(rows, w, true), p) ==
            Count(rows, p) as int + (if !p(w.row) then 0
                                     else if w.Insert? then 1
                                     else -(multiset(rows)[w.row] as int))
  {
    match w
    case Insert(row) => CountAppendOne(rows, row, p);
    case DeleteMatching(row) => CountWithout(rows, row, p);
  }

  /** A toggle that succeeds on a unique table whose state the client saw
      correctly moves every count that includes the row by exactly one. */
  lemma OptimisticCount<T(!new)>(rows: seq<T>, row: T, present: bool, p: T -> bool)
    requires Unique(rows)
    requires present == (row in rows)
    requires p(row)
    ensures Count(Apply(rows, ToggleWrite(row, present), true), p) ==
            Count(rows, p) as int + (if present then -1 else 1)
  {
    CountAfterWrite(rows, ToggleWrite(row, present), p);
    assert row in rows <==> multiset(rows)[row] > 0;
  }

  /** Starting with the row absent, two toggles whose writes both succeed
      leave the table exactly as it was; in between the lookup finds the row. */
  lemma ToggleTwiceRestores<T(!new)>(rows: seq<T>, row: T)
    requires row !in rows
    ensures MaybeSingle(Apply(rows, ToggleWrite(row, false), true), row, true)
    ensures Apply(Apply(rows, ToggleWrite(row, false), true), ToggleWrite(row, true), true) == rows
  {
    LookupAfterWrite(rows, Insert(row));
    InsertThenDeleteRestores(rows, row);
  }

  /** The store itself: a table whose rows the client's writes change. */
  class Table<T(==,!new)> {
    var rows: seq<T>

    constructor (initial: seq<T>)
      ensures rows == initial
    {
      rows := initial;
    }

    /** Issues `w`; `ok` is the store's answer (no error returned). */
    method Perform(w: Write<T>, ok: bool)
      modifies this
      ensures rows == Apply(old(rows), w, ok)
    {
      match w
      case Insert(row) =>
        if ok { rows := rows + [row]; }
      case DeleteMatching(row) =>
        if ok { rows := Without(rows, row); }
    }
  }
}
