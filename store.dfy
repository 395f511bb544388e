/** The name store: the `radio_names` table, whose single `name` column is UNIQUE.
    The rows are a sequence in table order; a sqlite failure of one query is given
    as `fault` (None when the query reaches the table normally). */
module Store {
  import opened Wrappers

  const FetchFailed := "Failed to fetch radio names from SQLite: "
  const InsertFailed := "Failed to insert radio name to Sqlite3: "
  /** The message sqlite gives when the UNIQUE constraint rejects a row. */
  const UniqueViolation := "UNIQUE constraint failed: radio_names.name"

  /** The UNIQUE constraint on the `name` column. */
  ghost predicate Distinct(rows: seq<string>) {
    forall i, j :: 0 <= i < j < |rows| ==> rows[i] != rows[j]
  }

  function Occurrences(rows: seq<string>, n: string): nat {
    if rows == [] then 0
    else (if rows[0] == n then 1 else 0) + Occurrences(rows[1..], n)
  }

  /** In a table that keeps the constraint, every stored name occurs exactly once. */
  lemma {:induction false} DistinctOnce(rows: seq<string>, n: string)
    requires Distinct(rows)
    ensures Occurrences(rows, n) == if n in rows then 1 else 0
  {
    if rows != [] {
      DistinctOnce(rows[1..], n);
      if rows[0] == n {
        assert n !in rows[1..] by {
          forall k | 0 <= k < |rows[1..]| ensures rows[1..][k] != n {
            assert rows[1..][k] == rows[k + 1];
          }
        }
      } else {
        assert n in rows <==> n in rows[1..] by {
          assert rows == [rows[0]] + rows[1..];
        }
      }
    }
  }

  /** get_all_radio_names: every stored name, or the wrapped sqlite error. */
  function GetAllRadioNames(rows: seq<string>, fault: Option<string>): (r: Result<seq<string>>)
    ensures r.Ok? <==> fault.None?
    ensures r.Err? ==> r.error == FetchFailed + fault.value
    ensures r.Ok? ==> |r.value| == |rows| && forall n :: n in r.value <==> n in rows
  {
    match fault
    case Some(e) => Err(FetchFailed + e)
    case None => Ok(rows)
  }

  /** Listing the table yields each stored name exactly once and nothing else. */
  lemma ListedOnce(rows: seq<string>, n: string)
    requires Distinct(rows)
    ensures GetAllRadioNames(rows, None).Ok?
    ensures Occurrences(GetAllRadioNames(rows, None).value, n) == if n in rows then 1 else 0
  {
    DistinctOnce(rows, n);
  }

  /** The error insert_radio_name raises, or None when the row is added. A name
      already stored is refused by the constraint; nothing else is checked. */
  function InsertError(rows: seq<string>, name: string, fault: Option<string>): (r: Option<string>)
    ensures r.None? <==> fault.None? && name !in rows
    ensures fault.None? && name in rows ==> r == Some(InsertFailed + UniqueViolation)
    ensures r.Some? ==> StartsWith(r.value, InsertFailed)
  {
    match fault
    case Some(e) => Some(InsertFailed + e)
    case None => if name in rows then Some(InsertFailed + UniqueViolation) else None
  }

  /** The table after insert_radio_name: the one new row, or unchanged on failure. */
  function Inserted(rows: seq<string>, name: string, fault: Option<string>): (r: seq<string>)
    ensures rows <= r && |r| <= |rows| + 1
    ensures |r| == |rows| + 1 <==> fault.None? && name !in rows
    ensures |r| == |rows| + 1 ==> r[|rows|] == name
    ensures Distinct(rows) ==> Distinct(r)
  {
    if InsertError(rows, name, fault).None? then rows + [name] else rows
  }

  /** Every insert keeps the UNIQUE constraint. */
  lemma InsertKeepsDistinct(rows: seq<string>, name: string, fault: Option<string>)
    requires Distinct(rows)
    ensures Distinct(Inserted(rows, name, fault))
    ensures forall n :: n in Inserted(rows, name, fault) <==> n in rows || (n == name && InsertError(rows, name, fault).None?)
  {
  }

  /** Insert then list: a newly inserted name is listed exactly once, and inserting
      it a second time is refused by the constraint. */
  lemma InsertThenList(rows: seq<string>, name: string)
    requires Distinct(rows) && name !in rows
    ensures var after := Inserted(rows, name, None);
      Occurrences(GetAllRadioNames(after, None).value, name) == 1
      && InsertError(after, name, None) == Some(InsertFailed + UniqueViolation)
  {
    InsertKeepsDistinct(rows, name, None);
    ListedOnce(Inserted(rows, name, None), name);
  }
}
