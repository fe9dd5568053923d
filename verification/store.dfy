/** Tables as sequences of rows in storage order, and the two query shapes the
    CRUD layer uses: `select ... where` returning all rows, and
    `scalars().one_or_none()` / `scalars().one()` returning a single row. */
module Store {
  import opened Outcomes

  /** `select(T).where(keep)` followed by `.all()`: the matching rows, in order. */
  function Where<T(==,!new)>(rows: seq<T>, keep: T -> bool): (r: seq<T>)
    ensures |r| <= |rows|
    ensures forall i :: 0 <= i < |r| ==> keep(r[i])
    ensures forall x :: x in r <==> x in rows && keep(x)
    ensures multiset(r) <= multiset(rows)
  {
    if rows == [] then []
    else
      var rest := Where(rows[1..], keep);
      assert rows == [rows[0]] + rows[1..];
      if keep(rows[0]) then [rows[0]] + rest else rest
  }

  /** What a single-row query finds. */
  datatype Lookup<T> = NoRow | OneRow(row: T) | ManyRows

  /** The result of `.one_or_none()` / `.one()` on `select(T).where(keep)`. */
  function FindOne<T(==,!new)>(rows: seq<T>, keep: T -> bool): (r: Lookup<T>)
    ensures r.NoRow? <==> (forall x :: x in rows ==> !keep(x))
    ensures r.OneRow? ==> r.row in rows && keep(r.row)
    ensures r.OneRow? ==> forall x :: x in rows && keep(x) ==> x == r.row
  {
    var found := Where(rows, keep);
    if |found| == 0 then NoRow
    else if |found| == 1 then
      assert found[0] in found;
      assert forall x :: x in found ==> x == found[0];
      OneRow(found[0])
    else ManyRows
  }

  /** Filtering a sequence extended by one row extends the filtered sequence
      by that row exactly when it is kept. */
  lemma {:induction false} WhereAppend<T(!new)>(rows: seq<T>, keep: T -> bool, x: T)
    ensures Where(rows + [x], keep) == Where(rows, keep) + (if keep(x) then [x] else [])
  {
    if rows == [] {
      assert ([] + [x])[1..] == [];
    } else {
      assert (rows + [x])[1..] == rows[1..] + [x];
      WhereAppend(rows[1..], keep, x);
    }
  }

  /** Appending the only matching row makes a single-row query find it. */
  lemma {:induction false} WhereAppendedOnly<T(!new)>(rows: seq<T>, keep: T -> bool, x: T)
    requires keep(x)
    requires forall y :: y in rows ==> !keep(y)
    ensures Where(rows + [x], keep) == [x]
  {
    if rows == [] {
      assert ([] + [x])[1..] == [];
    } else {
      assert (rows + [x])[1..] == rows[1..] + [x];
      assert rows[0] in rows;
      WhereAppendedOnly(rows[1..], keep, x);
    }
  }

  lemma FindOneAppended<T(!new)>(rows: seq<T>, keep: T -> bool, x: T)
    requires keep(x)
    requires forall y :: y in rows ==> !keep(y)
    ensures FindOne(rows + [x], keep) == OneRow(x)
  {
    WhereAppendedOnly(rows, keep, x);
  }

  /** A lookup on a column with a unique constraint finds the one row that
      has the value. */
  lemma {:induction false} UniqueMatchFindsOne<T(!new)>(rows: seq<T>, keep: T -> bool, x: T)
    requires forall i, j :: 0 <= i < j < |rows| && keep(rows[i]) ==> !keep(rows[j])
    requires x in rows && keep(x)
    ensures FindOne(rows, keep) == OneRow(x)
  {
    WhereUniqueMatch(rows, keep);
    assert x in Where(rows, keep);
  }

  lemma {:induction false} WhereUniqueMatch<T(!new)>(rows: seq<T>, keep: T -> bool)
    requires forall i, j :: 0 <= i < j < |rows| && keep(rows[i]) ==> !keep(rows[j])
    ensures |Where(rows, keep)| <= 1
  {
    if rows != [] {
      WhereUniqueMatch(rows[1..], keep);
      if keep(rows[0]) {
        assert forall x :: x in rows[1..] ==> !keep(x);
      }
    }
  }

  /** `.scalars().one_or_none()` followed by the CRUD layer's `None` check:
      a missing row becomes a 404 with the given detail; two matching rows make
      SQLAlchemy raise. */
  function OneOrNotFound<T(==,!new)>(rows: seq<T>, keep: T -> bool, missing: string): (r: Result<T>)
    ensures r.Ok? ==> r.value in rows && keep(r.value)
    ensures r == Err(HttpError(NotFound, missing)) <==> forall x :: x in rows ==> !keep(x)
    ensures r.Err? && (exists x :: x in rows && keep(x)) ==>
      r.error == Raised("MultipleResultsFound", "Multiple rows were found when one or none was required")
  {
    match FindOne(rows, keep)
    case NoRow => Err(HttpError(NotFound, missing))
    case OneRow(x) => Ok(x)
    case ManyRows => Err(Raised("MultipleResultsFound", "Multiple rows were found when one or none was required"))
  }

  /** `.scalars().one()`: no 404 path; a missing row makes SQLAlchemy raise. */
  function ExactlyOne<T(==,!new)>(rows: seq<T>, keep: T -> bool): (r: Result<T>)
    ensures r.Ok? ==> r.value in rows && keep(r.value)
    ensures r.Err? ==> r.error.Raised?
    ensures r == Err(Raised("NoResultFound", "No row was found when one was required"))
        <==> forall x :: x in rows ==> !keep(x)
  {
    match FindOne(rows, keep)
    case NoRow => Err(Raised("NoResultFound", "No row was found when one was required"))
    case OneRow(x) => Ok(x)
    case ManyRows => Err(Raised("MultipleResultsFound", "Multiple rows were found when one was required"))
  }
}
