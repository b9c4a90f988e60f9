/** The record returned by both track endpoints and the joined row the
    database hands back for it. The SQL join itself is not modelled: a query
    result is a sequence of joined rows in the order the database returns them. */
module Tracks {
  import opened Wrappers
  import opened Text

  /** One output record: the five string fields of `schemas.TrackBase`,
      which are also the fields of the GraphQL `TrackType`. */
  datatype Track = Track(name: string, album: string, artist: string, duration: string, genre: string)

  /** One row of the Track ⋈ Album ⋈ Artist ⋈ Genre join: the track name,
      the album title, the artist name, the nullable `Milliseconds` column
      and the genre name. */
  datatype JoinedRow = JoinedRow(name: string, album: string, artist: string, milliseconds: Option<int>, genre: string)

  /** Python truthiness of an optional filter string: neither `None` nor `""`. */
  predicate FilterGiven(nameFilter: Option<string>) {
    nameFilter.Some? && nameFilter.value != ""
  }

  /** The WHERE clause: the lower-cased track name contains the lower-cased
      filter, read literally (no `%` or `_` wildcards). */
  predicate NameMatches(row: JoinedRow, filter: string) {
    Contains(Lower(row.name), Lower(filter))
  }

  /** The rows the database returns once the WHERE clause is added, in the
      order of the unfiltered result. */
  function FilterByName(rows: seq<JoinedRow>, filter: string): (r: seq<JoinedRow>)
    ensures |r| <= |rows|
    ensures forall row :: row in r ==> row in rows && NameMatches(row, filter)
  {
    if rows == [] then []
    else if NameMatches(rows[0], filter) then [rows[0]] + FilterByName(rows[1..], filter)
    else FilterByName(rows[1..], filter)
  }

  /** The rows of the query: every joined row for `None` and `""`; for a
      non-empty filter, each row whose name contains it (ignoring case) as
      often as the join holds it, and no other row. */
  function SelectByName(rows: seq<JoinedRow>, nameFilter: Option<string>): (r: seq<JoinedRow>)
    ensures nameFilter == None || nameFilter == Some("") ==> r == rows
    ensures FilterGiven(nameFilter) ==> forall row ::
              multiset(r)[row] == if NameMatches(row, nameFilter.value) then multiset(rows)[row] else 0
  {
    if FilterGiven(nameFilter) then
      FilterByNameCounts(rows, nameFilter.value);
      FilterByName(rows, nameFilter.value)
    else rows
  }

  /** The filter keeps each matching row as often as it occurs and drops every
      other row. */
  lemma {:induction false} FilterByNameCount(rows: seq<JoinedRow>, filter: string, row: JoinedRow)
    ensures multiset(FilterByName(rows, filter))[row] ==
            if NameMatches(row, filter) then multiset(rows)[row] else 0
  {
    if rows != [] {
      FilterByNameCount(rows[1..], filter, row);
      assert rows == [rows[0]] + rows[1..];
    }
  }

  /** `FilterByNameCount` for every row at once. */
  lemma FilterByNameCounts(rows: seq<JoinedRow>, filter: string)
    ensures forall row :: multiset(FilterByName(rows, filter))[row] ==
              if NameMatches(row, filter) then multiset(rows)[row] else 0
  {
    forall row {
      FilterByNameCount(rows, filter, row);
    }
  }

  /** A row that matches is never lost. */
  lemma FilterByNameKeeps(rows: seq<JoinedRow>, filter: string, row: JoinedRow)
    requires row in rows && NameMatches(row, filter)
    ensures row in FilterByName(rows, filter)
  {
    FilterByNameCount(rows, filter, row);
  }

  /** When every row matches, the filter returns the rows unchanged. */
  lemma {:induction false} FilterByNameAllMatch(rows: seq<JoinedRow>, filter: string)
    requires forall i :: 0 <= i < |rows| ==> NameMatches(rows[i], filter)
    ensures FilterByName(rows, filter) == rows
  {
    if rows != [] {
      FilterByNameAllMatch(rows[1..], filter);
    }
  }

  /** The filter ignores case: filters equal after lower-casing select the
      same rows. */
  lemma {:induction false} FilterByNameCaseInsensitive(rows: seq<JoinedRow>, f1: string, f2: string)
    requires Lower(f1) == Lower(f2)
    ensures FilterByName(rows, f1) == FilterByName(rows, f2)
  {
    if rows != [] {
      FilterByNameCaseInsensitive(rows[1..], f1, f2);
    }
  }

  /** A filter that differs only in case from a row's name matches it. */
  lemma NameMatchesOwnName(row: JoinedRow, filter: string)
    requires Lower(filter) == Lower(row.name)
    ensures NameMatches(row, filter)
  {
    assert OccursAt(Lower(row.name), Lower(filter), 0);
    ContainsComplete(Lower(row.name), Lower(filter), 0);
  }
}
