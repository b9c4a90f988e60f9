/** The REST endpoint `GET /api/tracks/` (`read_tracks`): the same join as
    the GraphQL resolver, filtered with `ILIKE '%name%'` when `name` is given,
    mapped to `schemas.Track` by a comprehension that divides `Milliseconds`
    by 1000 with no NULL guard. */
module TracksApi {
  import opened Wrappers
  import opened Text
  import opened Tracks
  import GraphqlSchema

  /** `None // 1000` raises `TypeError`, which ends the request; the error
      names the position (among the selected rows) of the row that raised. */
  datatype ReadError = NullMilliseconds(index: nat)

  /** The comprehension over the query result: `str(Milliseconds // 1000)`
      for the duration, the four names copied. Stops at the first row whose
      `Milliseconds` is NULL. */
  function TracksOf(rows: seq<JoinedRow>): (r: Result<seq<Track>, ReadError>)
    ensures r.Success? <==> forall i :: 0 <= i < |rows| ==> rows[i].milliseconds.Some?
    ensures r.Success? ==> |r.value| == |rows|
    ensures r.Success? ==> forall i :: 0 <= i < |rows| ==>
              r.value[i] == Track(rows[i].name, rows[i].album, rows[i].artist,
                                  IntToString(rows[i].milliseconds.value / 1000), rows[i].genre)
    ensures r.Failure? ==> r.error.index < |rows| && rows[r.error.index].milliseconds.None?
    ensures r.Failure? ==> forall i :: 0 <= i < r.error.index ==> rows[i].milliseconds.Some?
  {
    if rows == [] then Success([])
    else match rows[0].milliseconds
      case None => Failure(NullMilliseconds(0))
      case Some(ms) =>
        var head := Track(rows[0].name, rows[0].album, rows[0].artist, IntToString(ms / 1000), rows[0].genre);
        match TracksOf(rows[1..])
        case Failure(NullMilliseconds(k)) => Failure(NullMilliseconds(k + 1))
        case Success(rest) => Success([head] + rest)
  }

  /** `read_tracks`: the result depends only on the join and `name`. The
      filter applies only when `name` is non-empty. The request succeeds
      exactly when no selected row has a NULL duration, and then returns one
      `Track` per selected row, in order, with the names copied and the
      duration `str(Milliseconds // 1000)`; otherwise it fails at the first
      selected row whose duration is NULL. */
  function ReadTracks(rows: seq<JoinedRow>, name: Option<string>): (r: Result<seq<Track>, ReadError>)
    ensures var selected := SelectByName(rows, name);
            r.Success? <==> forall i :: 0 <= i < |selected| ==> selected[i].milliseconds.Some?
    ensures var selected := SelectByName(rows, name);
            r.Success? ==> && |r.value| == |selected|
                           && forall i :: 0 <= i < |selected| ==>
                                r.value[i] == Track(selected[i].name, selected[i].album, selected[i].artist,
                                                    IntToString(selected[i].milliseconds.value / 1000), selected[i].genre)
    ensures var selected := SelectByName(rows, name);
            r.Failure? ==> && r.error.index < |selected|
                           && selected[r.error.index].milliseconds.None?
                           && forall i :: 0 <= i < r.error.index ==> selected[i].milliseconds.Some?
  {
    TracksOf(SelectByName(rows, name))
  }

  /** The durations `read_tracks` returns read back as whole seconds, rounded down. */
  lemma ReadTracksDurationFloor(rows: seq<JoinedRow>, name: Option<string>, i: nat)
    requires ReadTracks(rows, name).Success?
    requires i < |ReadTracks(rows, name).value|
    ensures var ms := SelectByName(rows, name)[i].milliseconds.value;
            var d := ParseInt(ReadTracks(rows, name).value[i].duration);
            d.Some? && d.value * 1000 <= ms < (d.value + 1) * 1000
  {
    ParseIntToString(SelectByName(rows, name)[i].milliseconds.value / 1000);
  }

  /** A NULL duration among unselected rows does no harm: a filtered request
      fails only if a matching row has a NULL duration. */
  lemma ReadTracksNullOutsideFilter(rows: seq<JoinedRow>, filter: string)
    requires filter != ""
    requires forall i :: 0 <= i < |rows| && NameMatches(rows[i], filter) ==> rows[i].milliseconds.Some?
    ensures ReadTracks(rows, Some(filter)).Success?
  {
    var selected := FilterByName(rows, filter);
    forall i | 0 <= i < |selected| ensures selected[i].milliseconds.Some? {
      assert selected[i] in selected;
      var j :| 0 <= j < |rows| && rows[j] == selected[i];
    }
  }

  /** Where `read_tracks` succeeds it returns exactly what the GraphQL
      resolver returns for the same filter: the two differ only on a NULL
      duration, where GraphQL answers "0" and `read_tracks` fails. */
  lemma ReadTracksAgreesWithResolver(rows: seq<JoinedRow>, name: Option<string>)
    requires ReadTracks(rows, name).Success?
    ensures ReadTracks(rows, name).value == GraphqlSchema.ResolvedTracks(rows, name)
  {
    var selected := SelectByName(rows, name);
    var r := ReadTracks(rows, name).value;
    var g := GraphqlSchema.ResolvedTracks(rows, name);
    assert |r| == |g|;
    forall i | 0 <= i < |r| ensures r[i] == g[i] {
      var ms := selected[i].milliseconds.value;
      if ms == 0 {
        assert IntToString(0) == "0";
      }
    }
  }

  /** On a NULL duration the endpoints part ways: the GraphQL resolver
      reports "0" seconds for that row, `read_tracks` fails at it. */
  lemma NullDurationDiverges(rows: seq<JoinedRow>, name: Option<string>, i: nat)
    requires i < |SelectByName(rows, name)|
    requires SelectByName(rows, name)[i].milliseconds.None?
    ensures GraphqlSchema.ResolvedTracks(rows, name)[i].duration == "0"
    ensures ReadTracks(rows, name).Failure?
    ensures ReadTracks(rows, name).error.index <= i
  {
  }
}
