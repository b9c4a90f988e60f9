/** The GraphQL `tracks` query: `get_tracks_resolver` and the `Query.tracks`
    field that forwards to it. */
module GraphqlSchema {
  import opened Wrappers
  import opened Text
  import opened Tracks

  /** The `duration` field: the decimal string of the whole seconds in
      `duration_ms`, rounded down as Python's `//` does
      (`d * 1000 <= ms < (d + 1) * 1000`), and 0 seconds when the column is
      NULL or 0. The string is the canonical rendering of its value: no sign
      for non-negative values, no leading zeros. */
  function DurationSeconds(durationMs: Option<int>): (s: string)
    ensures ParseInt(s).Some?
    ensures s == IntToString(ParseInt(s).value)
    ensures durationMs.Some? && durationMs.value != 0 ==>
              ParseInt(s).value * 1000 <= durationMs.value < (ParseInt(s).value + 1) * 1000
    ensures durationMs == None || durationMs == Some(0) ==> ParseInt(s) == Some(0)
  {
    if durationMs.Some? && durationMs.value != 0 then
      var seconds := durationMs.value / 1000;
      ParseIntToString(seconds);
      IntToString(seconds)
    else
      ParseIntToString(0);
      assert IntToString(0) == "0";
      "0"
  }

  /** The `TrackType` built from one joined row. */
  function TrackTypeOf(row: JoinedRow): (t: Track)
  {
    Track(row.name, row.album, row.artist, DurationSeconds(row.milliseconds), row.genre)
  }

  /** What the resolver returns: one `TrackType` per selected row, in row order. */
  function ResolvedTracks(rows: seq<JoinedRow>, nameFilter: Option<string>): (r: seq<Track>)
  {
    var selected := SelectByName(rows, nameFilter);
    seq(|selected|, i requires 0 <= i < |selected| => TrackTypeOf(selected[i]))
  }

  /** `get_tracks_resolver`: adds the name condition when a non-empty filter
      is given, runs the query (here: `rows` is its unfiltered result) and
      builds the list of `TrackType`s one row at a time. */
  method GetTracksResolver(rows: seq<JoinedRow>, nameFilter: Option<string>) returns (tracksList: seq<Track>)
    ensures tracksList == ResolvedTracks(rows, nameFilter)
    ensures |tracksList| == |SelectByName(rows, nameFilter)|
    ensures forall i :: 0 <= i < |tracksList| ==>
              var row := SelectByName(rows, nameFilter)[i];
              && tracksList[i].name == row.name
              && tracksList[i].album == row.album
              && tracksList[i].artist == row.artist
              && tracksList[i].duration == DurationSeconds(row.milliseconds)
              && tracksList[i].genre == row.genre
  {
    var tracksData := rows;
    if nameFilter.Some? && nameFilter.value != "" {
      tracksData := FilterByName(rows, nameFilter.value);
    }
    tracksList := [];
    for i := 0 to |tracksData|
      invariant |tracksList| == i
      invariant forall k :: 0 <= k < i ==> tracksList[k] == TrackTypeOf(tracksData[k])
    {
      var track := tracksData[i];
      var durationSeconds := DurationSeconds(track.milliseconds);
      tracksList := tracksList + [Track(track.name, track.album, track.artist, durationSeconds, track.genre)];
    }
  }

  /** `Query.tracks`: the `nameFilter` argument goes to the resolver unchanged. */
  method QueryTracks(rows: seq<JoinedRow>, nameFilter: Option<string>) returns (tracks: seq<Track>)
    ensures tracks == ResolvedTracks(rows, nameFilter)
  {
    tracks := GetTracksResolver(rows, nameFilter);
  }

  /** `None` and `""` both return every joined row. */
  lemma NoFilterReturnsAll(rows: seq<JoinedRow>, nameFilter: Option<string>)
    requires nameFilter == None || nameFilter == Some("")
    ensures |ResolvedTracks(rows, nameFilter)| == |rows|
    ensures forall i :: 0 <= i < |rows| ==> ResolvedTracks(rows, nameFilter)[i] == TrackTypeOf(rows[i])
  {
  }

  /** With a filter, every returned track's name contains the filter, ignoring case. */
  lemma FilteredNamesMatch(rows: seq<JoinedRow>, filter: string, i: nat)
    requires filter != ""
    requires i < |ResolvedTracks(rows, Some(filter))|
    ensures Contains(Lower(ResolvedTracks(rows, Some(filter))[i].name), Lower(filter))
  {
    var selected := FilterByName(rows, filter);
    assert selected[i] in selected;
  }

  /** Filters equal after lower-casing give the same tracks. */
  lemma ResolvedCaseInsensitive(rows: seq<JoinedRow>, f1: string, f2: string)
    requires Lower(f1) == Lower(f2)
    ensures ResolvedTracks(rows, Some(f1)) == ResolvedTracks(rows, Some(f2))
  {
    if f1 == "" || f2 == "" {
      assert |f1| == |Lower(f1)| == |Lower(f2)| == |f2|;
    } else {
      FilterByNameCaseInsensitive(rows, f1, f2);
    }
  }
}
