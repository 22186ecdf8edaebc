/** The route preview that is saved with a watcher, and the status the API reads back from its rows. */
module RoutePreview {
  import opened Basics
  import opened RouteTags
  import opened RouteMatching

  datatype PreviewStatus = Red | Yellow | Green

  /** A row without destination says that the source matched nothing. The sorted list of tags is kept as a set. */
  datatype RouteRow = RouteRow(source: FolderId, destination: Option<FolderId>, tags: set<string>)

  datatype Preview = Preview(
    status: PreviewStatus, rows: seq<RouteRow>, unmatchedSources: seq<FolderId>, unmatchedDestinations: seq<FolderId>)

  /** `_preview_status` */
  function StatusOf(matchedDestinations: nat, unmatchedSources: nat, unmatchedDestinations: nat): PreviewStatus {
    if matchedDestinations == 0 then Red
    else if unmatchedSources > 0 || unmatchedDestinations > 0 then Yellow
    else Green
  }

  function Ids(folders: seq<Folder>): set<FolderId> {
    set i | 0 <= i < |folders| :: folders[i].id
  }

  /** The rows of one source, one for each destination that shares a tag. */
  function SourceRows(source: Folder, destinations: seq<Folder>): seq<RouteRow> {
    if destinations == [] then []
    else
      var last := destinations[|destinations| - 1];
      var shared := Shared(source.tags, last.tags);
      SourceRows(source, destinations[..|destinations| - 1])
      + if shared != {} then [RouteRow(source.id, Some(last.id), shared)] else []
  }

  function MatchRows(sources: seq<Folder>, destinations: seq<Folder>): seq<RouteRow> {
    if sources == [] then []
    else MatchRows(sources[..|sources| - 1], destinations) + SourceRows(sources[|sources| - 1], destinations)
  }

  function Without(folders: seq<Folder>, ids: set<FolderId>): seq<FolderId> {
    if folders == [] then []
    else
      var last := folders[|folders| - 1];
      Without(folders[..|folders| - 1], ids) + if last.id !in ids then [last.id] else []
  }

  function NoMatchRows(ids: seq<FolderId>): seq<RouteRow> {
    seq(|ids|, i requires 0 <= i < |ids| => RouteRow(ids[i], None, {}))
  }

  function RowSources(rows: seq<RouteRow>): set<FolderId> {
    set i | 0 <= i < |rows| :: rows[i].source
  }

  function RowDestinations(rows: seq<RouteRow>): set<FolderId> {
    set i | 0 <= i < |rows| && rows[i].destination.Some? :: rows[i].destination.value
  }

  /** `_compute_preview` */
  function PreviewOf(sources: seq<Folder>, destinations: seq<Folder>): Preview {
    var rows := MatchRows(sources, destinations);
    var unmatchedSources := Without(sources, RowSources(rows));
    var unmatchedDestinations := Without(destinations, RowDestinations(rows));
    Preview(StatusOf(|RowDestinations(rows)|, |unmatchedSources|, |unmatchedDestinations|),
            rows + NoMatchRows(unmatchedSources), unmatchedSources, unmatchedDestinations)
  }

  /** The nested loops, with the sets of matched folders filled as rows are made. */
  method ComputePreview(sources: seq<Folder>, destinations: seq<Folder>) returns (p: Preview)
    ensures p == PreviewOf(sources, destinations)
  {
    var rows: seq<RouteRow> := [];
    var matchedSources: set<FolderId>, matchedDestinations: set<FolderId> := {}, {};
    for i := 0 to |sources|
      invariant rows == MatchRows(sources[..i], destinations)
      invariant matchedSources == RowSources(rows) && matchedDestinations == RowDestinations(rows)
    {
      ghost var before := rows;
      assert sources[..i + 1][..i] == sources[..i];
      for k := 0 to |destinations|
        invariant rows == before + SourceRows(sources[i], destinations[..k])
        invariant matchedSources == RowSources(rows) && matchedDestinations == RowDestinations(rows)
      {
        assert destinations[..k + 1][..k] == destinations[..k];
        var shared := Shared(sources[i].tags, destinations[k].tags);
        if shared == {} {
          continue;
        }
        OneMoreRow(rows, RouteRow(sources[i].id, Some(destinations[k].id), shared));
        matchedSources := matchedSources + {sources[i].id};
        matchedDestinations := matchedDestinations + {destinations[k].id};
        rows := rows + [RouteRow(sources[i].id, Some(destinations[k].id), shared)];
      }
      assert destinations[..|destinations|] == destinations;
    }
    assert sources[..|sources|] == sources;
    var unmatchedSources := UnmatchedIds(sources, matchedSources);
    var unmatchedDestinations := UnmatchedIds(destinations, matchedDestinations);
    var status := StatusOf(|matchedDestinations|, |unmatchedSources|, |unmatchedDestinations|);
    p := Preview(status, rows + NoMatchRows(unmatchedSources), unmatchedSources, unmatchedDestinations);
  }

  lemma OneMoreRow(rows: seq<RouteRow>, row: RouteRow)
    ensures RowSources(rows + [row]) == RowSources(rows) + {row.source}
    ensures RowDestinations(rows + [row])
            == RowDestinations(rows) + if row.destination.Some? then {row.destination.value} else {}
  {
    var grown := rows + [row];
    forall i | 0 <= i < |rows| ensures rows[i].source in RowSources(grown) {
      assert grown[i] == rows[i];
    }
    assert grown[|rows|] == row;
    forall i | 0 <= i < |rows| && rows[i].destination.Some?
      ensures rows[i].destination.value in RowDestinations(grown) {
      assert grown[i] == rows[i];
    }
  }

  method UnmatchedIds(folders: seq<Folder>, matched: set<FolderId>) returns (ids: seq<FolderId>)
    ensures ids == Without(folders, matched)
  {
    ids := [];
    for i := 0 to |folders|
      invariant ids == Without(folders[..i], matched)
    {
      assert folders[..i + 1][..i] == folders[..i];
      if folders[i].id !in matched {
        ids := ids + [folders[i].id];
      }
    }
    assert folders[..|folders|] == folders;
  }

  /** `_build_preview_summary`: the status read back from the saved rows and the watcher's destinations. */
  function SavedStatus(rows: seq<RouteRow>, destinations: seq<Folder>): PreviewStatus {
    var matched := RowDestinations(rows);
    var unmatchedSources := set i | 0 <= i < |rows| && rows[i].destination.None? :: rows[i].source;
    var unmatchedDestinations := Ids(destinations) - matched;
    StatusOf(|matched|, |unmatchedSources|, |unmatchedDestinations|)
  }

  // ---------- What the preview says ----------

  lemma {:induction false} WithoutMeans(folders: seq<Folder>, ids: set<FolderId>)
    ensures forall id :: id in Without(folders, ids) <==> id in Ids(folders) && id !in ids
  {
    if folders != [] {
      var n := |folders| - 1;
      WithoutMeans(folders[..n], ids);
      assert Ids(folders) == Ids(folders[..n]) + {folders[n].id} by {
        forall i | 0 <= i < n ensures folders[i].id in Ids(folders[..n]) {
          assert folders[..n][i] == folders[i];
        }
        assert folders[n].id in Ids(folders);
      }
    }
  }

  /** Source and destination share a tag. */
  predicate Matches(source: Folder, destination: Folder) {
    Shared(source.tags, destination.tags) != {}
  }

  /** The row of a matching pair. */
  function PairRow(source: Folder, destination: Folder): RouteRow {
    RouteRow(source.id, Some(destination.id), Shared(source.tags, destination.tags))
  }

  lemma {:induction false} SourceRowIsPair(source: Folder, destinations: seq<Folder>, row: RouteRow) returns (k: nat)
    requires row in SourceRows(source, destinations)
    ensures k < |destinations| && Matches(source, destinations[k]) && row == PairRow(source, destinations[k])
  {
    var n := |destinations| - 1;
    if row in SourceRows(source, destinations[..n]) {
      k := SourceRowIsPair(source, destinations[..n], row);
    } else {
      k := n;
    }
  }

  /** Every row of the preview's matches comes from a matching pair, and says what the two share. */
  lemma {:induction false} RowIsPair(sources: seq<Folder>, destinations: seq<Folder>, row: RouteRow)
    returns (i: nat, k: nat)
    requires row in MatchRows(sources, destinations)
    ensures i < |sources| && k < |destinations|
    ensures Matches(sources[i], destinations[k]) && row == PairRow(sources[i], destinations[k])
  {
    var n := |sources| - 1;
    if row in MatchRows(sources[..n], destinations) {
      i, k := RowIsPair(sources[..n], destinations, row);
    } else {
      i := n;
      k := SourceRowIsPair(sources[n], destinations, row);
    }
  }

  lemma {:induction false} PairIsSourceRow(source: Folder, destinations: seq<Folder>, k: nat)
    requires k < |destinations| && Matches(source, destinations[k])
    ensures PairRow(source, destinations[k]) in SourceRows(source, destinations)
  {
    var n := |destinations| - 1;
    if k < n {
      PairIsSourceRow(source, destinations[..n], k);
    }
  }

  /** Every matching pair has its row. */
  lemma {:induction false} PairIsRow(sources: seq<Folder>, destinations: seq<Folder>, i: nat, k: nat)
    requires i < |sources| && k < |destinations| && Matches(sources[i], destinations[k])
    ensures PairRow(sources[i], destinations[k]) in MatchRows(sources, destinations)
  {
    var n := |sources| - 1;
    var earlier, own := MatchRows(sources[..n], destinations), SourceRows(sources[n], destinations);
    var row := PairRow(sources[i], destinations[k]);
    assert row in earlier || row in own by {
      if i < n {
        PairIsRow(sources[..n], destinations, i, k);
      } else {
        PairIsSourceRow(sources[n], destinations, k);
      }
    }
    assert row in earlier + own;
  }

  lemma MatchRowsHaveDestinations(sources: seq<Folder>, destinations: seq<Folder>)
    ensures forall m | 0 <= m < |MatchRows(sources, destinations)| ::
              MatchRows(sources, destinations)[m].destination.Some?
  {
    var rows := MatchRows(sources, destinations);
    forall m | 0 <= m < |rows| ensures rows[m].destination.Some? {
      var i, k := RowIsPair(sources, destinations, rows[m]);
    }
  }

  lemma RowsWithNoMatches(rows: seq<RouteRow>, ids: seq<FolderId>)
    requires forall i | 0 <= i < |rows| :: rows[i].destination.Some?
    ensures var all := rows + NoMatchRows(ids);
            && RowDestinations(all) == RowDestinations(rows)
            && (set i | 0 <= i < |all| && all[i].destination.None? :: all[i].source)
              == (set i | 0 <= i < |ids| :: ids[i])
  {
    var all := rows + NoMatchRows(ids);
    forall i | 0 <= i < |rows| ensures rows[i].destination.value in RowDestinations(all) {
      assert all[i] == rows[i];
    }
    forall i | 0 <= i < |ids|
      ensures ids[i] in set i | 0 <= i < |all| && all[i].destination.None? :: all[i].source
    {
      assert all[|rows| + i] == RouteRow(ids[i], None, {});
    }
  }

  lemma CountsAgree(ids: seq<FolderId>, s: set<FolderId>)
    requires forall id :: id in ids <==> id in s
    ensures |ids| == 0 <==> |s| == 0
  {
    if ids != [] {
      assert ids[0] in s;
    }
    if s != {} {
      var id :| id in s;
      assert id in ids;
    }
  }

  /** The status read back from the saved rows is the status that was computed when they were saved. */
  lemma SavedStatusAgrees(sources: seq<Folder>, destinations: seq<Folder>)
    ensures SavedStatus(PreviewOf(sources, destinations).rows, destinations) == PreviewOf(sources, destinations).status
  {
    var p, rows := PreviewOf(sources, destinations), MatchRows(sources, destinations);
    MatchRowsHaveDestinations(sources, destinations);
    RowsWithNoMatches(rows, p.unmatchedSources);
    CountsAgree(p.unmatchedSources, set i | 0 <= i < |p.unmatchedSources| :: p.unmatchedSources[i]);
    WithoutMeans(destinations, RowDestinations(rows));
    CountsAgree(p.unmatchedDestinations, Ids(destinations) - RowDestinations(rows));
  }

  ghost predicate DistinctIds(folders: seq<Folder>) {
    forall i, k | 0 <= i < k < |folders| :: folders[i].id != folders[k].id
  }

  predicate MatchesSome(source: Folder, destinations: seq<Folder>) {
    exists k | 0 <= k < |destinations| :: Matches(source, destinations[k])
  }

  predicate MatchedBySome(sources: seq<Folder>, destination: Folder) {
    exists i | 0 <= i < |sources| :: Matches(sources[i], destination)
  }

  lemma RowNamesFolders(rows: seq<RouteRow>, row: RouteRow)
    requires row in rows && row.destination.Some?
    ensures row.source in RowSources(rows) && row.destination.value in RowDestinations(rows)
  {
    var m :| 0 <= m < |rows| && rows[m] == row;
  }

  lemma SourceIsNamed(sources: seq<Folder>, destinations: seq<Folder>, i: nat)
    requires DistinctIds(sources) && i < |sources|
    ensures sources[i].id in RowSources(MatchRows(sources, destinations)) <==> MatchesSome(sources[i], destinations)
  {
    var rows := MatchRows(sources, destinations);
    if k :| 0 <= k < |destinations| && Matches(sources[i], destinations[k]) {
      PairIsRow(sources, destinations, i, k);
      RowNamesFolders(rows, PairRow(sources[i], destinations[k]));
    }
    if m :| 0 <= m < |rows| && rows[m].source == sources[i].id {
      var other, k := RowIsPair(sources, destinations, rows[m]);
      assert other == i;
    }
  }

  lemma DestinationIsNamed(sources: seq<Folder>, destinations: seq<Folder>, k: nat)
    requires DistinctIds(destinations) && k < |destinations|
    ensures destinations[k].id in RowDestinations(MatchRows(sources, destinations)) <==>
            MatchedBySome(sources, destinations[k])
  {
    var rows := MatchRows(sources, destinations);
    if i :| 0 <= i < |sources| && Matches(sources[i], destinations[k]) {
      PairIsRow(sources, destinations, i, k);
      RowNamesFolders(rows, PairRow(sources[i], destinations[k]));
    }
    if m :| 0 <= m < |rows| && rows[m].destination == Some(destinations[k].id) {
      var i, other := RowIsPair(sources, destinations, rows[m]);
      assert other == k;
    }
  }

  lemma {:induction false} WithoutNone(folders: seq<Folder>, ids: set<FolderId>)
    ensures Without(folders, ids) == [] <==> forall i | 0 <= i < |folders| :: folders[i].id in ids
  {
    if folders != [] {
      WithoutNone(folders[..|folders| - 1], ids);
    }
  }

  /** Green: something is configured, every source matches a destination, and every destination a source. */
  lemma GreenMeans(sources: seq<Folder>, destinations: seq<Folder>)
    requires DistinctIds(sources) && DistinctIds(destinations)
    ensures PreviewOf(sources, destinations).status == Green <==>
              && destinations != []
              && (forall i | 0 <= i < |sources| :: MatchesSome(sources[i], destinations))
              && (forall k | 0 <= k < |destinations| :: MatchedBySome(sources, destinations[k]))
  {
    var rows := MatchRows(sources, destinations);
    WithoutNone(sources, RowSources(rows));
    WithoutNone(destinations, RowDestinations(rows));
    forall i | 0 <= i < |sources| ensures sources[i].id in RowSources(rows) <==> MatchesSome(sources[i], destinations) {
      SourceIsNamed(sources, destinations, i);
    }
    forall k | 0 <= k < |destinations|
      ensures destinations[k].id in RowDestinations(rows) <==> MatchedBySome(sources, destinations[k]) {
      DestinationIsNamed(sources, destinations, k);
    }
    NothingNamed(sources, destinations);
  }

  lemma NothingNamed(sources: seq<Folder>, destinations: seq<Folder>)
    ensures destinations == [] ==> |RowDestinations(MatchRows(sources, destinations))| == 0
    ensures destinations != [] && destinations[0].id in RowDestinations(MatchRows(sources, destinations))
            ==> |RowDestinations(MatchRows(sources, destinations))| > 0
  {
    var rows := MatchRows(sources, destinations);
    if destinations == [] && rows != [] {
      var i, k := RowIsPair(sources, destinations, rows[0]);
      assert false;
    }
  }

  /** A source can deliver exactly when one of its matching destinations is enabled. */
  lemma DeliversIffEnabled(source: Folder, destinations: seq<Folder>, upper: UpperCase)
    requires StoredNormalized(source, upper) && AllNormalized(destinations, upper)
    ensures var r := DeliveryTargets(source.tags, Enabled(destinations), upper);
            r.Resolved? && (r.targets != [] <==>
              exists k | 0 <= k < |destinations| :: destinations[k].enabled && Matches(source, destinations[k]))
  {
    EnabledStayNormalized(destinations, upper);
    TargetsAreSharing(source.tags, Enabled(destinations), upper);
    SharingMeans(source, Enabled(destinations));
    EnabledMeans(destinations);
    var r := DeliveryTargets(source.tags, Enabled(destinations), upper);
    assert |Destinations(r.targets)| == |r.targets|;
  }

  lemma {:induction false} SharingMeans(source: Folder, folders: seq<Folder>)
    ensures Sharing(source.tags, folders) != [] <==> exists f :: f in folders && Matches(source, f)
  {
    if folders != [] {
      var n := |folders| - 1;
      SharingMeans(source, folders[..n]);
      assert folders == folders[..n] + [folders[n]];
      if Matches(source, folders[n]) {
        assert folders[n] in folders;
      }
    }
  }

  lemma {:induction false} EnabledMeans(folders: seq<Folder>)
    ensures forall f :: f in Enabled(folders) <==> f in folders && f.enabled
  {
    if folders != [] {
      var n := |folders| - 1;
      EnabledMeans(folders[..n]);
      assert folders == folders[..n] + [folders[n]];
    }
  }

  /** The start gate: when the preview is green and no destination is disabled, every source has a delivery target. */
  lemma GreenDelivers(sources: seq<Folder>, destinations: seq<Folder>, upper: UpperCase, i: nat)
    requires DistinctIds(sources) && DistinctIds(destinations) && AllNormalized(sources, upper)
             && AllNormalized(destinations, upper)
    requires PreviewOf(sources, destinations).status == Green && i < |sources|
    requires forall k | 0 <= k < |destinations| :: destinations[k].enabled
    ensures var r := DeliveryTargets(sources[i].tags, Enabled(destinations), upper); r.Resolved? && r.targets != []
  {
    GreenMeans(sources, destinations);
    assert StoredNormalized(sources[i], upper);
    DeliversIffEnabled(sources[i], destinations, upper);
  }

  /**
   The preview does not look at `enabled`: with its only destination disabled it is green and nothing is delivered.
   */
  lemma GreenWithoutTargets(upper: UpperCase)
    requires KeepsTagChars(upper)
    ensures var source, destination := Folder(0, ["A"], true), Folder(1, ["A"], false);
            && PreviewOf([source], [destination]).status == Green
            && DeliveryTargets(source.tags, Enabled([destination]), upper) == Resolved([])
  {
    var source, destination := Folder(0, ["A"], true), Folder(1, ["A"], false);
    assert Matches(source, destination) by { assert "A" in Shared(source.tags, destination.tags); }
    OnePairIsGreen(source, destination);
    NothingFromNowhere(source.tags, destination, upper);
  }

  lemma OnePairIsGreen(source: Folder, destination: Folder)
    requires Matches(source, destination)
    ensures PreviewOf([source], [destination]).status == Green
  {
    assert Matches([source][0], destination) && Matches(source, [destination][0]);
    GreenMeans([source], [destination]);
  }

  lemma NothingFromNowhere(tags: seq<string>, destination: Folder, upper: UpperCase)
    requires tags == ["A"] && KeepsTagChars(upper) && !destination.enabled
    ensures DeliveryTargets(tags, Enabled([destination]), upper) == Resolved([])
  {
    CollectOfTags(tags, upper);
    assert Enabled([destination]) == [];
  }

  ghost predicate SomeMatch(sources: seq<Folder>, destinations: seq<Folder>) {
    exists i | 0 <= i < |sources| :: MatchesSome(sources[i], destinations)
  }

  ghost predicate NoneLeftOver(sources: seq<Folder>, destinations: seq<Folder>) {
    && (forall i | 0 <= i < |sources| :: MatchesSome(sources[i], destinations))
    && (forall k | 0 <= k < |destinations| :: MatchedBySome(sources, destinations[k]))
  }

  /** Red: no source matches any destination. Otherwise yellow if a source or a destination is left over, else green. */
  lemma StatusIsDecided(sources: seq<Folder>, destinations: seq<Folder>)
    requires DistinctIds(sources) && DistinctIds(destinations)
    ensures PreviewOf(sources, destinations).status
            == if !SomeMatch(sources, destinations) then Red
               else if NoneLeftOver(sources, destinations) then Green else Yellow
  {
    assert PreviewOf(sources, destinations).status == Green <==>
             destinations != [] && NoneLeftOver(sources, destinations) by {
      GreenMeans(sources, destinations);
    }
    RedMeans(sources, destinations);
  }

  lemma RedMeans(sources: seq<Folder>, destinations: seq<Folder>)
    ensures PreviewOf(sources, destinations).status == Red <==> !SomeMatch(sources, destinations)
    ensures SomeMatch(sources, destinations) ==> destinations != []
  {
    var rows := MatchRows(sources, destinations);
    if i :| 0 <= i < |sources| && MatchesSome(sources[i], destinations) {
      var k :| 0 <= k < |destinations| && Matches(sources[i], destinations[k]);
      PairIsRow(sources, destinations, i, k);
      RowNamesFolders(rows, PairRow(sources[i], destinations[k]));
      assert RowDestinations(rows) != {};
    }
    if RowDestinations(rows) != {} {
      var id :| id in RowDestinations(rows);
      var m :| 0 <= m < |rows| && rows[m].destination.Some? && rows[m].destination.value == id;
      var i, k := RowIsPair(sources, destinations, rows[m]);
      assert MatchesSome(sources[i], destinations);
    }
  }
}
