/**
 Three matchers of sources and destinations by shared tags: the delivery worker's, the watcher's, and the one
 behind the saved route preview. They agree, and a green preview lets every source deliver.
 */
module RouteMatching {
  import opened Basics
  import opened RouteTags

  type FolderId = nat

  datatype Folder = Folder(id: FolderId, tags: seq<string>, enabled: bool)

  /** The stored tags are in the form the API insists on. */
  ghost predicate StoredNormalized(f: Folder, upper: UpperCase) {
    Normalize(f.tags, upper) == Tags(f.tags)
  }

  ghost predicate AllNormalized(folders: seq<Folder>, upper: UpperCase) {
    forall i | 0 <= i < |folders| :: StoredNormalized(folders[i], upper)
  }

  function Shared(a: seq<string>, b: seq<string>): set<string> {
    set tag | tag in a && tag in b
  }

  function Enabled(folders: seq<Folder>): seq<Folder> {
    if folders == [] then []
    else
      var last := folders[|folders| - 1];
      Enabled(folders[..|folders| - 1]) + if last.enabled then [last] else []
  }

  // ---------- The delivery worker: resolve_delivery_targets ----------

  datatype Target = Target(destination: Folder, matched: seq<string>)

  /** None where a tag is invalid. */
  datatype Resolution = Resolved(targets: seq<Target>) | BadTag(tag: string)

  function MatchedTags(source: seq<string>, destination: seq<string>): seq<string> {
    if source == [] then []
    else
      var last := source[|source| - 1];
      MatchedTags(source[..|source| - 1], destination) + if last in destination then [last] else []
  }

  function CollectTargets(source: seq<string>, destinations: seq<Folder>, upper: UpperCase): Resolution {
    if destinations == [] then Resolved([])
    else
      var before, last := CollectTargets(source, destinations[..|destinations| - 1], upper),
        destinations[|destinations| - 1];
      var tags := Normalize(last.tags, upper);
      if before.BadTag? then before
      else if tags.InvalidTag? then BadTag(tags.tag)
      else
        var matched := MatchedTags(source, tags.tags);
        if matched == [] then before else Resolved(before.targets + [Target(last, matched)])
  }

  function DeliveryTargets(source: seq<string>, destinations: seq<Folder>, upper: UpperCase): Resolution {
    var tags := Normalize(source, upper);
    if tags.InvalidTag? then BadTag(tags.tag) else CollectTargets(tags.tags, destinations, upper)
  }

  method ResolveDeliveryTargets(source: seq<string>, destinations: seq<Folder>, upper: UpperCase)
    returns (r: Resolution)
    ensures r == DeliveryTargets(source, destinations, upper)
  {
    var sourceTags := NormalizeRouteTags(source, upper);
    if sourceTags.InvalidTag? {
      return BadTag(sourceTags.tag);
    }
    var targets: seq<Target> := [];
    for i := 0 to |destinations|
      invariant CollectTargets(sourceTags.tags, destinations[..i], upper) == Resolved(targets)
    {
      OneMoreResolved(sourceTags.tags, destinations, i, upper);
      var tags := NormalizeRouteTags(destinations[i].tags, upper);
      if tags.InvalidTag? {
        return BadTag(tags.tag);
      }
      var matched := MatchedTags(sourceTags.tags, tags.tags);
      if matched == [] {
        continue;
      }
      targets := targets + [Target(destinations[i], matched)];
    }
    assert destinations[..|destinations|] == destinations;
    r := Resolved(targets);
  }

  lemma CollectMore(source: seq<string>, front: seq<Folder>, last: Folder, upper: UpperCase)
    ensures CollectTargets(source, front + [last], upper) ==
            var before, tags := CollectTargets(source, front, upper), Normalize(last.tags, upper);
            if before.BadTag? then before
            else if tags.InvalidTag? then BadTag(tags.tag)
            else
              var matched := MatchedTags(source, tags.tags);
              if matched == [] then before else Resolved(before.targets + [Target(last, matched)])
  {
    assert (front + [last])[..|front|] == front;
  }

  /** What destination `i` adds to the targets, or ends the resolution with. */
  lemma OneMoreResolved(source: seq<string>, destinations: seq<Folder>, i: nat, upper: UpperCase)
    requires i < |destinations| && CollectTargets(source, destinations[..i], upper).Resolved?
    ensures var targets := CollectTargets(source, destinations[..i], upper).targets;
            var tags := Normalize(destinations[i].tags, upper);
            if tags.InvalidTag? then CollectTargets(source, destinations, upper) == BadTag(tags.tag)
            else
              var matched := MatchedTags(source, tags.tags);
              CollectTargets(source, destinations[..i + 1], upper)
              == Resolved(targets + if matched == [] then [] else [Target(destinations[i], matched)])
  {
    if Normalize(destinations[i].tags, upper).InvalidTag? {
      BadDestinationEnds(source, destinations, i, upper);
    } else {
      CollectMore(source, destinations[..i], destinations[i], upper);
      PrefixGrows(destinations, i);
    }
  }

  lemma BadDestinationEnds(source: seq<string>, destinations: seq<Folder>, i: nat, upper: UpperCase)
    requires i < |destinations| && CollectTargets(source, destinations[..i], upper).Resolved?
    requires Normalize(destinations[i].tags, upper).InvalidTag?
    ensures CollectTargets(source, destinations, upper) == BadTag(Normalize(destinations[i].tags, upper).tag)
  {
    CollectMore(source, destinations[..i], destinations[i], upper);
    PrefixGrows(destinations, i);
    BadTagStays(source, destinations, i + 1, upper);
  }

  lemma {:induction false} BadTagStays(source: seq<string>, destinations: seq<Folder>, n: nat, upper: UpperCase)
    requires n <= |destinations| && CollectTargets(source, destinations[..n], upper).BadTag?
    ensures CollectTargets(source, destinations, upper) == CollectTargets(source, destinations[..n], upper)
    decreases |destinations| - n
  {
    if n == |destinations| {
      assert destinations[..n] == destinations;
    } else {
      CollectMore(source, destinations[..n], destinations[n], upper);
      PrefixGrows(destinations, n);
      BadTagStays(source, destinations, n + 1, upper);
    }
  }

  // ---------- The watcher: match_source_to_destinations ----------

  datatype WatcherMatches = Matched(destinations: seq<Folder>) | MatchBadTag(tag: string)

  function CollectMatches(source: seq<string>, destinations: seq<Folder>, upper: UpperCase): WatcherMatches {
    if destinations == [] then Matched([])
    else
      var before, last := CollectMatches(source, destinations[..|destinations| - 1], upper),
        destinations[|destinations| - 1];
      if before.MatchBadTag? || !last.enabled then before
      else
        var tags := Normalize(last.tags, upper);
        if tags.InvalidTag? then MatchBadTag(tags.tag)
        else if Shared(source, tags.tags) != {} then Matched(before.destinations + [last]) else before
  }

  function MatchSource(source: Folder, destinations: seq<Folder>, upper: UpperCase): WatcherMatches {
    var tags := Normalize(source.tags, upper);
    if tags.InvalidTag? then MatchBadTag(tags.tag) else CollectMatches(tags.tags, destinations, upper)
  }

  method MatchSourceToDestinations(source: Folder, destinations: seq<Folder>, upper: UpperCase)
    returns (r: WatcherMatches)
    ensures r == MatchSource(source, destinations, upper)
  {
    var sourceTags := NormalizeRouteTags(source.tags, upper);
    if sourceTags.InvalidTag? {
      return MatchBadTag(sourceTags.tag);
    }
    var matches: seq<Folder> := [];
    for i := 0 to |destinations|
      invariant CollectMatches(sourceTags.tags, destinations[..i], upper) == Matched(matches)
    {
      assert destinations[..i + 1][..i] == destinations[..i];
      if !destinations[i].enabled {
        continue;
      }
      var tags := NormalizeRouteTags(destinations[i].tags, upper);
      if tags.InvalidTag? {
        MatchBadTagStays(sourceTags.tags, destinations, i + 1, upper);
        return MatchBadTag(tags.tag);
      }
      if Shared(sourceTags.tags, tags.tags) != {} {
        matches := matches + [destinations[i]];
      }
    }
    assert destinations[..|destinations|] == destinations;
    r := Matched(matches);
  }

  lemma MatchBadTagOnceMore(source: seq<string>, front: seq<Folder>, last: Folder, upper: UpperCase)
    requires CollectMatches(source, front, upper).MatchBadTag?
    ensures CollectMatches(source, front + [last], upper) == CollectMatches(source, front, upper)
  {
    assert (front + [last])[..|front|] == front;
  }

  lemma {:induction false} MatchBadTagStays(source: seq<string>, destinations: seq<Folder>, n: nat, upper: UpperCase)
    requires n <= |destinations| && CollectMatches(source, destinations[..n], upper).MatchBadTag?
    ensures CollectMatches(source, destinations, upper) == CollectMatches(source, destinations[..n], upper)
    decreases |destinations| - n
  {
    if n == |destinations| {
      assert destinations[..n] == destinations;
    } else {
      MatchBadTagOnceMore(source, destinations[..n], destinations[n], upper);
      PrefixGrows(destinations, n);
      MatchBadTagStays(source, destinations, n + 1, upper);
    }
  }

  // ---------- What matching means, without any of the three programs ----------

  /** The folders, in order, that share a tag with the source. */
  function Sharing(source: seq<string>, folders: seq<Folder>): seq<Folder> {
    if folders == [] then []
    else
      var last := folders[|folders| - 1];
      Sharing(source, folders[..|folders| - 1]) + if Shared(source, last.tags) != {} then [last] else []
  }

  lemma {:induction false} MatchedTagsAreShared(source: seq<string>, destination: seq<string>)
    ensures forall tag :: tag in MatchedTags(source, destination) <==> tag in source && tag in destination
    ensures MatchedTags(source, destination) == [] <==> Shared(source, destination) == {}
  {
    if source != [] {
      var n := |source| - 1;
      MatchedTagsAreShared(source[..n], destination);
      assert source == source[..n] + [source[n]];
      assert MatchedTags(source, destination) != [] ==>
          MatchedTags(source, destination)[0] in MatchedTags(source, destination);
      if MatchedTags(source, destination) != [] {
        assert MatchedTags(source, destination)[0] in Shared(source, destination);
      }
    }
  }

  function Destinations(targets: seq<Target>): seq<Folder> {
    seq(|targets|, i requires 0 <= i < |targets| => targets[i].destination)
  }

  lemma OneMoreTarget(source: seq<string>, front: seq<Folder>, last: Folder, upper: UpperCase)
    ensures CollectTargets(source, front + [last], upper) ==
            var before, tags := CollectTargets(source, front, upper), Normalize(last.tags, upper);
            if before.BadTag? then before
            else if tags.InvalidTag? then BadTag(tags.tag)
            else if Shared(source, tags.tags) == {} then before
            else Resolved(before.targets + [Target(last, MatchedTags(source, tags.tags))])
  {
    CollectMore(source, front, last, upper);
    if Normalize(last.tags, upper).Tags? {
      MatchedTagsAreShared(source, Normalize(last.tags, upper).tags);
    }
  }

  /** The target lists exactly the tags its destination shares with the source. */
  ghost predicate ShowsShared(source: seq<string>, target: Target) {
    forall tag :: tag in target.matched <==> tag in Shared(source, target.destination.tags)
  }

  ghost predicate ResolvesSharing(r: Resolution, source: seq<string>, destinations: seq<Folder>) {
    && r.Resolved? && Destinations(r.targets) == Sharing(source, destinations)
    && forall i | 0 <= i < |r.targets| :: ShowsShared(source, r.targets[i])
  }

  /** The targets with one more destination whose tags are stored in normal form. */
  function WithTarget(before: seq<Target>, source: seq<string>, last: Folder): seq<Target> {
    before + if Shared(source, last.tags) == {} then [] else [Target(last, MatchedTags(source, last.tags))]
  }

  lemma OneMoreStored(source: seq<string>, front: seq<Folder>, last: Folder, upper: UpperCase)
    requires StoredNormalized(last, upper) && CollectTargets(source, front, upper).Resolved?
    ensures CollectTargets(source, front + [last], upper)
            == Resolved(WithTarget(CollectTargets(source, front, upper).targets, source, last))
  {
    OneMoreTarget(source, front, last, upper);
  }

  lemma OneMoreShares(source: seq<string>, before: seq<Target>, front: seq<Folder>, last: Folder)
    requires ResolvesSharing(Resolved(before), source, front)
    ensures ResolvesSharing(Resolved(WithTarget(before, source, last)), source, front + [last])
  {
    var after := WithTarget(before, source, last);
    MatchedTagsAreShared(source, last.tags);
    assert (front + [last])[..|front|] == front;
    if Shared(source, last.tags) != {} {
      assert Destinations(after) == Destinations(before) + [last];
    } else {
      assert after == before;
    }
  }

  /** Delivery's targets are the sharing destinations in order, each with exactly its shared tags. */
  lemma {:induction false} TargetsAreSharing(source: seq<string>, destinations: seq<Folder>, upper: UpperCase)
    requires AllNormalized(destinations, upper)
    ensures ResolvesSharing(CollectTargets(source, destinations, upper), source, destinations)
  {
    if destinations != [] {
      var n := |destinations| - 1;
      assert destinations == destinations[..n] + [destinations[n]];
      TargetsAreSharing(source, destinations[..n], upper);
      assert StoredNormalized(destinations[n], upper);
      OneMoreStored(source, destinations[..n], destinations[n], upper);
      var earlier := CollectTargets(source, destinations[..n], upper).targets;
      OneMoreShares(source, earlier, destinations[..n], destinations[n]);
    }
  }

  lemma {:induction false} EnabledStayNormalized(folders: seq<Folder>, upper: UpperCase)
    requires AllNormalized(folders, upper)
    ensures AllNormalized(Enabled(folders), upper)
  {
    if folders != [] {
      assert StoredNormalized(folders[|folders| - 1], upper);
      EnabledStayNormalized(folders[..|folders| - 1], upper);
    }
  }

  ghost predicate Agree(delivery: Resolution, watcher: WatcherMatches) {
    match delivery
    case Resolved(targets) => watcher == Matched(Destinations(targets))
    case BadTag(tag) => watcher == MatchBadTag(tag)
  }

  lemma {:induction false} CollectorsAgree(source: seq<string>, destinations: seq<Folder>, upper: UpperCase)
    ensures Agree(CollectTargets(source, Enabled(destinations), upper), CollectMatches(source, destinations, upper))
  {
    if destinations != [] {
      var n := |destinations| - 1;
      var front, last := Enabled(destinations[..n]), destinations[n];
      CollectorsAgree(source, destinations[..n], upper);
      if last.enabled {
        OneMoreTarget(source, front, last, upper);
      } else {
        assert front + [] == front;
      }
    }
  }

  /**
   For every input: the delivery worker, given the enabled destinations, resolves exactly the destinations the watcher
   matches, in the same order, and each refuses the same invalid tag.
   */
  lemma DeliveryAgreesWithWatcher(source: Folder, destinations: seq<Folder>, upper: UpperCase)
    ensures Agree(DeliveryTargets(source.tags, Enabled(destinations), upper), MatchSource(source, destinations, upper))
  {
    if Normalize(source.tags, upper).Tags? {
      CollectorsAgree(Normalize(source.tags, upper).tags, destinations, upper);
    }
  }
}
