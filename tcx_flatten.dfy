/**
 * The conversion step of tcx-flatten: from the element tree of one TCX document to
 * its Activity records (each with its Trackpoint records), and from several documents
 * to one list of activities.
 *
 * Python's AttributeError on `None.text` (a missing `Id` or `Time` node) is the
 * Failure of a Result; the first one met, in document and then argument order, is
 * the one reported, and nothing is produced for the run.
 */
module TcxFlatten {
  import opened Wrappers
  import opened ElementTree
  import opened Accumulate

  /** The Training Center Database namespace every tag below is qualified with. */
  const Namespace: string := "{http://www.garmin.com/xmlschemas/TrainingCenterDatabase/v2}"
  const ActivityTag: string := Namespace + "Activity"
  const IdTag: string := Namespace + "Id"
  const TrackpointTag: string := Namespace + "Trackpoint"
  const PositionTag: string := Namespace + "Position"
  const LatitudeTag: string := Namespace + "LatitudeDegrees"
  const LongitudeTag: string := Namespace + "LongitudeDegrees"
  const AltitudeTag: string := Namespace + "AltitudeMeters"
  const TimeTag: string := Namespace + "Time"

  /** One GPS sample. Every field is the raw text of its node, None when that text is absent. */
  datatype Trackpoint = Trackpoint(
    latitude: Option<string>,
    longitude: Option<string>,
    altitudeMeters: Option<string>,
    timestamp: Option<string>)

  /** One recorded session. */
  datatype Activity = Activity(id: Option<string>, timestamp: Option<string>, trackpoints: seq<Trackpoint>)

  /** The lookups whose failure aborts the run. */
  datatype Error =
    | MissingId    // an Activity without an Id child
    | MissingTime  // a positioned Trackpoint without a Time child

  // ---------------------------------------------------------------------------
  // parse_trackpoint_node

  /**
   * One Trackpoint element: Success(None) when it is to be skipped, Success(Some(tp))
   * with the raw texts, or Failure(MissingTime): the only lookup it dereferences
   * unguarded is Time.
   */
  function ParseTrackpoint(node: Element): (r: Result<Option<Trackpoint>, Error>)
    ensures r.Failure? ==> r.error == MissingTime
  {
    var latitudeNode := Find(node, [PositionTag, LatitudeTag]);
    var longitudeNode := Find(node, [PositionTag, LongitudeTag]);
    var altitudeNode := Find(node, [AltitudeTag]);
    if latitudeNode.None? || longitudeNode.None? then Success(None)
    else
      var timeNode := Find(node, [TimeTag]);
      if timeNode.None? then Failure(MissingTime)
      else
        var altitude := if altitudeNode.None? then None else altitudeNode.value.text;
        Success(Some(Trackpoint(latitudeNode.value.text, longitudeNode.value.text, altitude, timeNode.value.text)))
  }

  /** The element has both a Position/LatitudeDegrees and a Position/LongitudeDegrees node. */
  ghost predicate HasPosition(node: Element)
  {
    HasPath(node, PositionTag, LatitudeTag) && HasPath(node, PositionTag, LongitudeTag)
  }

  /**
   * The three outcomes, by node presence alone (texts play no part): skipped exactly when
   * a coordinate node is missing; failing exactly when both are present and Time is not;
   * kept exactly when all three are present.
   */
  lemma TrackpointOutcome(node: Element)
    ensures ParseTrackpoint(node) == Success(None) <==> !HasPosition(node)
    ensures ParseTrackpoint(node) == Failure(MissingTime) <==> HasPosition(node) && !HasChild(node, TimeTag)
    ensures (ParseTrackpoint(node).Success? && ParseTrackpoint(node).value.Some?) <==>
      HasPosition(node) && HasChild(node, TimeTag)
  {
    FindPath(node, PositionTag, LatitudeTag);
    FindPath(node, PositionTag, LongitudeTag);
    FindChild(node, TimeTag);
  }

  /**
   * A kept trackpoint carries, unmodified, the texts of the first LatitudeDegrees and the
   * first LongitudeDegrees node under a Position child, in document order, and of the
   * first Time child.
   */
  lemma TrackpointFields(node: Element)
    requires ParseTrackpoint(node).Success? && ParseTrackpoint(node).value.Some?
    ensures var tp := ParseTrackpoint(node).value.value;
      && (exists g :: IsFirstPath(node, PositionTag, LatitudeTag, g) && tp.latitude == g.text)
      && (exists g :: IsFirstPath(node, PositionTag, LongitudeTag, g) && tp.longitude == g.text)
      && (exists t :: IsFirstChild(node, TimeTag, t) && tp.timestamp == t.text)
  {
    FindPath(node, PositionTag, LatitudeTag);
    FindPath(node, PositionTag, LongitudeTag);
    FindChild(node, TimeTag);
    var latitudeNode := Find(node, [PositionTag, LatitudeTag]).value;
    var longitudeNode := Find(node, [PositionTag, LongitudeTag]).value;
    assert IsFirstPath(node, PositionTag, LatitudeTag, latitudeNode);
    assert IsFirstPath(node, PositionTag, LongitudeTag, longitudeNode);
  }

  /**
   * A kept trackpoint's altitude is None when there is no AltitudeMeters child, and
   * otherwise the text of the first one.
   */
  lemma TrackpointAltitude(node: Element)
    requires ParseTrackpoint(node).Success? && ParseTrackpoint(node).value.Some?
    ensures var tp := ParseTrackpoint(node).value.value;
      && (!HasChild(node, AltitudeTag) ==> tp.altitudeMeters == None)
      && (forall a :: IsFirstChild(node, AltitudeTag, a) ==> tp.altitudeMeters == a.text)
  {
    FindChild(node, AltitudeTag);
    forall a | IsFirstChild(node, AltitudeTag, a)
      ensures ParseTrackpoint(node).value.value.altitudeMeters == a.text
    {
      FirstChildUnique(node, AltitudeTag, a, Find(node, [AltitudeTag]).value);
    }
  }

  // ---------------------------------------------------------------------------
  // parse_tcx_file

  /** The elements of `nodes` that have a position, in order: the trackpoints to keep. */
  ghost function Positioned(nodes: seq<Element>): (r: seq<Element>)
    ensures |r| <= |nodes|
    decreases |nodes|
  {
    if nodes == [] then []
    else
      var last := nodes[|nodes| - 1];
      Positioned(nodes[..|nodes| - 1]) + (if HasPosition(last) then [last] else [])
  }

  lemma {:induction false} KeptIsPositioned(nodes: seq<Element>)
    requires forall i :: 0 <= i < |nodes| ==> ParseTrackpoint(nodes[i]).Success?
    ensures Kept(ParseTrackpoint, nodes) == Positioned(nodes)
    decreases |nodes|
  {
    if nodes != [] {
      var init, last := nodes[..|nodes| - 1], nodes[|nodes| - 1];
      forall i | 0 <= i < |init| ensures init[i] == nodes[i] { }
      KeptIsPositioned(init);
      TrackpointOutcome(last);
    }
  }

  /**
   * The inner loop of parse_tcx_file succeeds exactly when no Trackpoint element has a
   * position without a Time child, and can fail only with MissingTime.
   */
  lemma TrackpointsSucceed(nodes: seq<Element>)
    ensures FilterMap(ParseTrackpoint, nodes).Success? <==>
      forall t :: t in nodes ==> !(HasPosition(t) && !HasChild(t, TimeTag))
    ensures FilterMap(ParseTrackpoint, nodes).Failure? ==>
      FilterMap(ParseTrackpoint, nodes).error == MissingTime
  {
    FilterMapOutcome(ParseTrackpoint, nodes);
    forall t | t in nodes ensures ParseTrackpoint(t).Success? <==> !(HasPosition(t) && !HasChild(t, TimeTag)) {
      TrackpointOutcome(t);
    }
    if FilterMap(ParseTrackpoint, nodes).Failure? {
      var i :| 0 <= i < |nodes| && ParseTrackpoint(nodes[i]) == Failure(FilterMap(ParseTrackpoint, nodes).error);
      TrackpointOutcome(nodes[i]);
    }
  }

  /**
   * The trackpoints of an activity are the filter-map of ParseTrackpoint over its
   * Trackpoint elements: the k-th record is the one parsed from the k-th element that has
   * a position, so there are at most as many records as elements.
   */
  lemma TrackpointsFilterMap(nodes: seq<Element>)
    requires FilterMap(ParseTrackpoint, nodes).Success?
    ensures var tps := FilterMap(ParseTrackpoint, nodes).value;
      |tps| == |Positioned(nodes)| <= |nodes| &&
      forall k :: 0 <= k < |tps| ==> ParseTrackpoint(Positioned(nodes)[k]) == Success(Some(tps[k]))
  {
    FilterMapOutcome(ParseTrackpoint, nodes);
    FilterMapValues(ParseTrackpoint, nodes);
    KeptIsPositioned(nodes);
  }

  /**
   * One Activity element: its Id text (twice) and its parsed Trackpoint descendants. The
   * Id is looked up first, so a missing Id is reported whatever the trackpoints hold.
   */
  function ParseActivity(node: Element): (r: Result<Activity, Error>)
    ensures Find(node, [IdTag]).None? ==> r == Failure(MissingId)
    ensures r.Success? ==> r.value.timestamp == r.value.id
    ensures r.Success? ==> |r.value.trackpoints| <= |FindAll(node, TrackpointTag)|
  {
    match Find(node, [IdTag])
    case None => Failure(MissingId)
    case Some(idNode) =>
      match FilterMap(ParseTrackpoint, FindAll(node, TrackpointTag))
      case Failure(err) => Failure(err)
      case Success(tps) => Success(Activity(idNode.text, idNode.text, tps))
  }

  /**
   * An activity fails with MissingId exactly when it has no Id child (the Id is looked up
   * before any trackpoint). Otherwise its id and its timestamp are both the text of its
   * first Id child, and its trackpoints are those of all its Trackpoint descendants, at
   * most one per descendant.
   */
  lemma ActivityFields(node: Element)
    ensures ParseActivity(node) == Failure(MissingId) <==> !HasChild(node, IdTag)
    ensures ParseActivity(node).Success? <==>
      HasChild(node, IdTag) && FilterMap(ParseTrackpoint, FindAll(node, TrackpointTag)).Success?
    ensures ParseActivity(node).Success? ==>
      var a := ParseActivity(node).value;
      && a.timestamp == a.id
      && (exists idNode :: IsFirstChild(node, IdTag, idNode) && a.id == idNode.text)
      && FilterMap(ParseTrackpoint, FindAll(node, TrackpointTag)) == Success(a.trackpoints)
      && |a.trackpoints| <= |FindAll(node, TrackpointTag)|
  {
    FindChild(node, IdTag);
    TrackpointsSucceed(FindAll(node, TrackpointTag));
    if ParseActivity(node).Success? {
      TrackpointsFilterMap(FindAll(node, TrackpointTag));
    }
  }

  /** parse_tcx_file from the root of the parsed document onward: one record per Activity element. */
  function ParseTcx(root: Element): (r: Result<seq<Activity>, Error>)
    ensures r.Success? ==> |r.value| == |FindAll(root, ActivityTag)|
  {
    MapAll(ParseActivity, FindAll(root, ActivityTag))
  }

  /**
   * A document yields one record per Activity descendant of the root, in document order,
   * each with its timestamp equal to its id.
   */
  lemma ParseTcxActivities(root: Element)
    requires ParseTcx(root).Success?
    ensures var nodes, acts := FindAll(root, ActivityTag), ParseTcx(root).value;
      && |acts| == |nodes|
      && forall i :: 0 <= i < |nodes| ==>
           ParseActivity(nodes[i]) == Success(acts[i]) && acts[i].timestamp == acts[i].id
  {
    var nodes := FindAll(root, ActivityTag);
    MapAllValues(ParseActivity, nodes);
    forall i | 0 <= i < |nodes| ensures ParseTcx(root).value[i].timestamp == ParseTcx(root).value[i].id {
      ActivityFields(nodes[i]);
    }
  }

  /**
   * A document converts exactly when each of its Activity descendants has an Id child and
   * none of their Trackpoint descendants has a position without a Time child.
   */
  lemma ParseTcxSucceeds(root: Element)
    ensures ParseTcx(root).Success? <==>
      forall a :: a in FindAll(root, ActivityTag) ==>
        HasChild(a, IdTag) &&
        forall t :: t in FindAll(a, TrackpointTag) ==> !(HasPosition(t) && !HasChild(t, TimeTag))
  {
    var nodes := FindAll(root, ActivityTag);
    MapAllOutcome(ParseActivity, nodes);
    forall a | a in nodes
      ensures ParseActivity(a).Success? <==>
        HasChild(a, IdTag) &&
        forall t :: t in FindAll(a, TrackpointTag) ==> !(HasPosition(t) && !HasChild(t, TimeTag))
    {
      ActivityFields(a);
      TrackpointsSucceed(FindAll(a, TrackpointTag));
    }
  }

  /** An Activity element without an Id child makes its whole document fail. */
  lemma MissingIdFailsFile(root: Element, a: Element)
    requires a in FindAll(root, ActivityTag) && !HasChild(a, IdTag)
    ensures ParseTcx(root).Failure?
  {
    ParseTcxSucceeds(root);
  }

  /** The body of parse_tcx_file's loop: one Activity element, its Id, then its trackpoints. */
  method ParseActivityNode(activityNode: Element) returns (r: Result<Activity, Error>)
    ensures r == ParseActivity(activityNode)
  {
    var idNode := Find(activityNode, [IdTag]);
    if idNode.None? {
      return Failure(MissingId);
    }
    var activityId := idNode.value.text;
    var activityTimestamp := activityId;
    var activityTrackpoints: seq<Trackpoint> := [];
    var trackpointNodes := FindAll(activityNode, TrackpointTag);
    for j := 0 to |trackpointNodes|
      invariant FilterMap(ParseTrackpoint, trackpointNodes[..j]) == Success(activityTrackpoints)
    {
      var trackpoint := ParseTrackpoint(trackpointNodes[j]);
      FilterMapStep(ParseTrackpoint, trackpointNodes, j);
      if trackpoint.Failure? {
        FilterMapPrefixFailure(ParseTrackpoint, trackpointNodes, j + 1);
        assert trackpointNodes[..|trackpointNodes|] == trackpointNodes;
        return Failure(trackpoint.error);
      }
      if trackpoint.value.Some? {
        activityTrackpoints := activityTrackpoints + [trackpoint.value.value];
      }
    }
    assert trackpointNodes[..|trackpointNodes|] == trackpointNodes;
    return Success(Activity(activityId, activityTimestamp, activityTrackpoints));
  }

  /** The loop of parse_tcx_file, run on the parsed document's root. */
  method ParseTcxFile(root: Element) returns (r: Result<seq<Activity>, Error>)
    ensures r == ParseTcx(root)
  {
    var activities: seq<Activity> := [];
    var activityNodes := FindAll(root, ActivityTag);
    for i := 0 to |activityNodes|
      invariant MapAll(ParseActivity, activityNodes[..i]) == Success(activities)
    {
      var activity := ParseActivityNode(activityNodes[i]);
      MapAllStep(ParseActivity, activityNodes, i);
      if activity.Failure? {
        MapAllPrefixFailure(ParseActivity, activityNodes, i + 1);
        return Failure(activity.error);
      }
      activities := activities + [activity.value];
    }
    assert activityNodes[..|activityNodes|] == activityNodes;
    return Success(activities);
  }

  // ---------------------------------------------------------------------------
  // main: activities.extend(parse_tcx_file(f)) for each file, in argument order

  /** Two files of one activity each give two activities, the first file's first. */
  lemma CollectedTwoFiles(a: Element, b: Element, x: Activity, y: Activity)
    requires ParseTcx(a) == Success([x]) && ParseTcx(b) == Success([y])
    ensures FlatMap(ParseTcx, [a, b]) == Success([x, y])
  {
    FlatMapSingle(ParseTcx, a);
    FlatMapSingle(ParseTcx, b);
    FlatMapAppend(ParseTcx, [a], [b]);
    assert [a] + [b] == [a, b];
    assert [x] + [y] == [x, y];
  }

  /** Every collected activity, from whichever file, has its timestamp equal to its id. */
  lemma {:induction false} CollectedTimestampIsId(roots: seq<Element>)
    requires FlatMap(ParseTcx, roots).Success?
    ensures forall a :: a in FlatMap(ParseTcx, roots).value ==> a.timestamp == a.id
    decreases |roots|
  {
    if roots != [] {
      var init, last := roots[..|roots| - 1], roots[|roots| - 1];
      CollectedTimestampIsId(init);
      ParseTcxActivities(last);
    }
  }

  /** The extend loop of main: the activities of every file, file after file. */
  method CollectActivities(roots: seq<Element>) returns (r: Result<seq<Activity>, Error>)
    ensures r == FlatMap(ParseTcx, roots)
  {
    var activities: seq<Activity> := [];
    for i := 0 to |roots|
      invariant FlatMap(ParseTcx, roots[..i]) == Success(activities)
    {
      var parsed := ParseTcxFile(roots[i]);
      FlatMapStep(ParseTcx, roots, i);
      if parsed.Failure? {
        FlatMapPrefixFailure(ParseTcx, roots, i + 1);
        return Failure(parsed.error);
      }
      activities := activities + parsed.value;
    }
    assert roots[..|roots|] == roots;
    return Success(activities);
  }
}
