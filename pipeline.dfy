/**
 * The conversion part of main: collect the activities of every document given, in
 * argument order, then shape them for output. Reading the files, the command line, the
 * output file name and writing the JSON are not part of this model.
 */
module Pipeline {
  import opened Wrappers
  import opened ElementTree
  import opened Accumulate
  import opened TcxFlatten
  import opened Output

  /**
   * All or nothing: a document is produced exactly when every file converts, and it holds
   * the activities of all files, file after file; otherwise the run fails with the error of
   * the first file that fails.
   */
  method Convert(roots: seq<Element>) returns (r: Result<Json, Error>)
    ensures r.Success? <==> forall i :: 0 <= i < |roots| ==> ParseTcx(roots[i]).Success?
    ensures r.Success? ==>
      FlatMap(ParseTcx, roots).Success? && DecodeDocument(r.value) == Some(FlatMap(ParseTcx, roots).value)
    ensures r.Failure? ==>
      exists i :: (0 <= i < |roots| && ParseTcx(roots[i]) == Failure(r.error) &&
                   forall j :: 0 <= j < i ==> ParseTcx(roots[j]).Success?)
  {
    FlatMapOutcome(ParseTcx, roots);
    var activities := CollectActivities(roots);
    if activities.Failure? {
      return Failure(activities.error);
    }
    var outputData := GetOutputData(activities.value);
    OutputRoundTrip(activities.value);
    return Success(outputData);
  }

  /** In the output, every activity's "id" and "timestamp" are the same value. */
  lemma OutputIdIsTimestamp(roots: seq<Element>)
    requires FlatMap(ParseTcx, roots).Success?
    ensures var doc := OutputDocument(FlatMap(ParseTcx, roots).value);
      forall item :: item in doc.fields["activities"].items ==> item.fields["id"] == item.fields["timestamp"]
  {
    CollectedTimestampIsId(roots);
  }

  /**
   * A document with one activity, Id "123", holding one trackpoint with latitude "45.0",
   * longitude "-93.0", time "2020-01-01T00:00:00Z" and no altitude.
   */
  const ExampleTime: Element := Element(TimeTag, Some("2020-01-01T00:00:00Z"), [])
  const ExampleLatitude: Element := Element(LatitudeTag, Some("45.0"), [])
  const ExampleLongitude: Element := Element(LongitudeTag, Some("-93.0"), [])
  const ExamplePosition: Element := Element(PositionTag, None, [ExampleLatitude, ExampleLongitude])
  const ExampleTrackpoint: Element := Element(TrackpointTag, None, [ExampleTime, ExamplePosition])
  const ExampleTrack: Element := Element(Namespace + "Track", None, [ExampleTrackpoint])
  const ExampleId: Element := Element(IdTag, Some("123"), [])
  const ExampleLap: Element := Element(Namespace + "Lap", None, [ExampleTrack])
  const ExampleActivity: Element := Element(ActivityTag, None, [ExampleId, ExampleLap])
  const ExampleActivities: Element := Element(Namespace + "Activities", None, [ExampleActivity])
  const ExampleRoot: Element := Element(Namespace + "TrainingCenterDatabase", None, [ExampleActivities])

  /**
   * The lengths of the qualified tags, which tell tags of different lengths apart;
   * Position and Activity have the same length and differ in their first letter.
   */
  lemma TagLengths()
    ensures PositionTag != ActivityTag
    ensures |ActivityTag| == |Namespace| + 8 && |TrackpointTag| == |Namespace| + 10
    ensures |TimeTag| == |Namespace| + 4 && |PositionTag| == |Namespace| + 8
    ensures |LatitudeTag| == |Namespace| + 15 && |LongitudeTag| == |Namespace| + 16
    ensures |IdTag| == |Namespace| + 2 && |AltitudeTag| == |Namespace| + 14
  {
    assert PositionTag[|Namespace|] == 'P';
  }

  /** The example trackpoint's one Position child. */
  lemma ExamplePositionStep()
    ensures Step([ExampleTrackpoint], PositionTag) == [ExamplePosition]
  {
    TagLengths();
    assert [ExampleTrackpoint][1..] == [];
    assert ExampleTrackpoint.children[1..] == [ExamplePosition];
    assert [ExamplePosition][1..] == [];
    assert Tagged(ExampleTrackpoint.children, PositionTag) == [ExamplePosition];
  }

  /** The two-step lookup of the example trackpoint's latitude node. */
  lemma ExampleLatitudeLookup()
    ensures Find(ExampleTrackpoint, [PositionTag, LatitudeTag]) == Some(ExampleLatitude)
  {
    TagLengths();
    ExamplePositionStep();
    var coordinates := ExamplePosition.children;
    assert [ExamplePosition][1..] == [] && coordinates[1..] == [ExampleLongitude];
    assert Tagged(coordinates, LatitudeTag) == [ExampleLatitude];
    assert Step([ExamplePosition], LatitudeTag) == [ExampleLatitude];
    assert [PositionTag, LatitudeTag][1..] == [LatitudeTag] && [LatitudeTag][1..] == [];
    assert Select([ExampleTrackpoint], [PositionTag, LatitudeTag]) == Select([ExamplePosition], [LatitudeTag]);
    assert Select([ExamplePosition], [LatitudeTag]) == Select([ExampleLatitude], []);
  }

  /** The two-step lookup of the example trackpoint's longitude node. */
  lemma ExampleLongitudeLookup()
    ensures Find(ExampleTrackpoint, [PositionTag, LongitudeTag]) == Some(ExampleLongitude)
  {
    TagLengths();
    ExamplePositionStep();
    var coordinates := ExamplePosition.children;
    assert [ExamplePosition][1..] == [] && coordinates[1..] == [ExampleLongitude];
    assert [ExampleLongitude][1..] == [];
    assert Tagged(coordinates, LongitudeTag) == [ExampleLongitude];
    assert Step([ExamplePosition], LongitudeTag) == [ExampleLongitude];
    assert [PositionTag, LongitudeTag][1..] == [LongitudeTag] && [LongitudeTag][1..] == [];
    assert Select([ExampleTrackpoint], [PositionTag, LongitudeTag]) == Select([ExamplePosition], [LongitudeTag]);
    assert Select([ExamplePosition], [LongitudeTag]) == Select([ExampleLongitude], []);
  }

  lemma ExampleChildLookups()
    ensures Find(ExampleTrackpoint, [TimeTag]) == Some(ExampleTime)
    ensures Find(ExampleTrackpoint, [AltitudeTag]) == None
    ensures Find(ExampleActivity, [IdTag]) == Some(ExampleId)
  {
    TagLengths();
    FindChild(ExampleTrackpoint, AltitudeTag);
    FindChild(ExampleTrackpoint, TimeTag);
    FindChild(ExampleActivity, IdTag);
  }

  lemma ExampleActivityFound()
    ensures FindAll(ExampleRoot, ActivityTag) == [ExampleActivity]
  {
    TagLengths();
    IterForestTwo(ExampleLatitude, ExampleLongitude, ActivityTag);
    IterForestTwo(ExampleTime, ExamplePosition, ActivityTag);
    IterForestOne(ExampleTrackpoint, ActivityTag);
    IterForestOne(ExampleTrack, ActivityTag);
    IterForestTwo(ExampleId, ExampleLap, ActivityTag);
    IterForestOne(ExampleActivity, ActivityTag);
    IterForestOne(ExampleActivities, ActivityTag);
  }

  lemma ExampleTrackpointFound()
    ensures FindAll(ExampleActivity, TrackpointTag) == [ExampleTrackpoint]
  {
    TagLengths();
    IterForestTwo(ExampleLatitude, ExampleLongitude, TrackpointTag);
    IterForestTwo(ExampleTime, ExamplePosition, TrackpointTag);
    IterForestOne(ExampleTrackpoint, TrackpointTag);
    IterForestOne(ExampleTrack, TrackpointTag);
    IterForestTwo(ExampleId, ExampleLap, TrackpointTag);
  }

  /** The example's trackpoint element parses to its record, with a null altitude. */
  lemma ExampleTrackpointParses()
    ensures ParseTrackpoint(ExampleTrackpoint) ==
      Success(Some(Trackpoint(Some("45.0"), Some("-93.0"), None, Some("2020-01-01T00:00:00Z"))))
  {
    ExampleLatitudeLookup();
    ExampleLongitudeLookup();
    ExampleChildLookups();
  }

  /** The trackpoint loop over the example activity's one Trackpoint element. */
  lemma ExampleTrackpointsParse()
    ensures FilterMap(ParseTrackpoint, [ExampleTrackpoint]) ==
      Success([Trackpoint(Some("45.0"), Some("-93.0"), None, Some("2020-01-01T00:00:00Z"))])
  {
    ExampleTrackpointParses();
    FilterMapSingle(ParseTrackpoint, ExampleTrackpoint);
  }

  /** The example's activity element parses to its one activity. */
  lemma ExampleActivityParses()
    ensures ParseActivity(ExampleActivity) ==
      Success(Activity(Some("123"), Some("123"),
                       [Trackpoint(Some("45.0"), Some("-93.0"), None, Some("2020-01-01T00:00:00Z"))]))
  {
    ExampleChildLookups();
    ExampleTrackpointFound();
    ExampleTrackpointsParse();
  }

  /** The example document converts to its one activity, whose altitude is null. */
  lemma ExampleConverts()
    ensures ParseTcx(ExampleRoot) ==
      Success([Activity(Some("123"), Some("123"),
                        [Trackpoint(Some("45.0"), Some("-93.0"), None, Some("2020-01-01T00:00:00Z"))])])
  {
    ExampleActivityFound();
    ExampleActivityParses();
    MapAllSingle(ParseActivity, ExampleActivity);
  }

  /** The example's output document: the trackpoint's missing altitude is written as null. */
  lemma ExampleOutput()
    ensures ParseTcx(ExampleRoot).Success?
    ensures OutputDocument(ParseTcx(ExampleRoot).value) ==
      Obj(map["activities" := Arr([
        Obj(map[
          "id" := Str("123"),
          "timestamp" := Str("123"),
          "trackpoints" := Arr([
            Obj(map[
              "latitude" := Str("45.0"),
              "longitude" := Str("-93.0"),
              "altitude_meters" := Null,
              "timestamp" := Str("2020-01-01T00:00:00Z")])])])])])
  {
    ExampleConverts();
    var tp := Trackpoint(Some("45.0"), Some("-93.0"), None, Some("2020-01-01T00:00:00Z"));
    var activity := Activity(Some("123"), Some("123"), [tp]);
    assert TrackpointsJson([tp]) == [TrackpointJson(tp)];
    assert ActivitiesJson([activity]) == [ActivityJson(activity)];
  }
}
