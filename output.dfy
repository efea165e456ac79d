/**
 * get_output_data: the activities as the JSON-ready value that is dumped to the output
 * file, `{"activities": [{"id", "timestamp", "trackpoints": [{"latitude", "longitude",
 * "altitude_meters", "timestamp"}]}]}`, every absent text as null.
 */
module Output {
  import opened Wrappers
  import opened TcxFlatten

  /** The JSON values the output is made of; an object is a dictionary, its key order unspecified. */
  datatype Json = Null | Str(s: string) | Arr(items: seq<Json>) | Obj(fields: map<string, Json>)

  /** A raw text as a JSON value: None becomes null. */
  function TextJson(text: Option<string>): Json
  {
    match text
    case None => Null
    case Some(s) => Str(s)
  }

  function TrackpointJson(tp: Trackpoint): Json
  {
    Obj(map[
      "latitude" := TextJson(tp.latitude),
      "longitude" := TextJson(tp.longitude),
      "altitude_meters" := TextJson(tp.altitudeMeters),
      "timestamp" := TextJson(tp.timestamp)])
  }

  /** One trackpoint object per trackpoint, in order. */
  function TrackpointsJson(tps: seq<Trackpoint>): seq<Json>
  {
    seq(|tps|, k requires 0 <= k < |tps| => TrackpointJson(tps[k]))
  }

  function ActivityJson(a: Activity): Json
  {
    Obj(map[
      "id" := TextJson(a.id),
      "timestamp" := TextJson(a.timestamp),
      "trackpoints" := Arr(TrackpointsJson(a.trackpoints))])
  }

  /** One activity object per activity, in order. */
  function ActivitiesJson(activities: seq<Activity>): seq<Json>
  {
    seq(|activities|, i requires 0 <= i < |activities| => ActivityJson(activities[i]))
  }

  /** The whole output document: one key, "activities", holding one entry per activity. */
  function OutputDocument(activities: seq<Activity>): (r: Json)
    ensures r.Obj? && r.fields.Keys == {"activities"}
    ensures r.fields["activities"].Arr? && |r.fields["activities"].items| == |activities|
  {
    Obj(map["activities" := Arr(ActivitiesJson(activities))])
  }

  /** The loops of get_output_data. */
  method GetOutputData(activities: seq<Activity>) returns (doc: Json)
    ensures doc == OutputDocument(activities)
  {
    var outputActivities: seq<Json> := [];
    for i := 0 to |activities|
      invariant |outputActivities| == i
      invariant forall m :: 0 <= m < i ==> outputActivities[m] == ActivityJson(activities[m])
    {
      var activity := activities[i];
      var outputTrackpoints: seq<Json> := [];
      for k := 0 to |activity.trackpoints|
        invariant |outputTrackpoints| == k
        invariant forall m :: 0 <= m < k ==> outputTrackpoints[m] == TrackpointJson(activity.trackpoints[m])
      {
        var trackpoint := activity.trackpoints[k];
        var outputTrackpoint := Obj(map[
          "latitude" := TextJson(trackpoint.latitude),
          "longitude" := TextJson(trackpoint.longitude),
          "altitude_meters" := TextJson(trackpoint.altitudeMeters),
          "timestamp" := TextJson(trackpoint.timestamp)]);
        outputTrackpoints := outputTrackpoints + [outputTrackpoint];
      }
      assert outputTrackpoints == TrackpointsJson(activity.trackpoints);
      var outputActivity := Obj(map[
        "id" := TextJson(activity.id),
        "timestamp" := TextJson(activity.timestamp),
        "trackpoints" := Arr(outputTrackpoints)]);
      outputActivities := outputActivities + [outputActivity];
    }
    assert outputActivities == ActivitiesJson(activities);
    doc := Obj(map["activities" := Arr(outputActivities)]);
  }

  // ---------------------------------------------------------------------------
  // Reading the document back: the partner of OutputDocument

  /** A JSON text field: null or a string. */
  function DecodeText(j: Json): Option<Option<string>>
  {
    match j
    case Null => Some(None)
    case Str(s) => Some(Some(s))
    case _ => None
  }

  /** A trackpoint object: exactly its four fields, each null or a string. */
  function DecodeTrackpoint(j: Json): Option<Trackpoint>
  {
    if !j.Obj? || j.fields.Keys != {"latitude", "longitude", "altitude_meters", "timestamp"} then None
    else
      var latitude := DecodeText(j.fields["latitude"]);
      var longitude := DecodeText(j.fields["longitude"]);
      var altitude := DecodeText(j.fields["altitude_meters"]);
      var timestamp := DecodeText(j.fields["timestamp"]);
      if latitude.None? || longitude.None? || altitude.None? || timestamp.None? then None
      else Some(Trackpoint(latitude.value, longitude.value, altitude.value, timestamp.value))
  }

  function DecodeTrackpoints(items: seq<Json>): Option<seq<Trackpoint>>
  {
    if items == [] then Some([])
    else
      match (DecodeTrackpoint(items[0]), DecodeTrackpoints(items[1..]))
      case (Some(tp), Some(rest)) => Some([tp] + rest)
      case _ => None
  }

  /** An activity object: exactly its three fields, the last an array of trackpoint objects. */
  function DecodeActivity(j: Json): Option<Activity>
  {
    if !j.Obj? || j.fields.Keys != {"id", "timestamp", "trackpoints"} then None
    else
      var id := DecodeText(j.fields["id"]);
      var timestamp := DecodeText(j.fields["timestamp"]);
      var trackpoints := j.fields["trackpoints"];
      if id.None? || timestamp.None? || !trackpoints.Arr? then None
      else
        match DecodeTrackpoints(trackpoints.items)
        case None => None
        case Some(tps) => Some(Activity(id.value, timestamp.value, tps))
  }

  function DecodeActivities(items: seq<Json>): Option<seq<Activity>>
  {
    if items == [] then Some([])
    else
      match (DecodeActivity(items[0]), DecodeActivities(items[1..]))
      case (Some(a), Some(rest)) => Some([a] + rest)
      case _ => None
  }

  /** The output document: an object whose single key "activities" holds an array of activities. */
  function DecodeDocument(j: Json): Option<seq<Activity>>
  {
    if !j.Obj? || j.fields.Keys != {"activities"} || !j.fields["activities"].Arr? then None
    else DecodeActivities(j.fields["activities"].items)
  }

  lemma {:induction false} TrackpointsRoundTrip(tps: seq<Trackpoint>)
    ensures DecodeTrackpoints(TrackpointsJson(tps)) == Some(tps)
    decreases |tps|
  {
    var items := TrackpointsJson(tps);
    if tps != [] {
      var tp := tps[0];
      assert DecodeTrackpoint(items[0]) == Some(tp) by {
        var fields := items[0].fields;
        assert fields.Keys == {"latitude", "longitude", "altitude_meters", "timestamp"};
        assert DecodeText(TextJson(tp.latitude)) == Some(tp.latitude);
        assert DecodeText(TextJson(tp.longitude)) == Some(tp.longitude);
        assert DecodeText(TextJson(tp.altitudeMeters)) == Some(tp.altitudeMeters);
        assert DecodeText(TextJson(tp.timestamp)) == Some(tp.timestamp);
      }
      assert items[1..] == TrackpointsJson(tps[1..]);
      TrackpointsRoundTrip(tps[1..]);
      assert [tp] + tps[1..] == tps;
    }
  }

  lemma ActivityRoundTrip(a: Activity)
    ensures DecodeActivity(ActivityJson(a)) == Some(a)
  {
    var items := TrackpointsJson(a.trackpoints);
    var fields := ActivityJson(a).fields;
    assert fields.Keys == {"id", "timestamp", "trackpoints"};
    assert fields["trackpoints"] == Arr(items);
    assert DecodeText(fields["id"]) == Some(a.id);
    assert DecodeText(fields["timestamp"]) == Some(a.timestamp);
    TrackpointsRoundTrip(a.trackpoints);
    assert DecodeTrackpoints(fields["trackpoints"].items) == Some(a.trackpoints);
  }

  lemma {:induction false} ActivitiesRoundTrip(acts: seq<Activity>)
    ensures DecodeActivities(ActivitiesJson(acts)) == Some(acts)
    decreases |acts|
  {
    var items := ActivitiesJson(acts);
    if acts != [] {
      ActivityRoundTrip(acts[0]);
      assert items[1..] == ActivitiesJson(acts[1..]);
      ActivitiesRoundTrip(acts[1..]);
      assert [acts[0]] + acts[1..] == acts;
    }
  }

  /**
   * The output document holds the activities and nothing else: reading it back gives
   * every activity and every trackpoint, in order, with every field as it was.
   */
  lemma OutputRoundTrip(activities: seq<Activity>)
    ensures DecodeDocument(OutputDocument(activities)) == Some(activities)
  {
    ActivitiesRoundTrip(activities);
  }

  /**
   * The document has the single key "activities"; its i-th entry is the i-th activity
   * with keys id, timestamp and trackpoints, and the k-th entry of that is the k-th
   * trackpoint with its four keys; every field is the record's field.
   */
  lemma OutputShape(activities: seq<Activity>)
    ensures var doc := OutputDocument(activities);
      && doc.Obj? && doc.fields.Keys == {"activities"}
      && doc.fields["activities"].Arr? && |doc.fields["activities"].items| == |activities|
      && forall i :: 0 <= i < |activities| ==>
           var a, item := activities[i], doc.fields["activities"].items[i];
           && item.Obj? && item.fields.Keys == {"id", "timestamp", "trackpoints"}
           && item.fields["id"] == TextJson(a.id)
           && item.fields["timestamp"] == TextJson(a.timestamp)
           && item.fields["trackpoints"].Arr?
           && |item.fields["trackpoints"].items| == |a.trackpoints|
           && forall k :: 0 <= k < |a.trackpoints| ==>
                var tp, point := a.trackpoints[k], item.fields["trackpoints"].items[k];
                && point.Obj? && point.fields.Keys == {"latitude", "longitude", "altitude_meters", "timestamp"}
                && point.fields["latitude"] == TextJson(tp.latitude)
                && point.fields["longitude"] == TextJson(tp.longitude)
                && point.fields["altitude_meters"] == TextJson(tp.altitudeMeters)
                && point.fields["timestamp"] == TextJson(tp.timestamp)
  {
  }
}
