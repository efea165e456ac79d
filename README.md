# tcx-flatten in Dafny

tcx-flatten turns one or more TCX (Training Center XML) activity files into a single
JSON document, `{"activities": [...]}`. Each activity has an `id`, a `timestamp` and a
list of trackpoints. Each trackpoint has a `latitude`, a `longitude`, an optional
`altitude_meters` and a `timestamp`, all kept as the raw text of their XML nodes.

This project models the conversion step of `tcx-flatten.py`. It starts from an
already-parsed element tree and proves what the conversion promises.

- `wrappers.dfy`, module `Wrappers`: `Option` (Python's `None`) and `Result`.
  `Result` stands for a step that raises: the error reported is the first
  AttributeError raised on `None.text`.
- `element_tree.dfy`, module `ElementTree`: the XML element as a value
  (`Element(tag, text, children)`) and the two ElementTree lookups the program uses.
  - `Find` is `element.find(path)`: it follows the path's child steps and returns the
    first node reached.
  - `FindAll` is `element.findall('.//tag')`: the proper descendants with that tag, in
    pre-order.
  - Lemmas tie both lookups to plain statements about children and descendants.
- `accumulate.dfy`, module `Accumulate`: the three list-building loop shapes of the
  program, as functions of the step each loop runs. `FilterMap` is "append unless None",
  `MapAll` is "append" and `FlatMap` is "extend". The first step that raises aborts the
  loop. Lemmas cover the outcome (all or nothing, first error wins) and the values.
- `tcx_flatten.dfy`, module `TcxFlatten`: the `Trackpoint` and `Activity` records
  (the namedtuples of lines 14-15, as datatypes with the same fields in the same order), and
  `parse_trackpoint_node` as the pure function `ParseTrackpoint`. `parse_tcx_file` is the
  method `ParseTcxFile`, proved equal to the function `ParseTcx`. The body of its outer
  loop, with the inner trackpoint loop, is the method `ParseActivityNode`. The `extend`
  loop of `main` is the method `CollectActivities`, proved equal to
  `FlatMap(ParseTcx, roots)`.
- `output.dfy`, module `Output`: `get_output_data` as the method `GetOutputData`, proved
  equal to `OutputDocument`. A decoder reads the document back, and a round-trip lemma
  shows that no activity, trackpoint or field is lost, reordered or changed.
- `pipeline.dfy`, module `Pipeline`: lines 91-95 of `main` (collect, then shape) as
  `Convert`, plus a worked example document.

Every tag is an already-qualified name, `"{http://www.garmin.com/xmlschemas/TrainingCenterDatabase/v2}Trackpoint"`
and so on (`TcxFlatten.Namespace`).

The model follows the code on two points where a looser reading is tempting:
- A trackpoint is skipped when its latitude node or its longitude node is missing, not
  only when both are.
- The skip test is on node presence, not on text. A present node with no text gives a
  record whose field is None (JSON null).

## Model

| member | source | states |
|---|---|---|
| ElementTree.Find | tcx-flatten.py:19-21 | `find(path)` on the empty path finds the element itself, and a node it finds carries the path's last tag; FindChild and FindPath state which node it finds |
| ElementTree.FindAll | tcx-flatten.py:48 | every node `findall('.//tag')` returns carries that tag; FindAllIsTaggedDescendants states that it returns all such descendants, in document order |
| ElementTree.FindChild | tcx-flatten.py:21-28 | a one-step `find` yields the first child with that tag, and None exactly when there is none |
| ElementTree.FindPath | tcx-flatten.py:19-20 | `find('Position/X')` yields None exactly when no Position child has an X child; otherwise it yields the first such grandchild in document order: under the first Position child that has an X child, that child's first X child |
| ElementTree.FindAllIsTaggedDescendants | tcx-flatten.py:41 | `findall('.//tag')` equals the proper descendants in document order, filtered by tag: it finds all of them and nothing else |
| TcxFlatten.ParseTrackpoint | tcx-flatten.py:17-34 | can fail only with MissingTime, because Time is the one node whose text is read without a None check; TrackpointOutcome, TrackpointFields and TrackpointAltitude state its outcomes and fields |
| TcxFlatten.TrackpointOutcome | tcx-flatten.py:19-34 | skipped exactly when the latitude or longitude node is absent, whatever else is there; fails with MissingTime exactly when both are present and Time is not; kept exactly when all three are present |
| TcxFlatten.TrackpointFields | tcx-flatten.py:26-28 | a kept record's latitude and longitude are the texts of the first Position/LatitudeDegrees and the first Position/LongitudeDegrees node in document order, and its timestamp is the first Time child's text, all unmodified |
| TcxFlatten.TrackpointAltitude | tcx-flatten.py:29-32 | a kept record's altitude is None when there is no AltitudeMeters child, and otherwise the first such child's text |
| TcxFlatten.TrackpointsSucceed | tcx-flatten.py:48-52 | the trackpoint loop succeeds exactly when no Trackpoint element has a position without a Time child, and can fail only with MissingTime |
| TcxFlatten.TrackpointsFilterMap | tcx-flatten.py:48-52 | the trackpoints are the parsed records of the positioned Trackpoint elements, in order, so there are at most as many as elements |
| TcxFlatten.ParseActivity | tcx-flatten.py:44-54 | a missing Id child gives MissingId whatever the trackpoints hold; a parsed activity has timestamp equal to id and at most one trackpoint per Trackpoint descendant; ActivityFields states the rest |
| TcxFlatten.ActivityFields | tcx-flatten.py:44-54 | an activity fails with MissingId exactly when it has no Id child; otherwise id and timestamp are both the first Id child's text, and its trackpoints are those of all its Trackpoint descendants |
| TcxFlatten.ParseTcx | tcx-flatten.py:39-57 | a converted document has exactly one activity per Activity descendant of the root; ParseTcxActivities and ParseTcxSucceeds state which activities, and when it converts |
| TcxFlatten.ParseTcxActivities | tcx-flatten.py:41-55 | a converted document has one activity per Activity descendant of the root, in document order, each parsed from its element, with timestamp equal to id |
| TcxFlatten.ParseTcxSucceeds | tcx-flatten.py:41-52 | a document converts exactly when every Activity descendant has an Id child and none of their trackpoints has a position without a Time child |
| TcxFlatten.MissingIdFailsFile | tcx-flatten.py:44 | one Activity without an Id child makes the whole document fail |
| TcxFlatten.ParseActivityNode | tcx-flatten.py:44-54 | the body of parse_tcx_file's loop (the Id lookup, then the trackpoint loop) returns exactly ParseActivity of the element, including its error |
| TcxFlatten.ParseTcxFile | tcx-flatten.py:39-57 | the activity loop of parse_tcx_file returns exactly ParseTcx of the root, including its error |
| TcxFlatten.CollectedTimestampIsId | tcx-flatten.py:45 | every activity collected from any file has timestamp equal to id |
| TcxFlatten.CollectedTwoFiles | tcx-flatten.py:91-93 | two files of one activity each give two activities, the first file's first |
| TcxFlatten.CollectActivities | tcx-flatten.py:91-93 | the extend loop returns the activities of every file concatenated in argument order, or the first file's error |
| Accumulate.FilterMapSingle | tcx-flatten.py:49-52 | on one element the append-unless-None loop yields the step's value, nothing when the step yields None, or the step's error |
| Accumulate.FilterMapPrefixFailure | tcx-flatten.py:49-52 | once the trackpoint loop has raised on a prefix, the loop's result is that error |
| Accumulate.FilterMapOutcome | tcx-flatten.py:49-52 | the append-unless-None loop succeeds exactly when no step raises; otherwise its error is that of the first step that raises |
| Accumulate.FilterMapValues | tcx-flatten.py:49-52 | on success the k-th value is the one the step yields on the k-th element it does not skip |
| Accumulate.MapAllSingle | tcx-flatten.py:43-55 | on one element the append loop yields the step's one value, or its error |
| Accumulate.MapAllPrefixFailure | tcx-flatten.py:43-55 | once the activity loop has raised on a prefix, the loop's result is that error |
| Accumulate.MapAllOutcome | tcx-flatten.py:43-55 | the append loop succeeds exactly when no step raises; otherwise its error is the first step's that raises |
| Accumulate.MapAllValues | tcx-flatten.py:43-55 | on success there is one value per element, the i-th from the i-th element |
| Accumulate.FlatMapPrefixFailure | tcx-flatten.py:92-93 | once a file has raised, the run's result is that error: no partial list |
| Accumulate.FlatMapOutcome | tcx-flatten.py:92-93 | the extend loop succeeds exactly when every file converts; otherwise its error is the first failing file's |
| Accumulate.FlatMapSingle | tcx-flatten.py:93 | one file alone yields exactly that file's activities |
| Accumulate.FlatMapAppend | tcx-flatten.py:92-93 | the activities of files `a + b` are those of `a` followed by those of `b` |
| Output.OutputDocument | tcx-flatten.py:59-82 | the document has the single key "activities", holding one entry per activity; OutputShape and OutputRoundTrip state the entries |
| Output.GetOutputData | tcx-flatten.py:59-82 | the loops of get_output_data build exactly OutputDocument of the activities |
| Output.TrackpointsRoundTrip | tcx-flatten.py:63-72 | the trackpoint objects decode back to the trackpoints, in order, every field unchanged |
| Output.ActivityRoundTrip | tcx-flatten.py:74-78 | an activity object decodes back to the activity, with exactly the keys id, timestamp, trackpoints |
| Output.ActivitiesRoundTrip | tcx-flatten.py:61-80 | the activity objects decode back to the activities, in order |
| Output.OutputRoundTrip | tcx-flatten.py:59-82 | the output document, with its single key "activities", decodes back to exactly the activities: count, order and every field preserved |
| Output.OutputShape | tcx-flatten.py:59-82 | the document's single key is "activities"; entry i is activity i with keys id, timestamp, trackpoints; entry k of that is trackpoint k with its four keys; every field is the record's field, None as null |
| Pipeline.Convert | tcx-flatten.py:91-95 | a document is produced exactly when every file converts; it decodes to the files' activities in argument order; otherwise the error is the first failing file's |
| Pipeline.OutputIdIsTimestamp | tcx-flatten.py:74-76 | in the output every activity's "id" equals its "timestamp" |
| Pipeline.ExampleConverts | tcx-flatten.py:39-57 | a document with one activity (Id "123") and one trackpoint without altitude converts to that one activity and trackpoint, altitude None |
| Pipeline.ExampleOutput | tcx-flatten.py:59-82 | that example's output document is the expected JSON, with `"altitude_meters": null` |

## Left out

- Reading and parsing the files (`ElementTree.parse`, line 40) is not modelled. The model
  starts from the root element, so missing files and malformed XML, which abort the run,
  are not modelled either.
- Element attributes and tail text are not modelled. The converter never reads them.
- Command-line parsing with argparse (lines 86-89) is not modelled. This includes the
  rule that at least one file must be given. `Convert` accepts an empty list and yields
  an empty document.
- The output file name from the UTC clock, `json.dump` to disk and the final `print`
  (lines 97-103) are not modelled. The model stops at the JSON value.
- Namespace formatting with `.format` is not modelled: tags are already-qualified
  strings.
- JSON objects are maps, so the key order of Python dictionaries is not modelled.
- Exceptions are modelled by their kind only (`MissingId`, `MissingTime`), without
  message or traceback.
