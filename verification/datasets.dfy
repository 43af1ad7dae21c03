/** The three JSON documents the site loads (`data/career.json`,
    `data/streams.json`, `data/exams.json`) and the records they hold. */
module Datasets {
  import opened Optional

  /** A loosely structured JSON value (career paths, job listings, courses).
      Numbers are kept as integers: nothing in the data layer computes with
      them. */
  datatype Json =
    | JNull
    | JBool(b: bool)
    | JNumber(n: int)
    | JString(s: string)
    | JArray(items: seq<Json>)
    | JObject(members: seq<(string, Json)>)

  /** An academic stream. The four list fields are optional in the documents. */
  datatype Stream = Stream(
    id: string,
    name: string,
    description: string,
    careerPaths: Option<seq<Json>>,
    jobOpportunities: Option<seq<Json>>,
    governmentExams: Option<seq<Json>>,
    professionalCourses: Option<seq<Json>>)

  /** An entrance or qualifying exam; `fullForm` may be missing. */
  datatype Exam = Exam(name: string, fullForm: Option<string>, purpose: string)

  datatype ExamCategory = ExamCategory(category: string, exams: seq<Exam>)

  /** `data/career.json`. */
  datatype CareerDataset = CareerDataset(streams: seq<Stream>, exams: seq<Json>, careers: seq<Json>)

  /** The own properties of a JSON object, in enumeration order. A parsed
      object never repeats a key. */
  predicate DistinctKeys<V>(entries: seq<(string, V)>) {
    forall i, j | 0 <= i < j < |entries| :: entries[i].0 != entries[j].0
  }

  type StreamTable = t: seq<(string, Stream)> | DistinctKeys(t)

  /** `data/streams.json`: stream records keyed by stream id. */
  datatype StreamsDataset = StreamsDataset(streams: StreamTable)

  /** `data/exams.json`: the categories in document order, and the exams
      listed per educational level. */
  datatype ExamsDataset = ExamsDataset(examCategories: seq<ExamCategory>, examLevels: map<string, seq<Exam>>)

  /** `object[key]` for an own property: the value stored under `key`, or
      nothing when no property has that key. */
  function Lookup<V>(entries: seq<(string, V)>, key: string): (r: Option<V>)
    ensures r.None? <==> forall i :: 0 <= i < |entries| ==> entries[i].0 != key
    ensures DistinctKeys(entries) ==>
      forall i :: 0 <= i < |entries| && entries[i].0 == key ==> r == Some(entries[i].1)
  {
    if |entries| == 0 then None
    else if entries[0].0 == key then Some(entries[0].1)
    else
      var r := Lookup(entries[1..], key);
      assert forall i :: 1 <= i < |entries| ==> entries[i] == entries[1..][i - 1];
      r
  }

  /** `Object.values(object)`: the values, in enumeration order. */
  function Values<V>(entries: seq<(string, V)>): (vs: seq<V>)
    ensures |vs| == |entries|
    ensures forall i :: 0 <= i < |entries| ==> vs[i] == entries[i].1
  {
    if |entries| == 0 then [] else Values(entries[..|entries| - 1]) + [entries[|entries| - 1].1]
  }
}
