/** The `CareerData` data manager: the three datasets it holds once their
    loads settle, the `loaded` flag, and its read accessors. */
module Store {
  import opened Optional
  import opened Text
  import opened Datasets

  /** The manager's fields. A dataset is `None` until its load has settled. */
  datatype Manager = Manager(
    career: Option<CareerDataset>,
    streams: Option<StreamsDataset>,
    exams: Option<ExamsDataset>,
    loaded: bool)

  /** The freshly constructed manager: nothing loaded yet. */
  const Initial: Manager := Manager(None, None, None, false)

  /** The documented substitutes for a document that failed to load. */
  const EmptyCareer: CareerDataset := CareerDataset([], [], [])
  const EmptyStreams: StreamsDataset := StreamsDataset([])
  const EmptyExams: ExamsDataset := ExamsDataset([], map[])

  // ---------------------------------------------------------------------
  // Loading
  // ---------------------------------------------------------------------

  datatype Source = CareerFile | StreamsFile | ExamsFile

  /** What each fetch produced: the parsed document, or `None` when the
      request or the JSON parse failed. */
  datatype Fetched = Fetched(
    career: Option<CareerDataset>,
    streams: Option<StreamsDataset>,
    exams: Option<ExamsDataset>)

  /** The dataset a settled load leaves behind: the parsed document, or the
      empty default when the load failed. */
  function SettleCareer(fetched: Option<CareerDataset>): (d: CareerDataset)
    ensures fetched.None? ==> d == EmptyCareer
    ensures fetched.Some? ==> d == fetched.value
  {
    fetched.GetOr(EmptyCareer)
  }

  function SettleStreams(fetched: Option<StreamsDataset>): (d: StreamsDataset)
    ensures fetched.None? ==> d == EmptyStreams
    ensures fetched.Some? ==> d == fetched.value
  {
    fetched.GetOr(EmptyStreams)
  }

  function SettleExams(fetched: Option<ExamsDataset>): (d: ExamsDataset)
    ensures fetched.None? ==> d == EmptyExams
    ensures fetched.Some? ==> d == fetched.value
  {
    fetched.GetOr(EmptyExams)
  }

  /** One load settles: its own field is filled in, nothing else changes. */
  function Settle(m: Manager, f: Fetched, src: Source): Manager {
    match src
    case CareerFile => m.(career := Some(SettleCareer(f.career)))
    case StreamsFile => m.(streams := Some(SettleStreams(f.streams)))
    case ExamsFile => m.(exams := Some(SettleExams(f.exams)))
  }

  /** The loads in `order` settle one after another, starting from `m`. */
  function SettleInOrder(m: Manager, f: Fetched, order: seq<Source>): Manager
    decreases |order|
  {
    if |order| == 0 then m else Settle(SettleInOrder(m, f, order[..|order| - 1]), f, order[|order| - 1])
  }

  predicate AllSettled(order: seq<Source>) {
    CareerFile in order && StreamsFile in order && ExamsFile in order
  }

  /** The manager once the loads in `order` have settled, in that order: the
      `loaded` flag is set when the joined wait over all three completes. */
  function LoadState(f: Fetched, order: seq<Source>): Manager {
    SettleInOrder(Initial, f, order).(loaded := AllSettled(order))
  }

  /** The manager after a complete load. */
  function Ready(f: Fetched): Manager {
    Manager(Some(SettleCareer(f.career)), Some(SettleStreams(f.streams)), Some(SettleExams(f.exams)), true)
  }

  /** A dataset is present exactly when its own load has settled, and it is
      then the parsed document or its default; the flag never moves. */
  lemma {:induction false} SettleInOrderFields(f: Fetched, order: seq<Source>)
    ensures var m := SettleInOrder(Initial, f, order);
      && m.career == (if CareerFile in order then Some(SettleCareer(f.career)) else None)
      && m.streams == (if StreamsFile in order then Some(SettleStreams(f.streams)) else None)
      && m.exams == (if ExamsFile in order then Some(SettleExams(f.exams)) else None)
      && !m.loaded
    decreases |order|
  {
    if |order| > 0 {
      var prefix := order[..|order| - 1];
      SettleInOrderFields(f, prefix);
      assert order == prefix + [order[|order| - 1]];
      assert forall s :: s in order <==> s in prefix || s == order[|order| - 1];
    }
  }

  /** Whatever order the three loads finish in, the manager ends up in the
      same ready state. */
  lemma EveryOrderReady(f: Fetched, order: seq<Source>)
    requires AllSettled(order)
    ensures LoadState(f, order) == Ready(f)
  {
    SettleInOrderFields(f, order);
  }

  /** Before all three loads have settled the manager is not ready, and the
      datasets of the loads still in flight are absent. */
  lemma NotReadyWhileLoading(f: Fetched, order: seq<Source>)
    requires !AllSettled(order)
    ensures !LoadState(f, order).loaded
    ensures LoadState(f, order).career.Some? <==> CareerFile in order
    ensures LoadState(f, order).streams.Some? <==> StreamsFile in order
    ensures LoadState(f, order).exams.Some? <==> ExamsFile in order
  {
    SettleInOrderFields(f, order);
  }

  /** Readiness is monotone: more settled loads never clear the flag, and the
      datasets already present stay as they are. */
  lemma ReadyStaysReady(f: Fetched, order: seq<Source>, later: seq<Source>)
    requires LoadState(f, order).loaded
    ensures LoadState(f, order + later) == LoadState(f, order)
  {
    assert forall s :: s in order ==> s in order + later;
    EveryOrderReady(f, order);
    EveryOrderReady(f, order + later);
  }

  // ---------------------------------------------------------------------
  // Accessors
  // ---------------------------------------------------------------------

  /** `getAllStreams()`: the career dataset's list once it has settled (an
      empty list is still an array, so `|| []` does not replace it), and `[]`
      while the career load is outstanding. */
  function AllStreams(m: Manager): (r: seq<Stream>)
    ensures m.career.None? ==> r == []
    ensures m.career.Some? ==> r == m.career.value.streams
  {
    if m.career.Some? then m.career.value.streams else []
  }

  /** The position of the first stream whose id is `id` (`Array.find`). */
  function FirstWithId(ss: seq<Stream>, id: string): (r: Option<nat>)
    ensures r.Some? ==> r.value < |ss| && ss[r.value].id == id
    ensures r.Some? ==> forall j :: 0 <= j < r.value ==> ss[j].id != id
    ensures r.None? <==> forall j :: 0 <= j < |ss| ==> ss[j].id != id
  {
    if |ss| == 0 then None
    else if ss[0].id == id then Some(0)
    else
      match FirstWithId(ss[1..], id)
      case None => None
      case Some(k) => Some(k + 1)
  }

  /** `streamsData.streams[id]`. */
  function TableStream(m: Manager, id: string): Option<Stream> {
    if m.streams.Some? then Lookup(m.streams.value.streams, id) else None
  }

  /** `getStream(id)`: the first career-dataset stream with that id wins;
      only when there is none is the streams-dataset entry for `id` used.
      The result is always one of the two records, never a blend. */
  function GetStream(m: Manager, id: string): (r: Option<Stream>)
    ensures forall i ::
      (0 <= i < |AllStreams(m)| && AllStreams(m)[i].id == id
       && forall j :: 0 <= j < i ==> AllStreams(m)[j].id != id)
      ==> r == Some(AllStreams(m)[i])
    ensures (forall i :: 0 <= i < |AllStreams(m)| ==> AllStreams(m)[i].id != id) ==>
      r == TableStream(m, id)
  {
    match FirstWithId(AllStreams(m), id)
    case Some(i) => Some(AllStreams(m)[i])
    case None => TableStream(m, id)
  }

  /** The position of the first category whose name equals `key` once
      lower-cased. */
  function FirstCategory(cats: seq<ExamCategory>, key: string): (r: Option<nat>)
    ensures r.Some? ==> r.value < |cats| && Lower(cats[r.value].category) == key
    ensures r.Some? ==> forall j :: 0 <= j < r.value ==> Lower(cats[j].category) != key
    ensures r.None? <==> forall j :: 0 <= j < |cats| ==> Lower(cats[j].category) != key
  {
    if |cats| == 0 then None
    else if Lower(cats[0].category) == key then Some(0)
    else
      match FirstCategory(cats[1..], key)
      case None => None
      case Some(k) => Some(k + 1)
  }

  /** `getExamCategories()`. */
  function ExamCategories(m: Manager): seq<ExamCategory> {
    if m.exams.Some? then m.exams.value.examCategories else []
  }

  /** `getExamsByCategory(category)`: the exams of the first category whose
      name matches ignoring case, or none. */
  function GetExamsByCategory(m: Manager, category: string): (r: seq<Exam>)
    ensures forall i ::
      (0 <= i < |ExamCategories(m)| && Lower(ExamCategories(m)[i].category) == Lower(category)
       && forall j :: 0 <= j < i ==> Lower(ExamCategories(m)[j].category) != Lower(category))
      ==> r == ExamCategories(m)[i].exams
    ensures (forall i :: 0 <= i < |ExamCategories(m)| ==> Lower(ExamCategories(m)[i].category) != Lower(category))
      ==> r == []
  {
    match FirstCategory(ExamCategories(m), Lower(category))
    case Some(i) => ExamCategories(m)[i].exams
    case None => []
  }

  /** The category argument's case does not matter. */
  lemma CategoryLookupIgnoresCase(m: Manager, category: string)
    ensures GetExamsByCategory(m, category) == GetExamsByCategory(m, Lower(category))
  {
    LowerIdempotent(category);
  }

  /** `getExamsByLevel(level)`. */
  function GetExamsByLevel(m: Manager, level: string): (r: seq<Exam>)
    ensures m.exams.Some? && level in m.exams.value.examLevels ==> r == m.exams.value.examLevels[level]
    ensures m.exams.None? || level !in m.exams.value.examLevels ==> r == []
  {
    if m.exams.Some? && level in m.exams.value.examLevels then m.exams.value.examLevels[level] else []
  }

  /** The record `getCareerRecommendations` builds: each list defaults to the
      empty list when the stream lacks it. */
  datatype CareerRecommendation = CareerRecommendation(
    stream: Stream,
    careerPaths: seq<Json>,
    jobOpportunities: seq<Json>,
    governmentExams: seq<Json>,
    professionalCourses: seq<Json>)

  /** `getCareerRecommendations(id)`: absent exactly when the stream is. */
  function GetCareerRecommendations(m: Manager, id: string): (r: Option<CareerRecommendation>)
    ensures r.None? <==> GetStream(m, id).None?
    ensures r.Some? ==> r.value.stream == GetStream(m, id).value
    ensures r.Some? ==> var s := r.value.stream;
      && (s.careerPaths.Some? ==> r.value.careerPaths == s.careerPaths.value)
      && (s.careerPaths.None? ==> r.value.careerPaths == [])
      && (s.jobOpportunities.Some? ==> r.value.jobOpportunities == s.jobOpportunities.value)
      && (s.jobOpportunities.None? ==> r.value.jobOpportunities == [])
      && (s.governmentExams.Some? ==> r.value.governmentExams == s.governmentExams.value)
      && (s.governmentExams.None? ==> r.value.governmentExams == [])
      && (s.professionalCourses.Some? ==> r.value.professionalCourses == s.professionalCourses.value)
      && (s.professionalCourses.None? ==> r.value.professionalCourses == [])
  {
    match GetStream(m, id)
    case None => None
    case Some(s) =>
      Some(CareerRecommendation(
        s, s.careerPaths.GetOr([]), s.jobOpportunities.GetOr([]),
        s.governmentExams.GetOr([]), s.professionalCourses.GetOr([])))
  }

  /** `getJobsByStream(id)`. */
  function GetJobsByStream(m: Manager, id: string): seq<Json> {
    match GetStream(m, id)
    case None => []
    case Some(s) => s.jobOpportunities.GetOr([])
  }

  /** `getExamsByStream(id)`. */
  function GetExamsByStream(m: Manager, id: string): seq<Json> {
    match GetStream(m, id)
    case None => []
    case Some(s) => s.governmentExams.GetOr([])
  }

  /** The per-stream accessors agree with the recommendation record. */
  lemma StreamAccessorsAgree(m: Manager, id: string)
    ensures var rec := GetCareerRecommendations(m, id);
      && GetJobsByStream(m, id) == (if rec.Some? then rec.value.jobOpportunities else [])
      && GetExamsByStream(m, id) == (if rec.Some? then rec.value.governmentExams else [])
  {
  }

  /** With every dataset empty, whether not yet loaded or fallen back to the
      defaults, every accessor answers with an empty list or "not found". */
  predicate HoldsNothing(m: Manager) {
    && (m.career.None? || m.career == Some(EmptyCareer))
    && (m.streams.None? || m.streams == Some(EmptyStreams))
    && (m.exams.None? || m.exams == Some(EmptyExams))
  }

  lemma EmptyStoreAnswersEmpty(m: Manager, id: string, category: string, level: string)
    requires HoldsNothing(m)
    ensures AllStreams(m) == []
    ensures GetStream(m, id).None?
    ensures GetExamsByCategory(m, category) == []
    ensures GetExamsByLevel(m, level) == []
    ensures GetCareerRecommendations(m, id).None?
    ensures GetJobsByStream(m, id) == [] && GetExamsByStream(m, id) == []
    ensures ExamCategories(m) == []
  {
  }

  /** A load in which every fetch failed still ends ready, holding only the
      defaults. */
  lemma AllFailedLoadIsEmpty(order: seq<Source>)
    requires AllSettled(order)
    ensures LoadState(Fetched(None, None, None), order).loaded
    ensures HoldsNothing(LoadState(Fetched(None, None, None), order))
    ensures AllStreams(LoadState(Fetched(None, None, None), order)) == []
  {
    EveryOrderReady(Fetched(None, None, None), order);
  }
}
