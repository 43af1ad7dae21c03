/** The pure helpers of the page script: the fallback search used before the
    data manager is ready, the gates in front of the search paths, and the
    fixed lookup tables. */
module Page {
  import opened Optional
  import opened Text
  import opened Datasets
  import opened Store
  import opened Search

  // ---------------------------------------------------------------------
  // Fallback search
  // ---------------------------------------------------------------------

  datatype FallbackItem = FallbackItem(name: string, description: string, kind: Kind)

  /** The five items `performFallbackSearch` scans, in table order. */
  const FallbackItems: seq<FallbackItem> := [
    FallbackItem("Science Stream", "Engineering, Medical, Research careers", StreamKind),
    FallbackItem("Commerce Stream", "Business, Finance, Accounting careers", StreamKind),
    FallbackItem("Arts Stream", "Civil Services, Humanities, Creative arts", StreamKind),
    FallbackItem("JEE Main", "Engineering entrance exam", ExamKind),
    FallbackItem("NEET UG", "Medical entrance exam", ExamKind)
  ]

  /** The result pushed for a matching item: no category and no record. */
  function FallbackResult(item: FallbackItem): SearchResult {
    SearchResult(item.kind, item.name, item.description,
                 if item.kind == StreamKind then StreamIcon else ExamIcon, None, None)
  }

  /** The item's lower-cased name or description contains `term`; the term
      itself is used as given. */
  predicate ItemMatches(item: FallbackItem, term: string) {
    Includes(Lower(item.name), term) || Includes(Lower(item.description), term)
  }

  /** The results for the matching items, in order. */
  function ItemHits(items: seq<FallbackItem>, term: string): (hits: seq<SearchResult>)
    ensures |hits| <= |items|
  {
    if |items| == 0 then []
    else
      var last := items[|items| - 1];
      ItemHits(items[..|items| - 1], term) + (if ItemMatches(last, term) then [FallbackResult(last)] else [])
  }

  /** `performFallbackSearch(term)`. */
  function FallbackSearch(term: string): seq<SearchResult> {
    ItemHits(FallbackItems, term)
  }

  /** The hits are exactly the results of the matching items. */
  lemma {:induction false} ItemHitsExact(items: seq<FallbackItem>, term: string)
    ensures forall item :: item in items ==> (FallbackResult(item) in ItemHits(items, term) <==> ItemMatches(item, term))
    ensures forall r :: r in ItemHits(items, term) ==>
      exists item :: item in items && ItemMatches(item, term) && r == FallbackResult(item)
  {
    if |items| > 0 {
      var init := items[..|items| - 1];
      var last := items[|items| - 1];
      ItemHitsExact(init, term);
      assert items == init + [last];
      forall item | item in items
        ensures FallbackResult(item) in ItemHits(items, term) <==> ItemMatches(item, term)
      {
        assert FallbackResult(item) in ItemHits(items, term) <==>
          FallbackResult(item) in ItemHits(init, term) || (ItemMatches(last, term) && item == last);
        if FallbackResult(item) in ItemHits(init, term) {
          var other :| other in init && ItemMatches(other, term) && FallbackResult(item) == FallbackResult(other);
          assert other == item;
        }
      }
    }
  }

  /** When no item matches, there are no hits. */
  lemma {:induction false} ItemHitsNone(items: seq<FallbackItem>, term: string)
    requires forall item :: item in items ==> !ItemMatches(item, term)
    ensures ItemHits(items, term) == []
  {
    if |items| > 0 {
      ItemHitsNone(items[..|items| - 1], term);
      assert items[|items| - 1] in items;
    }
  }

  /** The items are scanned in order: the hits of a concatenation are the
      concatenation of the hits. */
  lemma {:induction false} ItemHitsInOrder(a: seq<FallbackItem>, b: seq<FallbackItem>, term: string)
    ensures ItemHits(a + b, term) == ItemHits(a, term) + ItemHits(b, term)
    decreases |b|
  {
    if |b| == 0 {
      assert a + b == a;
    } else {
      var init := b[..|b| - 1];
      ItemHitsInOrder(a, init, term);
      assert (a + b)[..|a + b| - 1] == a + init;
      assert (a + b)[|a + b| - 1] == b[|b| - 1];
    }
  }

  /** The hits by position: item `i` is present exactly when it matches,
      and every hit is some matching item's result. */
  lemma {:induction false} ItemHitsIndexed(items: seq<FallbackItem>, term: string)
    ensures forall i :: 0 <= i < |items| ==>
      (FallbackResult(items[i]) in ItemHits(items, term) <==> ItemMatches(items[i], term))
    ensures forall r :: r in ItemHits(items, term) ==>
      exists i :: 0 <= i < |items| && ItemMatches(items[i], term) && r == FallbackResult(items[i])
    ensures forall r :: r in ItemHits(items, term) ==>
      (r.icon == StreamIcon <==> r.kind == StreamKind) && r.category.None? && r.data.None?
  {
    ItemHitsExact(items, term);
    forall i | 0 <= i < |items|
      ensures FallbackResult(items[i]) in ItemHits(items, term) <==> ItemMatches(items[i], term)
    {
      assert items[i] in items;
    }
    forall r | r in ItemHits(items, term)
      ensures exists i :: 0 <= i < |items| && ItemMatches(items[i], term) && r == FallbackResult(items[i])
    {
      var item :| item in items && ItemMatches(item, term) && r == FallbackResult(item);
      var i :| 0 <= i < |items| && items[i] == item;
    }
  }

  /** `performFallbackSearch` returns at most the five table items: exactly
      the matching ones, with name, description and type copied and the
      icon chosen by type. */
  lemma FallbackSearchExact(term: string)
    ensures |FallbackSearch(term)| <= 5
    ensures forall i :: 0 <= i < |FallbackItems| ==>
      (FallbackResult(FallbackItems[i]) in FallbackSearch(term) <==> ItemMatches(FallbackItems[i], term))
    ensures forall r :: r in FallbackSearch(term) ==>
      exists i :: 0 <= i < |FallbackItems| && ItemMatches(FallbackItems[i], term) && r == FallbackResult(FallbackItems[i])
    ensures forall r :: r in FallbackSearch(term) ==>
      (r.icon == StreamIcon <==> r.kind == StreamKind) && r.category.None? && r.data.None?
  {
    ItemHitsIndexed(FallbackItems, term);
  }

  /** The fallback search does not lower-case its term: a term holding an
      upper-case letter finds nothing. */
  lemma FallbackNeedsLowerCaseTerm(term: string, k: nat)
    requires k < |term| && IsUpper(term[k])
    ensures FallbackSearch(term) == []
  {
    forall item | item in FallbackItems ensures !ItemMatches(item, term) {
      UpperNeverInLower(item.name, term, k);
      UpperNeverInLower(item.description, term, k);
    }
    ItemHitsNone(FallbackItems, term);
  }

  // ---------------------------------------------------------------------
  // The search entry points
  // ---------------------------------------------------------------------

  /** What `searchCareers` does: warn about an empty query, or display the
      results for the trimmed, lower-cased term. */
  datatype SearchOutcome = EmptyQueryWarning | Display(results: seq<SearchResult>, term: string)

  /** `searchCareers()` on the input box's value: the data manager's search
      once it is ready, the fallback search before. */
  function SearchCareers(m: Manager, input: string): (o: SearchOutcome)
    ensures o.EmptyQueryWarning? <==> AllSpace(input)
    ensures o.Display? ==> o.term == Lower(Trim(input)) && o.term != []
    ensures o.Display? && m.loaded ==> o.results == Results(m, Some(Trim(input)))
    ensures o.Display? && !m.loaded ==> o.results == FallbackSearch(Lower(Trim(input)))
  {
    var term := Lower(Trim(input));
    TrimEmptyIff(input);
    SearchIgnoresCase(m, Trim(input));
    if term == [] then EmptyQueryWarning
    else if m.loaded then Display(Results(m, Some(term)), term)
    else Display(FallbackSearch(term), term)
  }

  /** Before the data manager is ready, an Enter search shows at most five
      results. */
  lemma FallbackDisplayIsSmall(m: Manager, input: string)
    requires !m.loaded
    ensures SearchCareers(m, input).Display? ==> |SearchCareers(m, input).results| <= 5
  {
    FallbackSearchExact(Lower(Trim(input)));
  }

  /** The first input listener with `performLiveSearch`: for a value longer
      than two characters and a ready manager, the first five results of the
      search, provided there is at least one. */
  function QuickResults(m: Manager, value: string): (quick: Option<seq<SearchResult>>)
    ensures quick.Some? <==> |value| > 2 && m.loaded && Results(m, Some(value)) != []
    ensures quick.Some? ==> 1 <= |quick.value| <= 5
    ensures quick.Some? ==> quick.value <= Results(m, Some(value))
    ensures quick.Some? ==> |quick.value| == 5 || quick.value == Results(m, Some(value))
  {
    if |value| > 2 && m.loaded then
      var results := Results(m, Some(value));
      if |results| > 0 then Some(results[..if |results| < 5 then |results| else 5]) else None
    else None
  }

  /** The second input listener: for a trimmed value longer than two
      characters and a ready manager, the full results are displayed. */
  function LiveDisplay(m: Manager, value: string): (shown: Option<(seq<SearchResult>, string)>)
    ensures shown.Some? <==> |Trim(value)| > 2 && m.loaded
    ensures shown.Some? ==> shown.value.1 == Trim(value)
    ensures shown.Some? ==> shown.value.0 == Results(m, Some(Trim(value)))
  {
    var term := Trim(value);
    if |term| > 2 && m.loaded then Some((Results(m, Some(term)), term)) else None
  }

  /** Once the manager is ready, the live listener and an Enter search show
      the same results for the same input. */
  lemma {:induction false} LiveAgreesWithEnter(m: Manager, value: string)
    requires m.loaded && |Trim(value)| > 2
    ensures SearchCareers(m, value).Display?
    ensures LiveDisplay(m, value).value.0 == SearchCareers(m, value).results
  {
    TrimEmptyIff(value);
  }

  // ---------------------------------------------------------------------
  // Lookup tables
  // ---------------------------------------------------------------------

  const SuccessColor: string := "#4cd964"
  const ErrorColor: string := "#ff3b30"
  const WarningColor: string := "#ff9500"
  const InfoColor: string := "#5ac8fa"

  /** `getNotificationColor(type)`. */
  function NotificationColor(kind: string): (color: string)
    ensures kind == "success" ==> color == SuccessColor
    ensures kind == "error" ==> color == ErrorColor
    ensures kind == "warning" ==> color == WarningColor
    ensures kind !in {"success", "error", "warning"} ==> color == InfoColor
  {
    if kind == "success" then SuccessColor
    else if kind == "error" then ErrorColor
    else if kind == "warning" then WarningColor
    else if kind == "info" then InfoColor
    else InfoColor
  }

  /** The `colors` object of `getNotificationColor`, in its written order. */
  const NotificationColors: seq<(string, string)> :=
    [("success", SuccessColor), ("error", ErrorColor), ("warning", WarningColor), ("info", InfoColor)]

  /** The branches agree with the source's formulation: look the type up in
      the `colors` object and fall back to the info colour. */
  lemma {:induction false} NotificationColorIsTableLookup(kind: string)
    ensures NotificationColor(kind) == Lookup(NotificationColors, kind).GetOr(InfoColor)
  {
    var found := Lookup(NotificationColors, kind);
    assert DistinctKeys(NotificationColors);
    if kind !in {"success", "error", "warning", "info"} {
      assert forall i :: 0 <= i < |NotificationColors| ==> NotificationColors[i].0 != kind;
      assert found.None?;
    } else {
      var i := if kind == "success" then 0 else if kind == "error" then 1 else if kind == "warning" then 2 else 3;
      assert NotificationColors[i].0 == kind;
    }
  }

  /** Every type gets one of the four colours, and an unknown type looks
      like `info`. */
  lemma NotificationColorTotal(kind: string)
    ensures NotificationColor(kind) in {SuccessColor, ErrorColor, WarningColor, InfoColor}
    ensures kind !in {"success", "error", "warning", "info"} ==> NotificationColor(kind) == NotificationColor("info")
  {
  }

  /** `handleStreamSelectionFromSearch`: the stream id for a display name. */
  function StreamIdForName(name: string): (id: Option<string>)
    ensures id.Some? <==> name in {"Science Stream", "Commerce Stream", "Arts Stream", "Vocational Courses"}
    ensures id.Some? ==> id.value in {"science", "commerce", "arts", "vocational"}
    ensures name == "Science Stream" ==> id == Some("science")
    ensures name == "Commerce Stream" ==> id == Some("commerce")
    ensures name == "Arts Stream" ==> id == Some("arts")
    ensures name == "Vocational Courses" ==> id == Some("vocational")
  {
    if name == "Science Stream" then Some("science")
    else if name == "Commerce Stream" then Some("commerce")
    else if name == "Arts Stream" then Some("arts")
    else if name == "Vocational Courses" then Some("vocational")
    else None
  }

  /** Distinct display names select distinct streams. */
  lemma StreamIdsDistinct(a: string, b: string)
    requires StreamIdForName(a).Some? && StreamIdForName(a) == StreamIdForName(b)
    ensures a == b
  {
  }

  /** The record `getFallbackRecommendations` returns: the empty object has
      neither list. */
  datatype FallbackRecommendation = FallbackRecommendation(
    careerPaths: Option<seq<Json>>,
    jobOpportunities: Option<seq<Json>>)

  function Strings(ss: seq<string>): Json {
    JArray(seq(|ss|, i requires 0 <= i < |ss| => JString(ss[i])))
  }

  function PathOption(name: string, degrees: seq<string>, exams: seq<string>, specializations: seq<string>): Json {
    JObject([("name", JString(name)), ("degrees", Strings(degrees)), ("exams", Strings(exams)),
             ("specializations", Strings(specializations))])
  }

  function PathStage(stage: string, options: seq<Json>): Json {
    JObject([("stage", JString(stage)), ("options", JArray(options))])
  }

  function JobField(field: string, jobs: seq<string>, salaryRange: string): Json {
    JObject([("field", JString(field)), ("jobs", Strings(jobs)), ("salaryRange", JString(salaryRange))])
  }

  const ScienceFallback: FallbackRecommendation := FallbackRecommendation(
    Some([PathStage("After 12th", [
      PathOption("Engineering", ["BTech/BE (4 years)", "BArch (5 years)"],
                 ["JEE Main", "JEE Advanced", "State CETs"],
                 ["Computer Science", "Mechanical", "Civil", "Electrical"]),
      PathOption("Medical", ["MBBS (5.5 years)", "BDS (5 years)", "BPharm"],
                 ["NEET UG"],
                 ["General Medicine", "Surgery", "Dentistry"])])]),
    Some([JobField("Engineering & Technology", ["Software Engineer", "Mechanical Engineer", "Data Scientist"],
                   "\U{20B9}4-25 LPA")]))

  const CommerceFallback: FallbackRecommendation := FallbackRecommendation(
    Some([PathStage("Professional Courses", [
      PathOption("CA", ["Chartered Accountancy"],
                 ["CA Foundation", "CA Intermediate", "CA Final"],
                 ["Auditing", "Taxation", "Finance"])])]),
    Some([JobField("Accounting & Finance", ["Chartered Accountant", "Financial Analyst"], "\U{20B9}5-20 LPA")]))

  const ArtsFallback: FallbackRecommendation := FallbackRecommendation(
    Some([PathStage("Civil Services", [
      PathOption("UPSC", ["Any Graduation"], ["UPSC Civil Services"], ["IAS", "IPS", "IFS"])])]),
    Some([JobField("Government Services", ["IAS Officer", "IPS Officer"], "\U{20B9}12-25 LPA")]))

  const NoFallback: FallbackRecommendation := FallbackRecommendation(None, None)

  /** `getFallbackRecommendations(stream)`: the fixed record of the three
      main streams, the empty object for any other id. */
  function FallbackRecommendations(stream: string): (rec: FallbackRecommendation)
    ensures rec != NoFallback <==> stream in {"science", "commerce", "arts"}
    ensures rec != NoFallback ==> rec.careerPaths.Some? && rec.jobOpportunities.Some?
    ensures stream == "science" ==> rec == ScienceFallback
    ensures stream == "commerce" ==> rec == CommerceFallback
    ensures stream == "arts" ==> rec == ArtsFallback
  {
    if stream == "science" then ScienceFallback
    else if stream == "commerce" then CommerceFallback
    else if stream == "arts" then ArtsFallback
    else NoFallback
  }

  /** Every stream the fallback search can offer leads, through its display
      name, to a stream with fallback recommendations; the vocational stream
      has none. */
  lemma FallbackStreamsHaveRecommendations(i: nat)
    requires i < |FallbackItems| && FallbackItems[i].kind == StreamKind
    ensures StreamIdForName(FallbackItems[i].name).Some?
    ensures FallbackRecommendations(StreamIdForName(FallbackItems[i].name).value) != NoFallback
  {
  }

  lemma VocationalHasNoFallback()
    ensures StreamIdForName("Vocational Courses") == Some("vocational")
    ensures FallbackRecommendations("vocational") == NoFallback
  {
  }
}
