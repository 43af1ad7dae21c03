/** `searchData`: a case-insensitive substring search over the career-dataset
    streams, the streams-dataset streams and the exam categories. */
module Search {
  import opened Optional
  import opened Text
  import opened Datasets
  import opened Store

  datatype Kind = StreamKind | ExamKind

  /** The record a result points back to (its `data` property). */
  datatype Payload = StreamRecord(stream: Stream) | ExamRecord(exam: Exam)

  datatype SearchResult = SearchResult(
    kind: Kind,
    name: string,
    description: string,
    icon: string,
    category: Option<string>,
    data: Option<Payload>)

  const StreamIcon: string := "fas fa-stream"
  const ExamIcon: string := "fas fa-file-alt"

  function StreamResult(s: Stream): SearchResult {
    SearchResult(StreamKind, s.name, s.description, StreamIcon, None, Some(StreamRecord(s)))
  }

  function ExamResult(e: Exam, category: string): SearchResult {
    SearchResult(ExamKind, e.name, e.purpose, ExamIcon, Some(category), Some(ExamRecord(e)))
  }

  /** A stream matches when its lower-cased name or description contains the
      (already lower-cased) term. */
  predicate StreamMatches(s: Stream, term: string) {
    Includes(Lower(s.name), term) || Includes(Lower(s.description), term)
  }

  /** A missing or empty `fullForm` is falsy and never matches. */
  predicate FullFormMatches(fullForm: Option<string>, term: string) {
    fullForm.Some? && fullForm.value != [] && Includes(Lower(fullForm.value), term)
  }

  predicate ExamMatches(e: Exam, term: string) {
    Includes(Lower(e.name), term) || FullFormMatches(e.fullForm, term) || Includes(Lower(e.purpose), term)
  }

  /** `r` is the result built for a stream that matches `term`. */
  predicate IsStreamHit(r: SearchResult, term: string) {
    && r.data.Some? && r.data.value.StreamRecord?
    && r == StreamResult(r.data.value.stream)
    && StreamMatches(r.data.value.stream, term)
  }

  /** `r` is the result built for an exam that matches `term`. */
  predicate IsExamHit(r: SearchResult, term: string) {
    && r.data.Some? && r.data.value.ExamRecord? && r.category.Some?
    && r == ExamResult(r.data.value.exam, r.category.value)
    && ExamMatches(r.data.value.exam, term)
  }

  /** `results.some(r => r.type === 'stream' && r.name === name)`. */
  predicate HasStreamNamed(results: seq<SearchResult>, name: string) {
    exists r | r in results :: r.kind == StreamKind && r.name == name
  }

  // ---------------------------------------------------------------------
  // The three phases, stated declaratively
  // ---------------------------------------------------------------------

  /** Phase one: a result for every matching stream, in order, without any
      deduplication. */
  function StreamHits(ss: seq<Stream>, term: string): (hits: seq<SearchResult>)
    ensures |hits| <= |ss|
  {
    if |ss| == 0 then []
    else
      var last := ss[|ss| - 1];
      StreamHits(ss[..|ss| - 1], term) + (if StreamMatches(last, term) then [StreamResult(last)] else [])
  }

  /** Phase one keeps exactly the matching streams. */
  lemma {:induction false} StreamHitsExact(ss: seq<Stream>, term: string)
    ensures forall r :: r in StreamHits(ss, term) ==> IsStreamHit(r, term) && r.data.value.stream in ss
    ensures forall s :: s in ss && StreamMatches(s, term) ==> StreamResult(s) in StreamHits(ss, term)
  {
    if |ss| > 0 {
      var init := ss[..|ss| - 1];
      StreamHitsExact(init, term);
      assert ss == init + [ss[|ss| - 1]];
      assert forall s :: s in ss <==> s in init || s == ss[|ss| - 1];
    }
  }

  /** Phase one visits the streams in order: the hits of a concatenation are
      the concatenation of the hits. */
  lemma {:induction false} StreamHitsInOrder(a: seq<Stream>, b: seq<Stream>, term: string)
    ensures StreamHits(a + b, term) == StreamHits(a, term) + StreamHits(b, term)
    decreases |b|
  {
    if |b| > 0 {
      var init := b[..|b| - 1];
      StreamHitsInOrder(a, init, term);
      assert (a + b)[..|a + b| - 1] == a + init;
    } else {
      assert a + b == a;
    }
  }

  /** Phase two keeps `vs[j]` exactly when it matches, no result already
      collected (`prior`) is a stream of the same name, and no earlier
      matching entry of `vs` has that name. */
  predicate Kept(prior: seq<SearchResult>, vs: seq<Stream>, term: string, j: nat)
    requires j < |vs|
  {
    && StreamMatches(vs[j], term)
    && !HasStreamNamed(prior, vs[j].name)
    && forall i :: 0 <= i < j ==> !(StreamMatches(vs[i], term) && vs[i].name == vs[j].name)
  }

  /** Phase two, over the first `n` entries of `vs`. */
  function NewStreamHits(prior: seq<SearchResult>, vs: seq<Stream>, term: string, n: nat): (hits: seq<SearchResult>)
    requires n <= |vs|
    ensures |hits| <= n
  {
    if n == 0 then []
    else NewStreamHits(prior, vs, term, n - 1) + (if Kept(prior, vs, term, n - 1) then [StreamResult(vs[n - 1])] else [])
  }

  /** Phase two only adds results for matching entries of `vs`. */
  lemma {:induction false} NewStreamHitsSound(prior: seq<SearchResult>, vs: seq<Stream>, term: string, n: nat)
    requires n <= |vs|
    ensures forall r :: r in NewStreamHits(prior, vs, term, n) ==> IsStreamHit(r, term) && r.data.value.stream in vs
  {
    if n > 0 {
      NewStreamHitsSound(prior, vs, term, n - 1);
    }
  }

  /** Phase three within one category. */
  function CategoryHits(es: seq<Exam>, category: string, term: string): (hits: seq<SearchResult>)
    ensures |hits| <= |es|
  {
    if |es| == 0 then []
    else
      var last := es[|es| - 1];
      CategoryHits(es[..|es| - 1], category, term) + (if ExamMatches(last, term) then [ExamResult(last, category)] else [])
  }

  lemma {:induction false} CategoryHitsExact(es: seq<Exam>, category: string, term: string)
    ensures forall r :: r in CategoryHits(es, category, term) ==>
      IsExamHit(r, term) && r.data.value.exam in es && r.category == Some(category)
    ensures forall e :: e in es && ExamMatches(e, term) ==> ExamResult(e, category) in CategoryHits(es, category, term)
  {
    if |es| > 0 {
      var init := es[..|es| - 1];
      CategoryHitsExact(init, category, term);
      assert es == init + [es[|es| - 1]];
      assert forall e :: e in es <==> e in init || e == es[|es| - 1];
    }
  }

  /** Within a category the exams are visited in listed order. */
  lemma {:induction false} CategoryHitsInOrder(a: seq<Exam>, b: seq<Exam>, category: string, term: string)
    ensures CategoryHits(a + b, category, term) == CategoryHits(a, category, term) + CategoryHits(b, category, term)
    decreases |b|
  {
    if |b| == 0 {
      assert a + b == a;
    } else {
      var init := b[..|b| - 1];
      CategoryHitsInOrder(a, init, category, term);
      assert (a + b)[..|a + b| - 1] == a + init;
      assert (a + b)[|a + b| - 1] == b[|b| - 1];
    }
  }

  /** `r` names an exam that some category of `cats` lists, with that
      category's name. */
  predicate FromSomeCategory(r: SearchResult, cats: seq<ExamCategory>)
    requires r.data.Some? && r.data.value.ExamRecord?
  {
    exists c :: c in cats && r.category == Some(c.category) && r.data.value.exam in c.exams
  }

  /** Phase three: the matching exams, category by category. */
  function ExamHits(cats: seq<ExamCategory>, term: string): (hits: seq<SearchResult>)
    ensures |hits| <= ExamCount(cats)
  {
    if |cats| == 0 then []
    else
      var last := cats[|cats| - 1];
      ExamHits(cats[..|cats| - 1], term) + CategoryHits(last.exams, last.category, term)
  }

  /** The number of exams listed across the categories. */
  function ExamCount(cats: seq<ExamCategory>): nat {
    if |cats| == 0 then 0 else ExamCount(cats[..|cats| - 1]) + |cats[|cats| - 1].exams|
  }

  /** Phase three keeps exactly the matching exams, each labelled with its
      own category. */
  lemma {:induction false} ExamHitsExact(cats: seq<ExamCategory>, term: string)
    ensures forall r :: r in ExamHits(cats, term) ==> IsExamHit(r, term) && FromSomeCategory(r, cats)
    ensures forall c, e :: c in cats && e in c.exams && ExamMatches(e, term) ==> ExamResult(e, c.category) in ExamHits(cats, term)
  {
    if |cats| > 0 {
      var init := cats[..|cats| - 1];
      var last := cats[|cats| - 1];
      ExamHitsExact(init, term);
      CategoryHitsExact(last.exams, last.category, term);
      assert cats == init + [last];
      assert forall c :: c in cats <==> c in init || c == last;
      forall r | r in ExamHits(cats, term) ensures IsExamHit(r, term) && FromSomeCategory(r, cats) {
        if r in ExamHits(init, term) {
          var c :| c in init && r.category == Some(c.category) && r.data.value.exam in c.exams;
          assert c in cats;
        } else {
          assert r in CategoryHits(last.exams, last.category, term);
          assert last in cats;
        }
      }
    }
  }

  /** Phase three visits the categories in document order. */
  lemma {:induction false} ExamHitsInOrder(a: seq<ExamCategory>, b: seq<ExamCategory>, term: string)
    ensures ExamHits(a + b, term) == ExamHits(a, term) + ExamHits(b, term)
    decreases |b|
  {
    if |b| > 0 {
      var init := b[..|b| - 1];
      ExamHitsInOrder(a, init, term);
      assert (a + b)[..|a + b| - 1] == a + init;
    } else {
      assert a + b == a;
    }
  }

  function CareerPhase(m: Manager, term: string): seq<SearchResult> {
    if m.career.Some? then StreamHits(m.career.value.streams, term) else []
  }

  function TableValues(m: Manager): seq<Stream> {
    if m.streams.Some? then Values(m.streams.value.streams) else []
  }

  function TablePhase(m: Manager, prior: seq<SearchResult>, term: string): seq<SearchResult> {
    NewStreamHits(prior, TableValues(m), term, |TableValues(m)|)
  }

  function ExamPhase(m: Manager, term: string): seq<SearchResult> {
    ExamHits(ExamCategories(m), term)
  }

  /** What `searchData(searchTerm)` returns: nothing for an absent or empty
      term; otherwise, with the term lower-cased once, the career-dataset
      hits, then the new streams-dataset hits, then the exam hits. */
  function Results(m: Manager, searchTerm: Option<string>): seq<SearchResult> {
    if searchTerm.None? || searchTerm.value == [] then []
    else
      var term := Lower(searchTerm.value);
      var fromCareer := CareerPhase(m, term);
      fromCareer + TablePhase(m, fromCareer, term) + ExamPhase(m, term)
  }

  // ---------------------------------------------------------------------
  // Deduplication
  // ---------------------------------------------------------------------

  /** After the first `n` entries of phase two, a stream named `name` has
      been collected exactly when one was collected before the phase or one
      of those entries matches and has that name. */
  lemma {:induction false} NamesSoFar(prior: seq<SearchResult>, vs: seq<Stream>, term: string, n: nat, name: string)
    requires n <= |vs|
    ensures HasStreamNamed(prior + NewStreamHits(prior, vs, term, n), name) <==>
      HasStreamNamed(prior, name) || exists i :: 0 <= i < n && StreamMatches(vs[i], term) && vs[i].name == name
  {
    if n > 0 {
      NamesSoFar(prior, vs, term, n - 1, name);
      var before := prior + NewStreamHits(prior, vs, term, n - 1);
      var added := if Kept(prior, vs, term, n - 1) then [StreamResult(vs[n - 1])] else [];
      assert prior + NewStreamHits(prior, vs, term, n) == before + added;
      assert HasStreamNamed(before + added, name) <==> HasStreamNamed(before, name) || HasStreamNamed(added, name) by {
        forall r | r in before + added ensures r in before || r in added { }
      }
      if StreamMatches(vs[n - 1], term) && vs[n - 1].name == name && !Kept(prior, vs, term, n - 1) {
        if !HasStreamNamed(prior, name) {
          var i :| 0 <= i < n - 1 && StreamMatches(vs[i], term) && vs[i].name == vs[n - 1].name;
        }
      }
    }
  }

  /** The deduplication rule as the source checks it: entry `j` is kept
      exactly when it matches and no result collected so far is a stream of
      the same name. */
  lemma KeptIffNoNamesake(prior: seq<SearchResult>, vs: seq<Stream>, term: string, j: nat)
    requires j < |vs|
    ensures Kept(prior, vs, term, j) <==>
      StreamMatches(vs[j], term) && !HasStreamNamed(prior + NewStreamHits(prior, vs, term, j), vs[j].name)
  {
    NamesSoFar(prior, vs, term, j, vs[j].name);
  }

  /** Every matching entry of `vs` is represented by name once phase two is
      done. */
  lemma TableNamesCovered(prior: seq<SearchResult>, vs: seq<Stream>, term: string, j: nat)
    requires j < |vs| && StreamMatches(vs[j], term)
    ensures HasStreamNamed(prior + NewStreamHits(prior, vs, term, |vs|), vs[j].name)
  {
    NamesSoFar(prior, vs, term, |vs|, vs[j].name);
  }

  /** Phase two never adds a name that is already a stream result. */
  lemma {:induction false} NewHitsAvoidPrior(prior: seq<SearchResult>, vs: seq<Stream>, term: string, n: nat)
    requires n <= |vs|
    ensures forall r :: r in NewStreamHits(prior, vs, term, n) ==> !HasStreamNamed(prior, r.name)
  {
    if n > 0 {
      NewHitsAvoidPrior(prior, vs, term, n - 1);
    }
  }

  /** Appending a result whose name is new keeps the names distinct. */
  lemma {:induction false} AppendFreshName(before: seq<SearchResult>, last: SearchResult)
    requires forall a, b :: 0 <= a < b < |before| ==> before[a].name != before[b].name
    requires forall a :: 0 <= a < |before| ==> before[a].name != last.name
    ensures forall a, b :: 0 <= a < b < |before + [last]| ==> (before + [last])[a].name != (before + [last])[b].name
  {
    var hits := before + [last];
    forall a, b | 0 <= a < b < |hits| ensures hits[a].name != hits[b].name {
      assert hits[a] == before[a];
      if b == |before| {
        assert hits[b] == last;
      } else {
        assert hits[b] == before[b];
      }
    }
  }

  /** Phase two never adds a name twice. */
  lemma {:induction false} NewNamesDistinct(prior: seq<SearchResult>, vs: seq<Stream>, term: string, n: nat)
    requires n <= |vs|
    ensures forall a, b :: 0 <= a < b < |NewStreamHits(prior, vs, term, n)| ==>
      NewStreamHits(prior, vs, term, n)[a].name != NewStreamHits(prior, vs, term, n)[b].name
  {
    if n > 0 {
      NewNamesDistinct(prior, vs, term, n - 1);
      var before := NewStreamHits(prior, vs, term, n - 1);
      if Kept(prior, vs, term, n - 1) {
        var last := StreamResult(vs[n - 1]);
        assert NewStreamHits(prior, vs, term, n) == before + [last];
        NewStreamHitsSound(prior, vs, term, n - 1);
        KeptIffNoNamesake(prior, vs, term, n - 1);
        NoNamesakeBefore(prior, before, last.name);
        AppendFreshName(before, last);
      } else {
        assert NewStreamHits(prior, vs, term, n) == before;
      }
    }
  }

  /** Phase two never adds a name that is already a stream result, and never
      adds a name twice. */
  lemma NewNamesFresh(prior: seq<SearchResult>, vs: seq<Stream>, term: string, n: nat)
    requires n <= |vs|
    ensures forall r :: r in NewStreamHits(prior, vs, term, n) ==> !HasStreamNamed(prior, r.name)
    ensures forall a, b :: 0 <= a < b < |NewStreamHits(prior, vs, term, n)| ==>
      NewStreamHits(prior, vs, term, n)[a].name != NewStreamHits(prior, vs, term, n)[b].name
  {
    NewHitsAvoidPrior(prior, vs, term, n);
    NewNamesDistinct(prior, vs, term, n);
  }

  /** When no stream result of `prior + before` has a name, no stream
      result of `before` has it either. */
  lemma {:induction false} NoNamesakeBefore(prior: seq<SearchResult>, before: seq<SearchResult>, name: string)
    requires forall r :: r in before ==> r.kind == StreamKind
    requires !HasStreamNamed(prior + before, name)
    ensures forall a :: 0 <= a < |before| ==> before[a].name != name
  {
    forall a | 0 <= a < |before| ensures before[a].name != name {
      assert before[a] in before;
      assert before[a] in prior + before;
    }
  }

  // ---------------------------------------------------------------------
  // The source's loops
  // ---------------------------------------------------------------------

  /** `searchData(searchTerm)` as written: three passes that push onto one
      result list, the second one checking the list built so far. */
  method SearchData(m: Manager, searchTerm: Option<string>) returns (results: seq<SearchResult>)
    ensures results == Results(m, searchTerm)
    ensures searchTerm.None? || searchTerm.value == [] ==> results == []
    ensures searchTerm.Some? ==> forall r :: r in results ==>
      IsStreamHit(r, Lower(searchTerm.value)) || IsExamHit(r, Lower(searchTerm.value))
  {
    if searchTerm.None? || searchTerm.value == [] {
      return [];
    }
    var term := Lower(searchTerm.value);
    results := [];
    if m.career.Some? {
      results := PushStreamMatches(results, m.career.value.streams, term);
    }
    assert results == CareerPhase(m, term);
    ghost var fromCareer := results;
    if m.streams.Some? {
      results := PushNewStreams(results, Values(m.streams.value.streams), term);
    }
    assert results == fromCareer + TablePhase(m, fromCareer, term);
    if m.exams.Some? {
      results := PushExamMatches(results, m.exams.value.examCategories, term);
    }
    assert results == fromCareer + TablePhase(m, fromCareer, term) + ExamPhase(m, term);
    ResultsSound(m, searchTerm.value);
  }

  /** The first pass: push a result for every matching stream. */
  method PushStreamMatches(start: seq<SearchResult>, ss: seq<Stream>, term: string) returns (results: seq<SearchResult>)
    ensures results == start + StreamHits(ss, term)
  {
    results := start;
    var i := 0;
    while i < |ss|
      invariant 0 <= i <= |ss|
      invariant results == start + StreamHits(ss[..i], term)
    {
      assert ss[..i + 1][..i] == ss[..i];
      if StreamMatches(ss[i], term) {
        results := results + [StreamResult(ss[i])];
      }
      i := i + 1;
    }
    assert ss[..|ss|] == ss;
  }

  /** The second pass: push a matching stream unless a stream result of the
      same name is already in the list. */
  method PushNewStreams(start: seq<SearchResult>, vs: seq<Stream>, term: string) returns (results: seq<SearchResult>)
    ensures results == start + NewStreamHits(start, vs, term, |vs|)
  {
    results := start;
    var i := 0;
    while i < |vs|
      invariant 0 <= i <= |vs|
      invariant results == start + NewStreamHits(start, vs, term, i)
    {
      KeptIffNoNamesake(start, vs, term, i);
      if StreamMatches(vs[i], term) {
        if !HasStreamNamed(results, vs[i].name) {
          results := results + [StreamResult(vs[i])];
        }
      }
      i := i + 1;
    }
  }

  /** The third pass: category by category, push every matching exam. */
  method PushExamMatches(start: seq<SearchResult>, cats: seq<ExamCategory>, term: string) returns (results: seq<SearchResult>)
    ensures results == start + ExamHits(cats, term)
  {
    results := start;
    var i := 0;
    while i < |cats|
      invariant 0 <= i <= |cats|
      invariant results == start + ExamHits(cats[..i], term)
    {
      assert cats[..i + 1][..i] == cats[..i];
      results := PushCategoryMatches(results, cats[i].exams, cats[i].category, term);
      i := i + 1;
    }
    assert cats[..|cats|] == cats;
  }

  /** Within one category: push every matching exam, labelled with the
      category's name. */
  method PushCategoryMatches(start: seq<SearchResult>, exams: seq<Exam>, category: string, term: string)
    returns (results: seq<SearchResult>)
    ensures results == start + CategoryHits(exams, category, term)
  {
    results := start;
    var k := 0;
    while k < |exams|
      invariant 0 <= k <= |exams|
      invariant results == start + CategoryHits(exams[..k], category, term)
    {
      var e := exams[k];
      assert exams[..k + 1][..k] == exams[..k] && exams[..k + 1][k] == e;
      if ExamMatches(e, term) {
        results := results + [ExamResult(e, category)];
      }
      k := k + 1;
    }
    assert exams[..|exams|] == exams;
  }

  // ---------------------------------------------------------------------
  // Properties of the search
  // ---------------------------------------------------------------------

  /** The membership facts of the three phases, for the manager's datasets. */
  lemma PhasesExact(m: Manager, term: string, prior: seq<SearchResult>)
    ensures forall r :: r in CareerPhase(m, term) ==> IsStreamHit(r, term) && r.data.value.stream in AllStreams(m)
    ensures forall s :: s in AllStreams(m) && StreamMatches(s, term) ==> StreamResult(s) in CareerPhase(m, term)
    ensures forall r :: r in TablePhase(m, prior, term) ==> IsStreamHit(r, term) && r.data.value.stream in TableValues(m)
    ensures forall r :: r in ExamPhase(m, term) ==> IsExamHit(r, term) && FromSomeCategory(r, ExamCategories(m))
    ensures forall c, e :: c in ExamCategories(m) && e in c.exams && ExamMatches(e, term) ==>
      ExamResult(e, c.category) in ExamPhase(m, term)
  {
    StreamHitsExact(AllStreams(m), term);
    NewStreamHitsSound(prior, TableValues(m), term, |TableValues(m)|);
    ExamHitsExact(ExamCategories(m), term);
  }

  /** Every result is a match: a stream result for a stream of one of the two
      stream sources whose name or description contains the lower-cased
      term, or an exam result, labelled with its owning category, for an
      exam whose name, present full form or purpose contains it. */
  lemma ResultsSound(m: Manager, t: string)
    ensures forall r :: r in Results(m, Some(t)) ==>
      || (IsStreamHit(r, Lower(t)) && (r.data.value.stream in AllStreams(m) || r.data.value.stream in TableValues(m)))
      || (IsExamHit(r, Lower(t)) && FromSomeCategory(r, ExamCategories(m)))
  {
    if t != [] {
      var term := Lower(t);
      var p1 := CareerPhase(m, term);
      PhasesExact(m, term, p1);
      forall r | r in Results(m, Some(t))
        ensures || (IsStreamHit(r, term) && (r.data.value.stream in AllStreams(m) || r.data.value.stream in TableValues(m)))
                || (IsExamHit(r, term) && FromSomeCategory(r, ExamCategories(m)))
      {
        assert r in p1 || r in TablePhase(m, p1, term) || r in ExamPhase(m, term);
      }
    }
  }

  /** Every matching career-dataset stream and every matching exam appears
      (with its category), and the name of every matching streams-dataset
      stream appears among the stream results. */
  lemma ResultsComplete(m: Manager, t: string)
    requires t != []
    ensures forall s :: s in AllStreams(m) && StreamMatches(s, Lower(t)) ==> StreamResult(s) in Results(m, Some(t))
    ensures forall s :: s in TableValues(m) && StreamMatches(s, Lower(t)) ==> HasStreamNamed(Results(m, Some(t)), s.name)
    ensures forall c, e :: c in ExamCategories(m) && e in c.exams && ExamMatches(e, Lower(t)) ==>
      ExamResult(e, c.category) in Results(m, Some(t))
  {
    var term := Lower(t);
    var fromCareer := CareerPhase(m, term);
    var streamsPart := fromCareer + TablePhase(m, fromCareer, term);
    var out := Results(m, Some(t));
    assert out == streamsPart + ExamPhase(m, term);
    PhasesExact(m, term, fromCareer);
    forall s | s in TableValues(m) && StreamMatches(s, term)
      ensures HasStreamNamed(out, s.name)
    {
      var j :| 0 <= j < |TableValues(m)| && TableValues(m)[j] == s;
      TableNamesCovered(fromCareer, TableValues(m), term, j);
      var r :| r in streamsPart && r.kind == StreamKind && r.name == s.name;
      assert r in out;
    }
  }

  /** The term is lower-cased before any comparison, so its case never
      matters. */
  lemma SearchIgnoresCase(m: Manager, t: string)
    ensures Results(m, Some(t)) == Results(m, Some(Lower(t)))
  {
    LowerIdempotent(t);
  }

  /** Results come phase by phase: the i-th result is a career-dataset
      stream hit, a streams-dataset stream hit or an exam hit according to
      which of the three consecutive blocks holds position i. */
  lemma PhaseOrder(m: Manager, t: string, i: nat)
    requires t != [] && i < |Results(m, Some(t))|
    ensures var out := Results(m, Some(t));
      var k1 := |CareerPhase(m, Lower(t))|;
      var k2 := k1 + |TablePhase(m, CareerPhase(m, Lower(t)), Lower(t))|;
      && k1 <= k2 <= |out|
      && (i < k1 ==> IsStreamHit(out[i], Lower(t)) && out[i].data.value.stream in AllStreams(m))
      && (k1 <= i < k2 ==> IsStreamHit(out[i], Lower(t)) && out[i].data.value.stream in TableValues(m))
      && (k2 <= i ==> IsExamHit(out[i], Lower(t)))
  {
    var term := Lower(t);
    var p1 := CareerPhase(m, term);
    var p2 := TablePhase(m, p1, term);
    var p3 := ExamPhase(m, term);
    var out := Results(m, Some(t));
    assert out == p1 + p2 + p3;
    PhasesExact(m, term, p1);
    if i < |p1| {
      assert out[i] == p1[i];
      assert p1[i] in p1;
    } else if i < |p1| + |p2| {
      assert out[i] == p2[i - |p1|];
      assert p2[i - |p1|] in p2;
    } else {
      assert out[i] == p3[i - |p1| - |p2|];
      assert p3[i - |p1| - |p2|] in p3;
    }
  }

  /** A streams-dataset hit never shares its name with an earlier stream
      result. */
  lemma TableHitNameIsNew(m: Manager, t: string, a: nat, b: nat)
    requires t != []
    requires var k1 := |CareerPhase(m, Lower(t))|;
      k1 <= b < k1 + |TablePhase(m, CareerPhase(m, Lower(t)), Lower(t))|
    requires a < b && Results(m, Some(t))[a].kind == StreamKind
    ensures Results(m, Some(t))[a].name != Results(m, Some(t))[b].name
  {
    var term := Lower(t);
    var p1 := CareerPhase(m, term);
    var p2 := NewStreamHits(p1, TableValues(m), term, |TableValues(m)|);
    assert Results(m, Some(t)) == p1 + p2 + ExamPhase(m, term);
    NewNamesFresh(p1, TableValues(m), term, |TableValues(m)|);
    NamesDistinctAcross(p1, p2, ExamPhase(m, term), a, b);
  }

  /** In `p1 + p2 + p3`, an entry of `p2` differs in name from every earlier
      stream when `p2` avoids the stream names of `p1` and repeats none of
      its own. */
  lemma {:induction false} NamesDistinctAcross(p1: seq<SearchResult>, p2: seq<SearchResult>, p3: seq<SearchResult>, a: nat, b: nat)
    requires forall r :: r in p2 ==> !HasStreamNamed(p1, r.name)
    requires forall x, y :: 0 <= x < y < |p2| ==> p2[x].name != p2[y].name
    requires |p1| <= b < |p1| + |p2| && a < b && (p1 + p2 + p3)[a].kind == StreamKind
    ensures (p1 + p2 + p3)[a].name != (p1 + p2 + p3)[b].name
  {
    var out := p1 + p2 + p3;
    var later := p2[b - |p1|];
    assert out[b] == later;
    assert later in p2;
    if a < |p1| {
      assert out[a] == p1[a];
      assert p1[a] in p1;
    } else {
      assert out[a] == p2[a - |p1|];
    }
  }

  /** Two stream results share a name only when both come from the
      career dataset, which is never deduplicated. */
  lemma StreamNamesetsDisjoint(m: Manager, t: string, a: nat, b: nat)
    requires t != []
    requires a < b < |Results(m, Some(t))|
    requires Results(m, Some(t))[a].kind == StreamKind && Results(m, Some(t))[b].kind == StreamKind
    requires Results(m, Some(t))[a].name == Results(m, Some(t))[b].name
    ensures b < |CareerPhase(m, Lower(t))|
  {
    PhaseOrder(m, t, b);
    if b >= |CareerPhase(m, Lower(t))| {
      TableHitNameIsNew(m, t, a, b);
    }
  }

  /** Nothing to search yields nothing, whatever the term. */
  lemma EmptyStoreFindsNothing(m: Manager, t: string)
    requires HoldsNothing(m)
    ensures Results(m, Some(t)) == []
  {
  }
}
