/** The review analyser server: the shared list of review records, the GET query
    pipeline (filter by location and by date, annotate with sentiment, sort by
    compound score) and the POST submission path (validate, then append). */
module ReviewServer {
  import opened Wrappers
  import opened Sequences
  import opened Dates
  import opened StableSort

  /** The scores the sentiment analyser reports for a text (`neg`, `neu`, `pos`, `compound`). */
  datatype Sentiment = Sentiment(neg: real, neu: real, pos: real, compound: real)

  /** The two locations a submitted review may name. */
  const ValidLocations: seq<string> := ["San Diego, California", "Denver, Colorado"]

  /** One review record (a row of the data set, or a submitted review). The four data
      fields are never changed; `sentiment` is written by every query that selects the record. */
  class Review {
    const id: string
    const location: string
    const timestamp: DateTime
    const body: string
    var sentiment: Option<Sentiment>

    constructor (id: string, location: string, timestamp: DateTime, body: string)
      ensures this.id == id && this.location == location
      ensures this.timestamp == timestamp && this.body == body
      ensures sentiment == None
    {
      this.id := id;
      this.location := location;
      this.timestamp := timestamp;
      this.body := body;
      sentiment := None;
    }
  }

  /** A list object holding review records. Two variables may name the same list, so a
      change made through one is seen through the other. */
  class ReviewList {
    var items: seq<Review>

    constructor (items: seq<Review>)
      ensures this.items == items
    {
      this.items := items;
    }

    /** `list.append`. */
    method Append(r: Review)
      modifies this
      ensures items == old(items) + [r]
    {
      items := items + [r];
    }

    /** `list.sort(key=lambda x: x['sentiment']['compound'], reverse=True)`: each record is
        paired with the compound score stored on it, the pairs are sorted stably by that
        score, highest first, and the list takes the records in the new order. */
    method SortByCompound()
      requires forall i :: 0 <= i < |items| ==> items[i].sentiment.Some?
      modifies this
      ensures items == Map(SortDesc(old(Decorate(items)), Score), Record)
    {
      var sorted := StableSortDesc(Decorate(items), Score);
      items := Map(sorted, Record);
    }
  }

  /** Each record paired with the compound score currently stored on it. */
  function Decorate(rs: seq<Review>): (ps: seq<(Review, real)>)
    requires forall i :: 0 <= i < |rs| ==> rs[i].sentiment.Some?
    reads set r | r in rs
    ensures |ps| == |rs|
    ensures forall i :: 0 <= i < |rs| ==> ps[i] == (rs[i], rs[i].sentiment.value.compound)
    decreases |rs|
  {
    if rs == [] then [] else [(rs[0], rs[0].sentiment.value.compound)] + Decorate(rs[1..])
  }

  function Record(p: (Review, real)): Review { p.0 }

  function Score(p: (Review, real)): real { p.1 }

  // ---- the GET query, as a function of the stored records ----

  /** Python truthiness of an optional request field: absent and empty are both "not set". */
  predicate IsSet(field: Option<string>)
    ensures !IsSet(field) <==> field == None || field == Some("")
  {
    field.Some? && field.value != ""
  }

  datatype QueryError = MalformedDate

  /** The decoded filters of one query. */
  datatype Criteria = Criteria(location: Option<string>, start: Option<Date>, end: Option<Date>)

  /** Reads the three query parameters. A set date that does not parse fails the whole query. */
  function ParseCriteria(location: Option<string>, startDate: Option<string>, endDate: Option<string>)
    : (r: Result<Criteria, QueryError>)
    ensures r.Failure? <==>
              || (IsSet(startDate) && ParseDate(startDate.value).None?)
              || (IsSet(endDate) && ParseDate(endDate.value).None?)
    ensures r.Success? ==>
              && r.value.location == (if IsSet(location) then Some(location.value) else None)
              && r.value.start == (if IsSet(startDate) then ParseDate(startDate.value) else None)
              && r.value.end == (if IsSet(endDate) then ParseDate(endDate.value) else None)
  {
    if IsSet(startDate) && ParseDate(startDate.value).None? then Failure(MalformedDate)
    else if IsSet(endDate) && ParseDate(endDate.value).None? then Failure(MalformedDate)
    else Success(Criteria(
      if IsSet(location) then Some(location.value) else None,
      if IsSet(startDate) then ParseDate(startDate.value) else None,
      if IsSet(endDate) then ParseDate(endDate.value) else None))
  }

  function LocationIs(location: string): Review -> bool {
    (r: Review) => r.location == location
  }

  function StampedFrom(t: DateTime): Review -> bool {
    (r: Review) => NotAfter(t, r.timestamp)
  }

  function StampedUntil(t: DateTime): Review -> bool {
    (r: Review) => NotAfter(r.timestamp, t)
  }

  /** The location filter: exact string equality. */
  function ByLocation(rs: seq<Review>, location: string): (out: seq<Review>)
    ensures forall i :: 0 <= i < |out| ==> out[i] in rs && out[i].location == location
    ensures forall i :: 0 <= i < |rs| && rs[i].location == location ==> rs[i] in out
  {
    Keep(rs, LocationIs(location))
  }

  /** The start filter: timestamps at or after 00:00:00 of the start date. */
  function FromStart(rs: seq<Review>, start: Date): (out: seq<Review>)
    ensures forall i :: 0 <= i < |out| ==> out[i] in rs && NotAfter(Midnight(start), out[i].timestamp)
    ensures forall i :: 0 <= i < |rs| && NotAfter(Midnight(start), rs[i].timestamp) ==> rs[i] in out
  {
    Keep(rs, StampedFrom(Midnight(start)))
  }

  /** The end filter: timestamps at or before 00:00:00 of the end date (not its end). */
  function UntilEnd(rs: seq<Review>, end: Date): (out: seq<Review>)
    ensures forall i :: 0 <= i < |out| ==> out[i] in rs && NotAfter(out[i].timestamp, Midnight(end))
    ensures forall i :: 0 <= i < |rs| && NotAfter(rs[i].timestamp, Midnight(end)) ==> rs[i] in out
  {
    Keep(rs, StampedUntil(Midnight(end)))
  }

  /** A record passes every filter the criteria set. */
  predicate Matches(r: Review, c: Criteria) {
    && (c.location.Some? ==> r.location == c.location.value)
    && (c.start.Some? ==> NotAfter(Midnight(c.start.value), r.timestamp))
    && (c.end.Some? ==> NotAfter(r.timestamp, Midnight(c.end.value)))
  }

  /** The filter chain: location, then start, then end, each skipped when unset. */
  function Select(rs: seq<Review>, c: Criteria): (out: seq<Review>)
    ensures forall i :: 0 <= i < |out| ==> out[i] in rs && Matches(out[i], c)
    ensures forall i :: 0 <= i < |rs| && Matches(rs[i], c) ==> rs[i] in out
  {
    var byLocation := if c.location.Some? then ByLocation(rs, c.location.value) else rs;
    var fromStart := if c.start.Some? then FromStart(byLocation, c.start.value) else byLocation;
    if c.end.Some? then UntilEnd(fromStart, c.end.value) else fromStart
  }

  function CompoundKey(scorer: string -> Sentiment): Review -> real {
    (r: Review) => scorer(r.body).compound
  }

  /** The selected records, highest compound score first, ties in their selected order. */
  function Rank(rs: seq<Review>, scorer: string -> Sentiment): seq<Review> {
    SortDesc(rs, CompoundKey(scorer))
  }

  /** What a GET request answers, given the stored records and the analyser. */
  function Query(rs: seq<Review>, location: Option<string>, startDate: Option<string>,
                 endDate: Option<string>, scorer: string -> Sentiment): (r: Result<seq<Review>, QueryError>)
    ensures r.Failure? <==> ParseCriteria(location, startDate, endDate).Failure?
  {
    match ParseCriteria(location, startDate, endDate)
    case Failure(e) => Failure(e)
    case Success(c) => Success(Rank(Select(rs, c), scorer))
  }

  /** No filter is set, so the query works on the stored list itself. */
  predicate NoFilter(location: Option<string>, startDate: Option<string>, endDate: Option<string>) {
    !IsSet(location) && !IsSet(startDate) && !IsSet(endDate)
  }

  // ---- the POST submission ----

  datatype PostError = MissingField | InvalidLocation

  datatype Submission = Submission(location: string, body: string)

  /** The form checks, in the order the server makes them: both fields present and
      non-empty first, then the location among the valid ones. */
  function Validate(location: Option<string>, body: Option<string>): (r: Result<Submission, PostError>)
    ensures r == Failure(MissingField) <==> !IsSet(location) || !IsSet(body)
    ensures r == Failure(InvalidLocation) <==> IsSet(location) && IsSet(body) && location.value !in ValidLocations
    ensures r.Success? ==>
              && r.value == Submission(location.value, body.value)
              && r.value.location in ValidLocations && r.value.body != ""
  {
    if !IsSet(location) || !IsSet(body) then Failure(MissingField)
    else if location.value !in ValidLocations then Failure(InvalidLocation)
    else Success(Submission(location.value, body.value))
  }

  // ---- the server object ----

  class Server {
    /** The list read from the data set at start-up (a module-level list in the source). */
    const loaded: ReviewList
    /** The sentiment analyser, an external pure function of the text. */
    const scorer: string -> Sentiment
    var reviews: ReviewList

    /** The server's list is always the start-up list itself, never a copy of it. */
    ghost predicate Valid()
      reads this
    {
      reviews == loaded
    }

    constructor (dataset: ReviewList, scorer: string -> Sentiment)
      ensures Valid() && loaded == dataset && this.scorer == scorer
    {
      loaded := dataset;
      this.scorer := scorer;
      reviews := dataset;
    }

    /** `load_reviews`: binds the server's list to the start-up list. */
    method LoadReviews()
      modifies this
      ensures Valid() && unchanged(loaded)
    {
      reviews := loaded;
    }

    /** `reset_reviews`: reloads, which rebinds the same list object; since appends went
        into that very list, the stored records stay exactly as they were. */
    method ResetReviews()
      requires Valid()
      modifies this
      ensures Valid() && reviews.items == old(reviews.items)
    {
      LoadReviews();
    }

    /** The annotation loop: every record of `rs` gets the analyser's scores for its body. */
    method Annotate(rs: seq<Review>)
      modifies set r | r in rs
      ensures forall i :: 0 <= i < |rs| ==> rs[i].sentiment == Some(scorer(rs[i].body))
    {
      for i := 0 to |rs|
        invariant forall k :: 0 <= k < i ==> rs[k].sentiment == Some(scorer(rs[k].body))
      {
        rs[i].sentiment := Some(scorer(rs[i].body));
      }
    }

    /** The filter chain of a GET request. The working list starts as the stored list
        itself; each set filter replaces it by a new list holding the survivors. */
    method Filter(location: Option<string>, startDate: Option<string>, endDate: Option<string>)
      returns (res: Result<ReviewList, QueryError>)
      ensures res.Failure? <==> ParseCriteria(location, startDate, endDate).Failure?
      ensures res.Success? ==>
                && res.value.items == Select(reviews.items, ParseCriteria(location, startDate, endDate).value)
                && (if NoFilter(location, startDate, endDate) then res.value == reviews else fresh(res.value))
    {
      var filtered := reviews;
      if IsSet(location) {
        filtered := new ReviewList(ByLocation(filtered.items, location.value));
      }
      if IsSet(startDate) {
        var start := ParseDate(startDate.value);
        if start.None? {
          return Failure(MalformedDate);
        }
        filtered := new ReviewList(FromStart(filtered.items, start.value));
      }
      if IsSet(endDate) {
        var end := ParseDate(endDate.value);
        if end.None? {
          return Failure(MalformedDate);
        }
        filtered := new ReviewList(UntilEnd(filtered.items, end.value));
      }
      res := Success(filtered);
    }

    /** The rest of a GET request once the working list is chosen: every record on it
        gets its scores, then the list is sorted in place by compound score. */
    method AnnotateAndSort(working: ReviewList)
      modifies working, set r | r in working.items
      ensures working.items == Rank(old(working.items), scorer)
      ensures multiset(working.items) == multiset(old(working.items))
      ensures forall r :: r in old(working.items) ==> r.sentiment == Some(scorer(r.body))
    {
      var selected := working.items;
      Annotate(selected);
      ghost var pairs := Decorate(selected);
      RankFromStoredScores(selected, pairs, scorer);
      SortDescPermutation(selected, CompoundKey(scorer));
      working.SortByCompound();
      assert working.items == Map(SortDesc(pairs, Score), Record);
    }

    /** A GET request: filter, then annotate and sort the working list in place. With no
        filter set the working list is the stored list, so the stored list is reordered. */
    method Get(location: Option<string>, startDate: Option<string>, endDate: Option<string>)
      returns (res: Result<seq<Review>, QueryError>)
      requires Valid()
      modifies reviews, set r | r in reviews.items
      ensures Valid()
      ensures res == Query(old(reviews.items), location, startDate, endDate, scorer)
      ensures res.Failure? ==>
                && reviews.items == old(reviews.items)
                && forall r :: r in old(reviews.items) ==> r.sentiment == old(r.sentiment)
      ensures res.Success? ==> forall r :: r in res.value ==> r.sentiment == Some(scorer(r.body))
      ensures res.Success? ==> forall r :: r in old(reviews.items) && r !in res.value ==> r.sentiment == old(r.sentiment)
      ensures res.Success? ==> reviews.items == if NoFilter(location, startDate, endDate) then res.value
                                                else old(reviews.items)
    {
      var filtered := Filter(location, startDate, endDate);
      if filtered.Failure? {
        return Failure(MalformedDate);
      }
      var working := filtered.value;
      ghost var selected := working.items;
      AnnotateAndSort(working);
      assert forall r :: r in working.items <==> r in multiset(selected);
      QueryFromCriteria(old(reviews.items), location, startDate, endDate, scorer);
      res := Success(working.items);
    }

    /** A POST request: validation first, and only a valid submission is appended. */
    method Post(location: Option<string>, body: Option<string>, newId: string, now: DateTime)
      returns (res: Result<Review, PostError>)
      requires Valid()
      modifies reviews
      ensures Valid()
      ensures Validate(location, body).Failure? ==>
                res == Failure(Validate(location, body).error) && reviews.items == old(reviews.items)
      ensures Validate(location, body).Success? ==>
                && res.Success? && fresh(res.value)
                && res.value.id == newId && res.value.timestamp == now
                && res.value.location == location.value && res.value.body == body.value
                && res.value.sentiment == None
                && reviews.items == old(reviews.items) + [res.value]
    {
      var submission := Validate(location, body);
      if submission.Failure? {
        return Failure(submission.error);
      }
      var review := new Review(newId, submission.value.location, now, submission.value.body);
      reviews.Append(review);
      res := Success(review);
    }
  }

  // ---- properties of the query ----

  lemma QueryFromCriteria(rs: seq<Review>, location: Option<string>, startDate: Option<string>,
                          endDate: Option<string>, scorer: string -> Sentiment)
    requires ParseCriteria(location, startDate, endDate).Success?
    ensures Query(rs, location, startDate, endDate, scorer)
            == Success(Rank(Select(rs, ParseCriteria(location, startDate, endDate).value), scorer))
  {
  }

  /** Sorting the (record, stored score) pairs and keeping the records is the ranking
      by the analyser's score, once every record carries that score. */
  lemma RankFromStoredScores(rs: seq<Review>, ps: seq<(Review, real)>, scorer: string -> Sentiment)
    requires |ps| == |rs|
    requires forall i :: 0 <= i < |rs| ==> ps[i] == (rs[i], scorer(rs[i].body).compound)
    ensures Map(SortDesc(ps, Score), Record) == Rank(rs, scorer)
  {
    forall i | 0 <= i < |ps|
      ensures CompoundKey(scorer)(Record(ps[i])) == Score(ps[i])
    {
    }
    SortDescMap(ps, Record, Score, CompoundKey(scorer));
    assert Map(ps, Record) == rs;
  }

  /** Filtering a concatenation filters each part, so the survivors keep their stored order. */
  lemma SelectKeepsOrder(a: seq<Review>, b: seq<Review>, c: Criteria)
    ensures Select(a + b, c) == Select(a, c) + Select(b, c)
  {
    var a1 := if c.location.Some? then ByLocation(a, c.location.value) else a;
    var b1 := if c.location.Some? then ByLocation(b, c.location.value) else b;
    if c.location.Some? { KeepConcat(a, b, LocationIs(c.location.value)); }
    var a2 := if c.start.Some? then FromStart(a1, c.start.value) else a1;
    var b2 := if c.start.Some? then FromStart(b1, c.start.value) else b1;
    if c.start.Some? { KeepConcat(a1, b1, StampedFrom(Midnight(c.start.value))); }
    if c.end.Some? { KeepConcat(a2, b2, StampedUntil(Midnight(c.end.value))); }
  }

  /** Each stored record appears in the selection as often as it is stored if it matches
      the criteria, and not at all otherwise. */
  lemma SelectCount(rs: seq<Review>, c: Criteria, r: Review)
    ensures multiset(Select(rs, c))[r] == if Matches(r, c) then multiset(rs)[r] else 0
  {
    var rs1 := if c.location.Some? then ByLocation(rs, c.location.value) else rs;
    if c.location.Some? { KeepCount(rs, LocationIs(c.location.value), r); }
    var rs2 := if c.start.Some? then FromStart(rs1, c.start.value) else rs1;
    if c.start.Some? { KeepCount(rs1, StampedFrom(Midnight(c.start.value)), r); }
    if c.end.Some? { KeepCount(rs2, StampedUntil(Midnight(c.end.value)), r); }
  }

  /** The end bound is midnight at the start of the end date: of the records stamped on
      that day, the one stamped exactly 00:00:00 is kept and every later one is dropped. */
  lemma EndDateBoundary(rs: seq<Review>, end: Date, r: Review)
    requires r in rs
    requires r.timestamp.year == end.year && r.timestamp.month == end.month && r.timestamp.day == end.day
    ensures r in UntilEnd(rs, end) <==> r.timestamp == Midnight(end)
  {
    SameDayNotAfterMidnight(r.timestamp, end);
    KeepCount(rs, StampedUntil(Midnight(end)), r);
  }

  /** With the same date as start and end, only records stamped exactly at that day's
      midnight are selected, and every such record (at the requested location) is. */
  lemma SingleDayWindow(rs: seq<Review>, location: Option<string>, day: Date, r: Review)
    requires r in rs
    ensures r in Select(rs, Criteria(location, Some(day), Some(day)))
            <==> (location.Some? ==> r.location == location.value) && r.timestamp == Midnight(day)
  {
    var c := Criteria(location, Some(day), Some(day));
    SelectCount(rs, c, r);
    if NotAfter(Midnight(day), r.timestamp) && NotAfter(r.timestamp, Midnight(day)) {
      NotAfterAntisymmetric(Midnight(day), r.timestamp);
    }
    NotAfterTotalOrder(r.timestamp, r.timestamp, r.timestamp);
  }

  /** With no filter set, the query answers with every stored record, each exactly as
      often as it is stored. */
  lemma UnfilteredQueryKeepsAll(rs: seq<Review>, location: Option<string>, startDate: Option<string>,
                                endDate: Option<string>, scorer: string -> Sentiment)
    requires NoFilter(location, startDate, endDate)
    ensures Query(rs, location, startDate, endDate, scorer).Success?
    ensures multiset(Query(rs, location, startDate, endDate, scorer).value) == multiset(rs)
  {
    assert Select(rs, Criteria(None, None, None)) == rs;
    SortDescPermutation(rs, CompoundKey(scorer));
  }

  /** A successful query answers with exactly the matching stored records (as often as
      they are stored), in non-increasing compound order, and records with equal compound
      scores appear in their stored order. */
  lemma QueryCorrect(rs: seq<Review>, location: Option<string>, startDate: Option<string>,
                     endDate: Option<string>, scorer: string -> Sentiment, r: Review, k: real)
    requires Query(rs, location, startDate, endDate, scorer).Success?
    ensures var out := Query(rs, location, startDate, endDate, scorer).value;
            var c := ParseCriteria(location, startDate, endDate).value;
            && multiset(out)[r] == (if Matches(r, c) then multiset(rs)[r] else 0)
            && (forall i, j :: 0 <= i < j < |out| ==> scorer(out[i].body).compound >= scorer(out[j].body).compound)
            && WithKey(out, CompoundKey(scorer), k) == WithKey(Select(rs, c), CompoundKey(scorer), k)
  {
    var c := ParseCriteria(location, startDate, endDate).value;
    var selected := Select(rs, c);
    SelectCount(rs, c, r);
    SortDescPermutation(selected, CompoundKey(scorer));
    SortDescOrdered(selected, CompoundKey(scorer));
    SortDescStable(selected, CompoundKey(scorer), k);
  }
}
