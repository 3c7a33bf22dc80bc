/**
 * The driver `main`: for each country, search restaurants and cafes, merge
 * the two lists, fetch reviews for every fourth place of the merged list,
 * and append one CSV line per place.  A `try`/`catch` around each country
 * keeps an error from reaching the next country.
 *
 * The output file is the sequence `sink` of appended lines, the header first.
 * The API call counter is threaded through as a number.
 */
module Driver {
  import opened JsValues
  import opened Csv
  import opened Places
  import opened PlaceDetails

  /** One entry of the country list. */
  datatype Country = Country(continent: JsValue, name: JsValue, capital: JsValue)

  /** `" " + capital + ", " + name`, the search query before `encodeURI`. */
  function Query(c: Country): string
  {
    " " + ToJsString(c.capital) + ", " + ToJsString(c.name)
  }

  /**
   * An element of the merged list: a place, or the value `false` that
   * `concat` appends when the cafe search returned `false`.
   */
  datatype Item = Listed(place: Place) | FalseMarker

  function Listing(places: seq<Place>): seq<Item>
  {
    seq(|places|, i requires 0 <= i < |places| => Listed(places[i]))
  }

  /**
   * `restaurants_arr.concat(cafes_arr)`.  `None` when the restaurant search
   * returned `false`: `false.concat` throws.
   */
  function Merge(restaurants: SearchOutcome, cafes: SearchOutcome): Option<seq<Item>>
  {
    if !restaurants.Places? then None
    else Some(Listing(restaurants.list) + (if cafes.Places? then Listing(cafes.list) else [FalseMarker]))
  }

  /**
   * The merged list is `None` exactly when the restaurant search did not
   * return places; otherwise it holds the restaurants in order, then the
   * cafes in order or the single `false`.
   */
  lemma MergeShape(restaurants: SearchOutcome, cafes: SearchOutcome)
    ensures var r := Merge(restaurants, cafes);
      && (r.Some? <==> restaurants.Places?)
      && (r.Some? ==>
            var n := |restaurants.list|;
            && |r.value| == n + (if cafes.Places? then |cafes.list| else 1)
            && (forall j :: 0 <= j < n ==> r.value[j] == Listed(restaurants.list[j]))
            && (cafes.Places? ==> forall k :: 0 <= k < |cafes.list| ==> r.value[n + k] == Listed(cafes.list[k]))
            && (!cafes.Places? ==> r.value[n] == FalseMarker))
  {
  }

  /** Reviews are fetched only for the places at a 1-based position divisible by four. */
  predicate Sampled(index: nat)
  {
    index % 4 == 0
  }

  /** `agg_review_text` after the reviews loop: a space and the text of each review, in order. */
  function ReviewText(reviews: seq<Review>): string
  {
    if reviews == [] then "" else " " + ToJsString(reviews[0].text) + ReviewText(reviews[1..])
  }

  /** The loop's step `agg = agg + " " + review_text` extends the text by one review. */
  lemma {:induction false} ReviewTextSnoc(reviews: seq<Review>, last: Review)
    ensures ReviewText(reviews + [last]) == ReviewText(reviews) + " " + ToJsString(last.text)
    decreases |reviews|
  {
    if reviews != [] {
      assert (reviews + [last])[1..] == reviews[1..] + [last];
      ReviewTextSnoc(reviews[1..], last);
    }
  }

  method AggregateReviews(reviews: seq<Review>) returns (agg: string)
    ensures agg == ReviewText(reviews)
  {
    agg := "";
    for k := 0 to |reviews|
      invariant agg == ReviewText(reviews[..k])
    {
      assert reviews[..k + 1] == reviews[..k] + [reviews[k]];
      ReviewTextSnoc(reviews[..k], reviews[k]);
      agg := agg + " " + ToJsString(reviews[k].text);
    }
    assert reviews[..|reviews|] == reviews;
  }

  /** The row of place `p`; `None` when `types_arr[0]` throws because `types` is missing. */
  function BuildRow(c: Country, p: Place, agg: string): Option<Row>
  {
    match p.types
    case None => None
    case Some(types) =>
      var placeType := if |types| > 0 then types[0] else Undefined;
      Some(Row(c.continent, c.name, c.capital, p.placeId, p.name, placeType, p.rating, p.ratingsTotal, Text(agg)))
  }

  /**
   * A place without `types` throws at `types_arr[0]`; otherwise its line
   * reads back as the nine cleaned values in the header's column order,
   * the first type (or the empty field for none) and the aggregate last.
   */
  lemma BuildRowLine(c: Country, p: Place, agg: string)
    ensures BuildRow(c, p, agg).None? <==> p.types.None?
    ensures BuildRow(c, p, agg).Some? ==>
      ParseFields(CsvLine(BuildRow(c, p, agg).value))
        == Some([CleanReviewText(c.continent), CleanReviewText(c.name), CleanReviewText(c.capital),
                 CleanReviewText(p.placeId), CleanReviewText(p.name),
                 CleanReviewText(if |p.types.value| > 0 then p.types.value[0] else Undefined),
                 CleanReviewText(p.rating), CleanReviewText(p.ratingsTotal), CleanText(agg)])
  {
    if p.types.Some? {
      CsvRoundTrip(BuildRow(c, p, agg).value);
    }
  }

  /** One pass of the per-place loop body: a row built, or an error; `calls` counts the detail fetches. */
  datatype PlaceOutcome = Emitted(row: Row, calls: nat) | Threw(calls: nat)

  function RowOutcome(c: Country, p: Place, agg: string, calls: nat): PlaceOutcome
  {
    match BuildRow(c, p, agg)
    case None => Threw(calls)
    case Some(row) => Emitted(row, calls)
  }

  /** `place.geometry.location` can be read without throwing. */
  predicate HasLocation(p: Place)
  {
    p.geometry.Some? && p.geometry.value.location.Some?
  }

  /**
   * The loop body for the item at 1-based position `index`.  The location is
   * read before the reviews are fetched and the first type after, so a place
   * without `types` throws after its fetch was counted.  A fetch that throws
   * is not counted.
   */
  function PlaceStep(c: Country, item: Item, index: nat, details: JsValue -> Reply<DetailsBody>): PlaceOutcome
  {
    match item
    case FalseMarker => Threw(0)
    case Listed(p) =>
      if !HasLocation(p) then Threw(0)
      else if !Sampled(index) then RowOutcome(c, p, "", 0)
      else
        match GetReviews(details(p.placeId))
        case DetailsThrew => Threw(0)
        case NoReviews => RowOutcome(c, p, "", 1)
        case Reviews(list) => RowOutcome(c, p, ReviewText(list), 1)
  }

  /**
   * Reading `place.geometry.location` throws for the appended `false` and
   * for a place without a location, before any fetch: no row, no count.
   */
  lemma UnreadablePlaceThrows(c: Country, item: Item, index: nat, details: JsValue -> Reply<DetailsBody>)
    ensures item.FalseMarker? || !HasLocation(item.place) ==> PlaceStep(c, item, index, details) == Threw(0)
  {
  }

  /** Rows written, counter increments, and whether an error ended the loop. */
  datatype Progress = Progress(rows: seq<Row>, calls: nat, failed: bool)

  /**
   * The per-place loop over `items` from the item at 0-based cursor `k` on;
   * item `k` sits at 1-based position `k + 1`.
   */
  function PlacesFrom(c: Country, items: seq<Item>, k: nat, details: JsValue -> Reply<DetailsBody>): Progress
    decreases |items| - k
  {
    if k >= |items| then Progress([], 0, false)
    else
      match PlaceStep(c, items[k], k + 1, details)
      case Threw(n) => Progress([], n, true)
      case Emitted(row, n) =>
        var rest := PlacesFrom(c, items, k + 1, details);
        Progress([row] + rest.rows, n + rest.calls, rest.failed)
  }

  /** The body of the `try` block for one country. */
  function CountryRun(c: Country, search: Request -> Reply<Page>, details: JsValue -> Reply<DetailsBody>): Progress
  {
    var restaurants := Search(search, Query(c), "restaurant");
    if restaurants.SearchThrew? then Progress([], 0, true)
    else
      var cafes := Search(search, Query(c), "cafe");
      if cafes.SearchThrew? then Progress([], 1, true)
      else
        match Merge(restaurants, cafes)
        case None => Progress([], 2, true)
        case Some(merged) =>
          if |merged| > 0 then
            var run := PlacesFrom(c, merged, 0, details);
            Progress(run.rows, 2 + run.calls, run.failed)
          else Progress([], 2, false)
  }

  /** Rows written and API calls counted over a list of countries. */
  datatype Totals = Totals(rows: seq<Row>, calls: nat)

  /** The per-country outcomes, in country order. */
  function Runs(countries: seq<Country>, search: Request -> Reply<Page>,
                details: JsValue -> Reply<DetailsBody>): seq<Progress>
  {
    seq(|countries|, i requires 0 <= i < |countries| => CountryRun(countries[i], search, details))
  }

  /** The rows of the runs one after the other, and the sum of their calls. */
  function Total(runs: seq<Progress>): Totals
  {
    if runs == [] then Totals([], 0)
    else
      var rest := Total(runs[1..]);
      Totals(runs[0].rows + rest.rows, runs[0].calls + rest.calls)
  }

  /** What the driver writes after the header, as rows, and its final counter. */
  function Pipeline(countries: seq<Country>, search: Request -> Reply<Page>,
                    details: JsValue -> Reply<DetailsBody>): Totals
  {
    Total(Runs(countries, search, details))
  }

  /** The text appended to the file for a sequence of rows, one line each. */
  function Lines(rows: seq<Row>): seq<string>
  {
    if rows == [] then [] else [CsvLine(rows[0])] + Lines(rows[1..])
  }

  /** Line `i` of the output is the CSV line of row `i`. */
  lemma {:induction false} LinesAt(rows: seq<Row>, i: nat)
    requires i < |rows|
    ensures |Lines(rows)| == |rows| && Lines(rows)[i] == CsvLine(rows[i])
    decreases |rows|
  {
    var rest := Lines(rows[1..]);
    assert Lines(rows) == [CsvLine(rows[0])] + rest;
    if |rows| > 1 {
      LinesAt(rows[1..], if i > 0 then i - 1 else 0);
      assert i > 0 ==> rows[1..][i - 1] == rows[i];
    } else {
      assert rows[1..] == [];
    }
  }

  lemma {:induction false} LinesAppend(a: seq<Row>, b: seq<Row>)
    ensures Lines(a + b) == Lines(a) + Lines(b)
    decreases |a|
  {
    if a == [] {
      assert a + b == b;
    } else {
      assert (a + b)[0] == a[0];
      assert (a + b)[1..] == a[1..] + b;
      LinesAppend(a[1..], b);
    }
  }

  /** Runs contribute independently: the totals of a concatenation are the sums of the parts. */
  lemma {:induction false} TotalAppend(a: seq<Progress>, b: seq<Progress>)
    ensures Total(a + b) == Totals(Total(a).rows + Total(b).rows, Total(a).calls + Total(b).calls)
    decreases |a|
  {
    if a == [] {
      assert a + b == b;
    } else {
      var ab := a + b;
      assert ab[0] == a[0];
      assert ab[1..] == a[1..] + b;
      TotalAppend(a[1..], b);
      var mid, tb := Total(a[1..]), Total(b);
      AppendAssoc(a[0].rows, mid.rows, tb.rows);
      assert Total(ab) == Totals(a[0].rows + Total(ab[1..]).rows, a[0].calls + Total(ab[1..]).calls);
      assert Total(a) == Totals(a[0].rows + mid.rows, a[0].calls + mid.calls);
    }
  }

  lemma TotalSnoc(runs: seq<Progress>, k: nat)
    requires k < |runs|
    ensures Total(runs[..k + 1]) == Totals(Total(runs[..k]).rows + runs[k].rows, Total(runs[..k]).calls + runs[k].calls)
  {
    assert runs[..k + 1] == runs[..k] + [runs[k]];
    TotalAppend(runs[..k], [runs[k]]);
    assert Total([runs[k]]) == Totals(runs[k].rows, runs[k].calls);
  }

  /** The loop body for one place: fetch the reviews if sampled, then build the row. */
  method ProcessPlace(c: Country, item: Item, index: nat, details: JsValue -> Reply<DetailsBody>)
      returns (o: PlaceOutcome)
    ensures o == PlaceStep(c, item, index, details)
  {
    if item.FalseMarker? || !HasLocation(item.place) {
      return Threw(0);
    }
    var place := item.place;
    var agg := "";
    var calls := 0;
    if Sampled(index) {
      var reviews := GetReviews(details(place.placeId));
      if reviews.DetailsThrew? {
        return Threw(0);
      }
      calls := calls + 1;
      if reviews.Reviews? {
        agg := AggregateReviews(reviews.list);
      }
    }
    var row := BuildRow(c, place, agg);
    if row.None? {
      return Threw(calls);
    }
    o := Emitted(row.value, calls);
  }

  /**
   * The per-place loop of one country over the merged list `items`,
   * appending one line per place to `sink` and counting in `counter`.
   */
  method ProcessPlaces(c: Country, items: seq<Item>, details: JsValue -> Reply<DetailsBody>,
                       sink0: seq<string>, counter0: nat)
      returns (sink: seq<string>, counter: nat, caught: bool)
    ensures var run := PlacesFrom(c, items, 0, details);
      sink == sink0 + Lines(run.rows) && counter == counter0 + run.calls && caught == run.failed
  {
    sink, counter, caught := sink0, counter0, false;
    ghost var whole := PlacesFrom(c, items, 0, details);
    var index := 0;
    while index < |items|
      invariant 0 <= index <= |items|
      invariant sink0 + Lines(whole.rows) == sink + Lines(PlacesFrom(c, items, index, details).rows)
      invariant counter0 + whole.calls == counter + PlacesFrom(c, items, index, details).calls
      invariant whole.failed == PlacesFrom(c, items, index, details).failed
    {
      PlacesFromStep(c, items, index, details);
      var o := ProcessPlace(c, items[index], index + 1, details);
      counter := counter + o.calls;
      if o.Threw? {
        return sink, counter, true;
      }
      AppendAssoc(sink, [CsvLine(o.row)], Lines(PlacesFrom(c, items, index + 1, details).rows));
      sink := sink + [CsvLine(o.row)];
      index := index + 1;
    }
  }

  /** One round of the per-place loop, in terms of the lines it appends. */
  lemma PlacesFromStep(c: Country, items: seq<Item>, k: nat, details: JsValue -> Reply<DetailsBody>)
    requires k < |items|
    ensures var o, run, rest := PlaceStep(c, items[k], k + 1, details), PlacesFrom(c, items, k, details),
                                PlacesFrom(c, items, k + 1, details);
      && (o.Threw? ==> run == Progress([], o.calls, true))
      && (o.Emitted? ==>
            Lines(run.rows) == [CsvLine(o.row)] + Lines(rest.rows) &&
            run.calls == o.calls + rest.calls && run.failed == rest.failed)
  {
    var o, rest := PlaceStep(c, items[k], k + 1, details), PlacesFrom(c, items, k + 1, details);
    if o.Emitted? {
      assert PlacesFrom(c, items, k, details).rows == [o.row] + rest.rows;
      assert ([o.row] + rest.rows)[1..] == rest.rows;
    }
  }

  /**
   * One country: two searches, the merge, and the per-place loop.  On an
   * error the lines appended so far stay, and `caught` is set.
   */
  method ProcessCountry(c: Country, search: Request -> Reply<Page>, details: JsValue -> Reply<DetailsBody>,
                        sink0: seq<string>, counter0: nat)
      returns (sink: seq<string>, counter: nat, caught: bool)
    ensures var run := CountryRun(c, search, details);
      sink == sink0 + Lines(run.rows) && counter == counter0 + run.calls && caught == run.failed
  {
    sink, counter, caught := sink0, counter0, false;
    var query := Query(c);
    ghost var requests: seq<Request>, waits: nat;
    var restaurants;
    restaurants, requests, waits := GetPlaces(search, query, "restaurant");
    if restaurants.SearchThrew? {
      return sink, counter, true;
    }
    counter := counter + 1;
    var cafes;
    cafes, requests, waits := GetPlaces(search, query, "cafe");
    if cafes.SearchThrew? {
      return sink, counter, true;
    }
    counter := counter + 1;
    var merged := Merge(restaurants, cafes);
    if merged.None? {
      return sink, counter, true;
    }
    if |merged.value| > 0 {
      sink, counter, caught := ProcessPlaces(c, merged.value, details, sink, counter);
    }
  }

  /** `main`: the header line, then every country in turn. */
  method FetchAll(countries: seq<Country>, search: Request -> Reply<Page>, details: JsValue -> Reply<DetailsBody>)
      returns (sink: seq<string>, apiCounter: nat)
    ensures sink == [HEADER] + Lines(Pipeline(countries, search, details).rows)
    ensures apiCounter == Pipeline(countries, search, details).calls
  {
    ghost var runs := Runs(countries, search, details);
    sink := [HEADER];
    apiCounter := 0;
    for k := 0 to |countries|
      invariant sink == [HEADER] + Lines(Total(runs[..k]).rows)
      invariant apiCounter == Total(runs[..k]).calls
    {
      ghost var before := Total(runs[..k]);
      ghost var run := runs[k];
      TotalSnoc(runs, k);
      LinesAppend(before.rows, run.rows);
      var caught;
      sink, apiCounter, caught := ProcessCountry(countries[k], search, details, sink, apiCounter);
      AppendAssoc([HEADER], Lines(before.rows), Lines(run.rows));
    }
    assert runs[..|countries|] == runs;
  }

  // ---------------------------------------------------------------------
  // Properties of the per-place step

  /**
   * A place's reviews are fetched exactly when it is a readable place at a
   * sampled position; a fetch is counted unless it threw.  An unsampled
   * place does not depend on the details service at all.
   */
  lemma PlaceStepCalls(c: Country, item: Item, index: nat,
                       details: JsValue -> Reply<DetailsBody>, other: JsValue -> Reply<DetailsBody>)
    ensures var o := PlaceStep(c, item, index, details);
      && o.calls <= 1
      && (o.calls == 1 <==> item.Listed? && HasLocation(item.place) && Sampled(index)
                            && !GetReviews(details(item.place.placeId)).DetailsThrew?)
      && (o.Emitted? ==> o.calls == if Sampled(index) then 1 else 0)
      && (!Sampled(index) ==> o == PlaceStep(c, item, index, other))
  {
  }

  /**
   * The row of an emitted place: the country's three values, the place's
   * own fields, its first type (undefined for an empty list) and the
   * aggregated review text, which is empty when the place was not sampled or
   * `getReviews` returned `false` and the joined reviews otherwise.
   */
  lemma EmittedRow(c: Country, p: Place, index: nat, details: JsValue -> Reply<DetailsBody>)
    requires PlaceStep(c, Listed(p), index, details).Emitted?
    ensures HasLocation(p) && p.types.Some?
    ensures var reviews := GetReviews(details(p.placeId));
      var agg := if Sampled(index) && reviews.Reviews? then ReviewText(reviews.list) else "";
      var types := p.types.value;
      PlaceStep(c, Listed(p), index, details).row
        == Row(c.continent, c.name, c.capital, p.placeId, p.name, if |types| > 0 then types[0] else Undefined,
               p.rating, p.ratingsTotal, Text(agg))
  {
  }

  // ---------------------------------------------------------------------
  // Sampling arithmetic

  /** How many of the positions `lo`, …, `lo + n - 1` are sampled. */
  function SampledCount(lo: nat, n: nat): nat
    decreases n
  {
    if n == 0 then 0 else (if Sampled(lo) then 1 else 0) + SampledCount(lo + 1, n - 1)
  }

  /** Among positions `lo` to `lo + n - 1`, the multiples of four. */
  lemma {:induction false} SampledCountFormula(lo: nat, n: nat)
    requires lo >= 1
    ensures SampledCount(lo, n) == (lo + n - 1) / 4 - (lo - 1) / 4
    decreases n
  {
    if n > 0 {
      SampledCountFormula(lo + 1, n - 1);
      assert (lo - 1) / 4 + (if lo % 4 == 0 then 1 else 0) == lo / 4;
    }
  }

  /** Of the first `n` places of a list, `n / 4` are sampled. */
  lemma FetchesPerList(n: nat)
    ensures SampledCount(1, n) == n / 4
  {
    SampledCountFormula(1, n);
  }

  // ---------------------------------------------------------------------
  // Properties of the per-place loop

  /** A row is emitted with one counted fetch exactly at a sampled position. */
  lemma EmittedCalls(c: Country, item: Item, index: nat, details: JsValue -> Reply<DetailsBody>)
    requires PlaceStep(c, item, index, details).Emitted?
    ensures PlaceStep(c, item, index, details).calls == if Sampled(index) then 1 else 0
  {
  }

  /**
   * From cursor `k` on, the loop writes at most one row per place left.
   * Without an error it writes a row for every place left; with one, the
   * error is raised at the place just after the last row written.
   */
  lemma {:induction false} PlacesFromStop(c: Country, items: seq<Item>, k: nat,
                                          details: JsValue -> Reply<DetailsBody>)
    requires k <= |items|
    ensures var run := PlacesFrom(c, items, k, details);
      && |run.rows| <= |items| - k
      && (!run.failed ==> |run.rows| == |items| - k)
      && (run.failed ==>
            k + |run.rows| < |items| &&
            PlaceStep(c, items[k + |run.rows|], k + |run.rows| + 1, details).Threw?)
    decreases |items| - k
  {
    if k < |items| && PlaceStep(c, items[k], k + 1, details).Emitted? {
      PlacesFromStop(c, items, k + 1, details);
    }
  }

  /** The rows written from cursor `k` on are those of consecutive places, in list order. */
  lemma {:induction false} PlacesFromRows(c: Country, items: seq<Item>, k: nat,
                                          details: JsValue -> Reply<DetailsBody>)
    requires k <= |items|
    ensures var run := PlacesFrom(c, items, k, details);
      && |run.rows| <= |items| - k
      && forall j :: k <= j < k + |run.rows| ==>
           PlaceStep(c, items[j], j + 1, details).Emitted? &&
           PlaceStep(c, items[j], j + 1, details).row == run.rows[j - k]
    decreases |items| - k
  {
    PlacesFromStop(c, items, k, details);
    if k < |items| {
      var o := PlaceStep(c, items[k], k + 1, details);
      if o.Emitted? {
        var run := PlacesFrom(c, items, k, details);
        var rest := PlacesFrom(c, items, k + 1, details);
        PlacesFromRows(c, items, k + 1, details);
        assert run.rows == [o.row] + rest.rows;
        forall j | k <= j < k + |run.rows|
          ensures PlaceStep(c, items[j], j + 1, details).Emitted? &&
                  PlaceStep(c, items[j], j + 1, details).row == run.rows[j - k]
        {
          if j > k {
            assert run.rows[j - k] == rest.rows[j - (k + 1)];
          }
        }
      }
    }
  }

  /**
   * The counter: one per sampled position among the rows written, plus the
   * fetch of the place that threw, if it was counted.  Without an error this
   * is one per sampled position of the places left.
   */
  lemma PlacesFromCalls(c: Country, items: seq<Item>, k: nat, details: JsValue -> Reply<DetailsBody>)
    requires k <= |items|
    ensures var run := PlacesFrom(c, items, k, details);
      && (!run.failed ==> run.calls == SampledCount(k + 1, |items| - k))
      && (run.failed ==>
            k + |run.rows| < |items| &&
            run.calls == SampledCount(k + 1, |run.rows|) + PlaceStep(c, items[k + |run.rows|], k + |run.rows| + 1, details).calls)
  {
    PlacesFromCallsDone(c, items, k, details);
    PlacesFromCallsFailed(c, items, k, details);
  }

  lemma {:induction false} PlacesFromCallsDone(c: Country, items: seq<Item>, k: nat,
                                               details: JsValue -> Reply<DetailsBody>)
    requires k <= |items|
    ensures var run := PlacesFrom(c, items, k, details);
      !run.failed ==> run.calls == SampledCount(k + 1, |items| - k)
    decreases |items| - k
  {
    if k < |items| {
      var o := PlaceStep(c, items[k], k + 1, details);
      if o.Emitted? {
        EmittedCalls(c, items[k], k + 1, details);
        PlacesFromCallsDone(c, items, k + 1, details);
      }
    }
  }

  lemma {:induction false} PlacesFromCallsFailed(c: Country, items: seq<Item>, k: nat,
                                                 details: JsValue -> Reply<DetailsBody>)
    requires k <= |items|
    ensures var run := PlacesFrom(c, items, k, details);
      run.failed ==>
        k + |run.rows| < |items| &&
        run.calls == SampledCount(k + 1, |run.rows|) + PlaceStep(c, items[k + |run.rows|], k + |run.rows| + 1, details).calls
    decreases |items| - k
  {
    if k < |items| {
      var o := PlaceStep(c, items[k], k + 1, details);
      if o.Emitted? {
        EmittedCalls(c, items[k], k + 1, details);
        PlacesFromCallsFailed(c, items, k + 1, details);
        var run := PlacesFrom(c, items, k, details);
        var rest := PlacesFrom(c, items, k + 1, details);
        assert run.rows == [o.row] + rest.rows && run.failed == rest.failed && run.calls == o.calls + rest.calls;
        if rest.failed {
          var m := |rest.rows|;
          var j := k + 1 + m;
          assert k + |run.rows| == j;
          assert SampledCount(k + 1, m + 1) == o.calls + SampledCount(k + 2, m);
        }
      } else {
        assert PlacesFrom(c, items, k, details) == Progress([], o.calls, true);
      }
    }
  }

  // ---------------------------------------------------------------------
  // Properties of one country

  /**
   * The errors of one country.  The counter gains one per search that
   * returned before the error.  A restaurant search that returned `false`
   * ends the country at the merge; a cafe search that returned `false` ends
   * it after the restaurant rows, at the `false` the merge appended.
   */
  lemma CountryRunErrors(c: Country, search: Request -> Reply<Page>, details: JsValue -> Reply<DetailsBody>)
    ensures var r, f, run := Search(search, Query(c), "restaurant"), Search(search, Query(c), "cafe"),
                             CountryRun(c, search, details);
      && (r.SearchThrew? ==> run == Progress([], 0, true))
      && (!r.SearchThrew? && f.SearchThrew? ==> run == Progress([], 1, true))
      && (r.NoPlaces? && !f.SearchThrew? ==> run == Progress([], 2, true))
      && (r.Places? && f.NoPlaces? ==> run.failed && |run.rows| <= |r.list|)
  {
    var r, f := Search(search, Query(c), "restaurant"), Search(search, Query(c), "cafe");
    if r.Places? && f.NoPlaces? {
      var merged := Merge(r, f).value;
      PlacesFromStop(c, merged, 0, details);
      PlacesFromRows(c, merged, 0, details);
      assert merged[|r.list|] == FalseMarker;
      assert PlaceStep(c, merged[|r.list|], |r.list| + 1, details) == Threw(0);
    }
  }

  /**
   * A country that ends without an error had places from both searches,
   * wrote a row for each, and raised the counter by two plus a quarter of
   * its places.
   */
  lemma CountryRunComplete(c: Country, search: Request -> Reply<Page>, details: JsValue -> Reply<DetailsBody>)
    ensures var r, f, run := Search(search, Query(c), "restaurant"), Search(search, Query(c), "cafe"),
                             CountryRun(c, search, details);
      !run.failed ==>
        && r.Places? && f.Places?
        && |run.rows| == |r.list| + |f.list|
        && run.calls == 2 + (|r.list| + |f.list|) / 4
  {
    var r, f := Search(search, Query(c), "restaurant"), Search(search, Query(c), "cafe");
    CountryRunErrors(c, search, details);
    if r.Places? && f.Places? {
      var merged := Merge(r, f).value;
      PlacesFromStop(c, merged, 0, details);
      PlacesFromCalls(c, merged, 0, details);
      FetchesPerList(|merged|);
    }
  }

  /**
   * The rows of a country come in merged order, restaurants first and then
   * cafes: row `j` is the row of the place at 1-based position `j + 1`.  When
   * the cafe search returned `false`, the rows written before the error are
   * those of restaurants, in order.
   */
  lemma CountryRunOrder(c: Country, search: Request -> Reply<Page>, details: JsValue -> Reply<DetailsBody>)
    ensures var r, f, run := Search(search, Query(c), "restaurant"), Search(search, Query(c), "cafe"),
                             CountryRun(c, search, details);
      && (r.Places? && f.Places? ==>
            && |run.rows| <= |r.list| + |f.list|
            && (forall j :: 0 <= j < |run.rows| && j < |r.list| ==>
                  PlaceStep(c, Listed(r.list[j]), j + 1, details).Emitted? &&
                  PlaceStep(c, Listed(r.list[j]), j + 1, details).row == run.rows[j])
            && (forall k :: 0 <= k < |run.rows| - |r.list| ==>
                  PlaceStep(c, Listed(f.list[k]), |r.list| + k + 1, details).Emitted? &&
                  PlaceStep(c, Listed(f.list[k]), |r.list| + k + 1, details).row == run.rows[|r.list| + k]))
      && (r.Places? && f.NoPlaces? ==>
            && |run.rows| <= |r.list|
            && (forall j :: 0 <= j < |run.rows| ==>
                  PlaceStep(c, Listed(r.list[j]), j + 1, details).Emitted? &&
                  PlaceStep(c, Listed(r.list[j]), j + 1, details).row == run.rows[j]))
  {
    CountryRunOrderPlaces(c, search, details);
    CountryRunOrderFalse(c, search, details);
  }

  lemma CountryRunOrderPlaces(c: Country, search: Request -> Reply<Page>, details: JsValue -> Reply<DetailsBody>)
    ensures var r, f, run := Search(search, Query(c), "restaurant"), Search(search, Query(c), "cafe"),
                             CountryRun(c, search, details);
      r.Places? && f.Places? ==>
        && |run.rows| <= |r.list| + |f.list|
        && (forall j :: 0 <= j < |run.rows| && j < |r.list| ==>
              PlaceStep(c, Listed(r.list[j]), j + 1, details).Emitted? &&
              PlaceStep(c, Listed(r.list[j]), j + 1, details).row == run.rows[j])
        && (forall k :: 0 <= k < |run.rows| - |r.list| ==>
              PlaceStep(c, Listed(f.list[k]), |r.list| + k + 1, details).Emitted? &&
              PlaceStep(c, Listed(f.list[k]), |r.list| + k + 1, details).row == run.rows[|r.list| + k])
  {
    var r, f := Search(search, Query(c), "restaurant"), Search(search, Query(c), "cafe");
    if r.Places? && f.Places? {
      var merged := Listing(r.list) + Listing(f.list);
      assert Merge(r, f) == Some(merged);
      assert |merged| > 0;
      var rows := PlacesFrom(c, merged, 0, details).rows;
      assert CountryRun(c, search, details).rows == rows;
      PrefixOrder(c, r.list, Listing(f.list), details);
      MergedOrder(c, r.list, f.list, details);
    }
  }

  lemma CountryRunOrderFalse(c: Country, search: Request -> Reply<Page>, details: JsValue -> Reply<DetailsBody>)
    ensures var r, f, run := Search(search, Query(c), "restaurant"), Search(search, Query(c), "cafe"),
                             CountryRun(c, search, details);
      r.Places? && f.NoPlaces? ==>
        && |run.rows| <= |r.list|
        && (forall j :: 0 <= j < |run.rows| ==>
              PlaceStep(c, Listed(r.list[j]), j + 1, details).Emitted? &&
              PlaceStep(c, Listed(r.list[j]), j + 1, details).row == run.rows[j])
  {
    var r, f := Search(search, Query(c), "restaurant"), Search(search, Query(c), "cafe");
    if r.Places? && f.NoPlaces? {
      var merged := Listing(r.list) + [FalseMarker];
      assert Merge(r, f) == Some(merged);
      assert |merged| > 0;
      assert CountryRun(c, search, details).rows == PlacesFrom(c, merged, 0, details).rows;
      CountryRunErrors(c, search, details);
      PrefixOrder(c, r.list, [FalseMarker], details);
    }
  }

  /** The per-place loop over a list that starts with `first` visits `first` in order. */
  lemma PrefixOrder(c: Country, first: seq<Place>, tail: seq<Item>, details: JsValue -> Reply<DetailsBody>)
    ensures var run := PlacesFrom(c, Listing(first) + tail, 0, details);
      && |run.rows| <= |first| + |tail|
      && (forall j :: 0 <= j < |run.rows| && j < |first| ==>
            PlaceStep(c, Listed(first[j]), j + 1, details).Emitted? &&
            PlaceStep(c, Listed(first[j]), j + 1, details).row == run.rows[j])
  {
    var merged := Listing(first) + tail;
    var run := PlacesFrom(c, merged, 0, details);
    PlacesFromRows(c, merged, 0, details);
    forall j | 0 <= j < |run.rows| && j < |first|
      ensures PlaceStep(c, Listed(first[j]), j + 1, details).Emitted? &&
              PlaceStep(c, Listed(first[j]), j + 1, details).row == run.rows[j]
    {
      assert merged[j] == Listed(first[j]);
    }
  }

  /** The per-place loop over a merged list visits the second list after the first, in order. */
  lemma MergedOrder(c: Country, first: seq<Place>, second: seq<Place>, details: JsValue -> Reply<DetailsBody>)
    ensures var run := PlacesFrom(c, Listing(first) + Listing(second), 0, details);
      && |run.rows| <= |first| + |second|
      && (forall k :: 0 <= k < |run.rows| - |first| ==>
            PlaceStep(c, Listed(second[k]), |first| + k + 1, details).Emitted? &&
            PlaceStep(c, Listed(second[k]), |first| + k + 1, details).row == run.rows[|first| + k])
  {
    var merged := Listing(first) + Listing(second);
    var run := PlacesFrom(c, merged, 0, details);
    PlacesFromRows(c, merged, 0, details);
    forall k | 0 <= k < |run.rows| - |first|
      ensures PlaceStep(c, Listed(second[k]), |first| + k + 1, details).Emitted? &&
              PlaceStep(c, Listed(second[k]), |first| + k + 1, details).row == run.rows[|first| + k]
    {
      assert merged[|first| + k] == Listed(second[k]);
    }
  }

  // ---------------------------------------------------------------------
  // Properties of the country loop

  /**
   * Country `i` contributes its own outcome whatever the countries before it
   * did: an error in one country does not stop the others.  The services
   * answer a request the same way whatever was asked before, so nothing else
   * passes from one country to the next.
   */
  lemma PipelineSplit(countries: seq<Country>, i: nat, search: Request -> Reply<Page>,
                      details: JsValue -> Reply<DetailsBody>)
    requires i < |countries|
    ensures var run := CountryRun(countries[i], search, details);
      && Pipeline(countries, search, details).rows
           == Pipeline(countries[..i], search, details).rows + run.rows + Pipeline(countries[i + 1..], search, details).rows
      && Pipeline(countries, search, details).calls
           == Pipeline(countries[..i], search, details).calls + run.calls + Pipeline(countries[i + 1..], search, details).calls
  {
    var all := Runs(countries, search, details);
    RunsPrefix(countries, i, search, details);
    RunsSuffix(countries, i + 1, search, details);
    TotalSplit(all, i);
  }

  /** The outcomes of the first `k` countries are the first `k` outcomes. */
  lemma RunsPrefix(countries: seq<Country>, k: nat, search: Request -> Reply<Page>,
                   details: JsValue -> Reply<DetailsBody>)
    requires k <= |countries|
    ensures Runs(countries[..k], search, details) == Runs(countries, search, details)[..k]
  {
  }

  /** The outcomes of the countries from `k` on are the outcomes from `k` on. */
  lemma RunsSuffix(countries: seq<Country>, k: nat, search: Request -> Reply<Page>,
                   details: JsValue -> Reply<DetailsBody>)
    requires k <= |countries|
    ensures Runs(countries[k..], search, details) == Runs(countries, search, details)[k..]
  {
  }

  /** The totals around one run: everything before it, the run, everything after it. */
  lemma TotalSplit(runs: seq<Progress>, i: nat)
    requires i < |runs|
    ensures Total(runs).rows == Total(runs[..i]).rows + runs[i].rows + Total(runs[i + 1..]).rows
    ensures Total(runs).calls == Total(runs[..i]).calls + runs[i].calls + Total(runs[i + 1..]).calls
  {
    var before, after := runs[..i], runs[i + 1..];
    assert runs == before + [runs[i]] + after;
    TotalAppend(before + [runs[i]], after);
    TotalAppend(before, [runs[i]]);
    assert Total([runs[i]]) == Totals(runs[i].rows, runs[i].calls);
    AppendAssoc(Total(before).rows, runs[i].rows, Total(after).rows);
  }

  /**
   * After more countries the file only has more rows at its end and the
   * counter is no smaller.
   */
  lemma PipelineGrows(countries: seq<Country>, i: nat, j: nat, search: Request -> Reply<Page>,
                      details: JsValue -> Reply<DetailsBody>)
    requires i <= j <= |countries|
    ensures var early, late := Pipeline(countries[..i], search, details), Pipeline(countries[..j], search, details);
      && |early.rows| <= |late.rows|
      && late.rows[..|early.rows|] == early.rows
      && early.calls <= late.calls
  {
    RunsPrefix(countries, i, search, details);
    RunsPrefix(countries, j, search, details);
    TotalGrows(Runs(countries, search, details), i, j);
  }

  lemma TotalGrows(runs: seq<Progress>, i: nat, j: nat)
    requires i <= j <= |runs|
    ensures |Total(runs[..i]).rows| <= |Total(runs[..j]).rows|
    ensures Total(runs[..j]).rows[..|Total(runs[..i]).rows|] == Total(runs[..i]).rows
    ensures Total(runs[..i]).calls <= Total(runs[..j]).calls
  {
    assert runs[..j] == runs[..i] + runs[i..j];
    TotalAppend(runs[..i], runs[i..j]);
  }

  // ---------------------------------------------------------------------
  // Properties of the aggregated review text

  /**
   * Empty exactly when there are no reviews; otherwise it starts with a
   * space, and it is one separating space plus the text per review.
   */
  lemma {:induction false} ReviewTextShape(reviews: seq<Review>)
    ensures ReviewText(reviews) == "" <==> reviews == []
    ensures reviews != [] ==> ReviewText(reviews)[0] == ' '
    ensures |ReviewText(reviews)| == |reviews| + SumLengths(reviews)
    decreases |reviews|
  {
    if reviews != [] {
      ReviewTextShape(reviews[1..]);
    }
  }

  /** The total length of the review texts as concatenation renders them. */
  function SumLengths(reviews: seq<Review>): nat
  {
    if reviews == [] then 0 else |ToJsString(reviews[0].text)| + SumLengths(reviews[1..])
  }

  /** The joined reviews with each text cleaned on its own. */
  function CleanedReviewText(reviews: seq<Review>): string
  {
    if reviews == [] then "" else " " + CleanText(ToJsString(reviews[0].text)) + CleanedReviewText(reviews[1..])
  }

  /**
   * Cleaning the aggregate once, at row build, gives the same field as
   * cleaning every review on its own: the separating spaces are left as they are.
   */
  lemma {:induction false} CleanOnce(reviews: seq<Review>)
    ensures CleanText(ReviewText(reviews)) == CleanedReviewText(reviews)
    decreases |reviews|
  {
    if reviews != [] {
      var head := " " + ToJsString(reviews[0].text);
      CleanOnce(reviews[1..]);
      CleanTextAppend(head, ReviewText(reviews[1..]));
      CleanTextAppend(" ", ToJsString(reviews[0].text));
      assert CleanText(" ") == " ";
    }
  }

  /**
   * Two reviews, the second ending in a newline: the field starts with the
   * separating space and ends with the space the newline became.
   */
  lemma TwoReviewsScenario(first: string, second: string)
    requires Sanitised(first) && Sanitised(second)
    ensures var agg := ReviewText([Review(Text(first)), Review(Text(second + "\n"))]);
      && agg == " " + first + " " + second + "\n"
      && CleanText(agg) == " " + first + " " + second + " "
  {
    var rs := [Review(Text(first)), Review(Text(second + "\n"))];
    assert rs[1..][1..] == [];
    assert ReviewText(rs[1..]) == " " + (second + "\n") + ReviewText([]);
    var body := " " + first + " " + second;
    assert ReviewText(rs) == body + "\n";
    CleanTextAppend(body, "\n");
    assert Sanitised(body) by {
      forall k | 0 <= k < |body|
        ensures !Unsafe(body[k])
      {
        if k == 0 || k == |first| + 1 {
        } else if k <= |first| {
          assert body[k] == first[k - 1];
        } else {
          assert body[k] == second[k - |first| - 2];
        }
      }
    }
    CleanTextFixesSanitised(body);
    assert CleanText("\n") == " ";
  }

  /** The reviews "Great food" and "Loved it" followed by a line feed. */
  lemma GreatFoodScenario()
    ensures CleanText(ReviewText([Review(Text("Great food")), Review(Text("Loved it\n"))])) == " Great food Loved it "
  {
    assert "Loved it\n" == "Loved it" + "\n";
    assert " Great food Loved it " == " " + "Great food" + " " + "Loved it" + " ";
    TwoReviewsScenario("Great food", "Loved it");
  }
}
