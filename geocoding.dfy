/** Multi-source geocoding with confidence scoring (`geocodeLocation`). */
module Geocoding {
  import opened Wrappers
  import opened Types
  import JsMath

  /** The agreement thresholds 0.1 and 0.5 (degrees, planar), squared: a distance is below
      0.1 exactly when its square is below 0.01, and likewise for 0.5 and 0.25. */
  const HighSpreadSq: real := 0.01
  const MediumSpreadSq: real := 0.25

  /** The result of geocoding one name. */
  datatype GeoResult = GeoResult(lat: real, lon: real, confidence: Confidence, sources: seq<Source>)

  /** The "nothing found" answer. */
  const Unresolved: GeoResult := GeoResult(0.0, 0.0, Low, [])

  /** `llmCoords && llmCoords.lat && llmCoords.lon`: an estimate with a zero coordinate is falsy. */
  predicate LlmUsable(llm: Option<Coord>) {
    llm.Some? && llm.value.lat != 0.0 && llm.value.lon != 0.0
  }

  /** The coordinate a source reported, if any. */
  function Reported(src: Source, llm: Option<Coord>, google: Option<Coord>, nominatim: Option<Coord>): Option<Coord> {
    match src
    case Llm => llm
    case Google => google
    case Nominatim => nominatim
  }

  /** Sources listed in consultation order with none repeated. */
  predicate InConsultationOrder(sources: seq<Source>) {
    forall a, b :: 0 <= a < b < |sources| ==> sources[a].Order() < sources[b].Order()
  }

  /** The parallel `sources` and `coords` lists. */
  datatype Collected = Collected(sources: seq<Source>, coords: seq<Coord>)

  /** One `coords.push` / `sources.push` pair, done when the source answered. */
  function Push(c: Collected, src: Source, answer: Option<Coord>): (r: Collected)
  {
    if answer.Some? then Collected(c.sources + [src], c.coords + [answer.value]) else c
  }

  /** A push only appends: both lists grow by one entry exactly when the source answered, and
      that entry is the source and its answer. */
  lemma PushExtends(c: Collected, src: Source, answer: Option<Coord>)
    ensures var r := Push(c, src, answer);
            && c.sources <= r.sources && c.coords <= r.coords
            && |r.sources| == |c.sources| + (if answer.Some? then 1 else 0)
            && |r.coords| == |c.coords| + (if answer.Some? then 1 else 0)
            && (answer.Some? ==> r.sources[|c.sources|] == src && r.coords[|c.coords|] == answer.value)
  {
  }

  /** The lists are parallel, in consultation order, and each coordinate is the one its source
      reported. */
  predicate Reports(c: Collected, llm: Option<Coord>, google: Option<Coord>, nominatim: Option<Coord>) {
    && |c.sources| == |c.coords|
    && InConsultationOrder(c.sources)
    && forall i :: 0 <= i < |c.sources| ==> Reported(c.sources[i], llm, google, nominatim) == Some(c.coords[i])
  }

  /** Pushing a later source's own answer keeps the lists reporting, and adds exactly that source. */
  lemma PushReports(c: Collected, src: Source, answer: Option<Coord>,
                    llm: Option<Coord>, google: Option<Coord>, nominatim: Option<Coord>)
    requires Reports(c, llm, google, nominatim)
    requires forall i :: 0 <= i < |c.sources| ==> c.sources[i].Order() < src.Order()
    requires answer.Some? ==> Reported(src, llm, google, nominatim) == answer
    ensures Reports(Push(c, src, answer), llm, google, nominatim)
    ensures forall x :: x in Push(c, src, answer).sources <==> x in c.sources || (x == src && answer.Some?)
    ensures forall i :: 0 <= i < |Push(c, src, answer).sources| ==> Push(c, src, answer).sources[i].Order() <= src.Order()
  {
  }

  /** The sources that contributed a coordinate, and those coordinates, position by position. */
  function Collect(llm: Option<Coord>, google: Option<Coord>, nominatim: Option<Coord>): (c: Collected)
    ensures Reports(c, llm, google, nominatim)
    ensures Llm in c.sources <==> LlmUsable(llm)
    ensures Google in c.sources <==> google.Some?
    ensures Nominatim in c.sources <==> nominatim.Some?
  {
    var none := Collected([], []);
    var estimate := if LlmUsable(llm) then llm else None;
    PushReports(none, Llm, estimate, llm, google, nominatim);
    var l := Push(none, Llm, estimate);
    PushReports(l, Google, google, llm, google, nominatim);
    var g := Push(l, Google, google);
    PushReports(g, Nominatim, nominatim, llm, google, nominatim);
    Push(g, Nominatim, nominatim)
  }

  /** The three `push` steps of `geocodeLocation`, in order: LLM estimate, Google, Nominatim. */
  method CollectSources(llm: Option<Coord>, google: Option<Coord>, nominatim: Option<Coord>)
    returns (sources: seq<Source>, coords: seq<Coord>)
    ensures Collected(sources, coords) == Collect(llm, google, nominatim)
  {
    sources, coords := [], [];
    if LlmUsable(llm) {
      coords := coords + [llm.value];
      sources := sources + [Llm];
    }
    if google.Some? {
      coords := coords + [google.value];
      sources := sources + [Google];
    }
    if nominatim.Some? {
      coords := coords + [nominatim.value];
      sources := sources + [Nominatim];
    }
  }

  /** The sum of the latitudes, added left to right as `reduce` does. */
  function SumLat(coords: seq<Coord>): real {
    if coords == [] then 0.0 else SumLat(coords[..|coords| - 1]) + coords[|coords| - 1].lat
  }

  function SumLon(coords: seq<Coord>): real {
    if coords == [] then 0.0 else SumLon(coords[..|coords| - 1]) + coords[|coords| - 1].lon
  }

  /** The arithmetic mean of the coordinates. */
  function Mean(coords: seq<Coord>): Coord
    requires |coords| > 0
  {
    Coord(SumLat(coords) / |coords| as real, SumLon(coords) / |coords| as real)
  }

  /** The mean is the point whose coordinates, taken once per point, give the coordinate sums. */
  lemma MeanTimesCount(coords: seq<Coord>)
    requires |coords| > 0
    ensures Mean(coords).lat * |coords| as real == SumLat(coords)
    ensures Mean(coords).lon * |coords| as real == SumLon(coords)
  {
  }

  /** The squared planar distance, in degrees, between two points. */
  function SqDist(c: Coord, m: Coord): real {
    (c.lat - m.lat) * (c.lat - m.lat) + (c.lon - m.lon) * (c.lon - m.lon)
  }

  /** `Math.max` of the squared distances from `m`: it bounds them all and is one of them. */
  function MaxSqDist(coords: seq<Coord>, m: Coord): (d: real)
    requires |coords| > 0
    ensures forall i :: 0 <= i < |coords| ==> SqDist(coords[i], m) <= d
    ensures exists i :: 0 <= i < |coords| && SqDist(coords[i], m) == d
  {
    if |coords| == 1 then SqDist(coords[0], m)
    else
      var rest := MaxSqDist(coords[..|coords| - 1], m);
      var last := SqDist(coords[|coords| - 1], m);
      if last > rest then last else rest
  }

  /** Every point lies strictly closer to `m` than the square root of `boundSq`. */
  predicate AllWithin(coords: seq<Coord>, m: Coord, boundSq: real) {
    forall i :: 0 <= i < |coords| ==> SqDist(coords[i], m) < boundSq
  }

  /** The confidence when two or more sources agree or disagree: high when every point lies within
      0.1 of the mean, medium when not all do but all lie within 0.5, low otherwise. */
  function Agreement(coords: seq<Coord>): (r: Confidence)
    requires |coords| > 0
    ensures r == High <==> AllWithin(coords, Mean(coords), HighSpreadSq)
    ensures r == Medium <==> !AllWithin(coords, Mean(coords), HighSpreadSq) && AllWithin(coords, Mean(coords), MediumSpreadSq)
    ensures r == Low <==> !AllWithin(coords, Mean(coords), MediumSpreadSq)
  {
    var d := MaxSqDist(coords, Mean(coords));
    if d < HighSpreadSq then High else if d < MediumSpreadSq then Medium else Low
  }

  /** `Math.round(x * 1000000) / 1000000`. */
  function Round6(x: real): (r: real)
    ensures x - 0.0000005 < r <= x + 0.0000005
  {
    JsMath.Round(x * 1000000.0) as real / 1000000.0
  }

  /** The tail of `geocodeLocation`: from the collected lists to coordinates, label and sources. */
  function Reconcile(sources: seq<Source>, coords: seq<Coord>): (r: GeoResult)
    requires |sources| == |coords|
    ensures coords == [] ==> r == Unresolved
    ensures coords != [] ==>
              r.sources == sources && r.lat == Round6(Mean(coords).lat) && r.lon == Round6(Mean(coords).lon)
    ensures |sources| >= 2 ==> r.confidence == Agreement(coords)
    ensures |sources| == 1 ==>
              (r.confidence == Medium <==> sources[0] != Llm) && (r.confidence == Low <==> sources[0] == Llm)
  {
    if coords == [] then Unresolved
    else
      assert |sources| == 1 ==> (Google in sources || Nominatim in sources <==> sources[0] != Llm) by {
        if |sources| == 1 {
          assert sources == [sources[0]];
          assert sources[0] != Llm ==> sources[0].Google? || sources[0].Nominatim?;
        }
      }
      var m := Mean(coords);
      var confidence :=
        if |sources| >= 2 then Agreement(coords)
        else if Google in sources || Nominatim in sources then Medium
        else Low;
      GeoResult(Round6(m.lat), Round6(m.lon), confidence, sources)
  }

  /** What `geocodeLocation` returns for an LLM estimate and the two geocoders' answers: the
      (0, 0) / low / no-sources sentinel when nothing was found, and `high` only with two or more
      sources. */
  function Geocode(llm: Option<Coord>, google: Option<Coord>, nominatim: Option<Coord>): (r: GeoResult)
    ensures r.sources == [] ==> r == Unresolved
    ensures r.confidence == High ==> |r.sources| >= 2
  {
    var c := Collect(llm, google, nominatim);
    Reconcile(c.sources, c.coords)
  }

  /** The sources of the answer: none exactly when nothing was found, otherwise in consultation
      order and each one present exactly when it answered. */
  lemma GeocodeSources(llm: Option<Coord>, google: Option<Coord>, nominatim: Option<Coord>)
    ensures var r := Geocode(llm, google, nominatim);
            && (r.sources == [] <==> !LlmUsable(llm) && google.None? && nominatim.None?)
            && InConsultationOrder(r.sources)
            && (Llm in r.sources <==> LlmUsable(llm))
            && (Google in r.sources <==> google.Some?)
            && (Nominatim in r.sources <==> nominatim.Some?)
  {
    var c := Collect(llm, google, nominatim);
    assert Geocode(llm, google, nominatim) == Reconcile(c.sources, c.coords);
  }

  /** The label: a single source gives `medium` for a geocoder and `low` for the estimate alone;
      two or more give `high`, `medium` or `low` by the distance of the farthest point from the
      mean of all contributing points. */
  lemma GeocodeConfidence(llm: Option<Coord>, google: Option<Coord>, nominatim: Option<Coord>)
    ensures var r := Geocode(llm, google, nominatim);
            && (|r.sources| == 1 ==>
                  (r.confidence == Medium <==> r.sources[0] != Llm) && (r.confidence == Low <==> r.sources[0] == Llm))
            && (|r.sources| >= 2 ==>
                  var cs := Collect(llm, google, nominatim).coords;
                  && |cs| == |r.sources|
                  && (r.confidence == High <==> AllWithin(cs, Mean(cs), HighSpreadSq))
                  && (r.confidence == Medium <==> !AllWithin(cs, Mean(cs), HighSpreadSq) && AllWithin(cs, Mean(cs), MediumSpreadSq))
                  && (r.confidence == Low <==> !AllWithin(cs, Mean(cs), MediumSpreadSq)))
  {
    var c := Collect(llm, google, nominatim);
    assert Geocode(llm, google, nominatim) == Reconcile(c.sources, c.coords);
  }

  /** The point: the mean of every contributing coordinate, the estimate included, rounded to six
      decimals. */
  lemma GeocodePoint(llm: Option<Coord>, google: Option<Coord>, nominatim: Option<Coord>)
    ensures var r := Geocode(llm, google, nominatim);
            r.sources != [] ==>
              var cs := Collect(llm, google, nominatim).coords;
              cs != [] && r.lat == Round6(Mean(cs).lat) && r.lon == Round6(Mean(cs).lon)
  {
    var c := Collect(llm, google, nominatim);
    assert Geocode(llm, google, nominatim) == Reconcile(c.sources, c.coords);
  }

  /** `geocodeLocation(name, llmCoords)`: queries both geocoders for `name` and scores the answers. */
  method GeocodeLocation(name: string, llm: Option<Coord>, google: string -> Option<Coord>, nominatim: string -> Option<Coord>)
    returns (r: GeoResult)
    ensures r == Geocode(llm, google(name), nominatim(name))
  {
    var googleResult := google(name);
    var nominatimResult := nominatim(name);
    var sources, coords := CollectSources(llm, googleResult, nominatimResult);
    r := Reconcile(sources, coords);
  }

  /** Sums over n copies of one point. */
  lemma {:induction false} SumsOfIdentical(coords: seq<Coord>, c: Coord)
    requires forall i :: 0 <= i < |coords| ==> coords[i] == c
    ensures SumLat(coords) == |coords| as real * c.lat
    ensures SumLon(coords) == |coords| as real * c.lon
  {
    if coords != [] {
      SumsOfIdentical(coords[..|coords| - 1], c);
    }
  }

  /** Sources that all report the same point agree perfectly: the mean is that point. */
  lemma MeanOfIdentical(coords: seq<Coord>, c: Coord)
    requires |coords| > 0
    requires forall i :: 0 <= i < |coords| ==> coords[i] == c
    ensures Mean(coords) == c
    ensures AllWithin(coords, Mean(coords), HighSpreadSq)
  {
    SumsOfIdentical(coords, c);
    var n := |coords| as real;
    assert (n * c.lat) / n == c.lat;
    assert (n * c.lon) / n == c.lon;
  }

  /** The LLM estimate counts as a source: it and a single geocoder that give the same nonzero
      point already yield `high`, so `high` does not need two geocoders. */
  lemma LlmAndOneGeocoderAgreeing(c: Coord)
    requires c.lat != 0.0 && c.lon != 0.0
    ensures Geocode(Some(c), Some(c), None).confidence == High
    ensures Geocode(Some(c), Some(c), None).sources == [Llm, Google]
  {
    var cs := Collect(Some(c), Some(c), None).coords;
    assert cs == [c, c];
    MeanOfIdentical(cs, c);
  }

  /** The sums of two points. */
  lemma SumsOfPair(a: Coord, b: Coord)
    ensures SumLat([a, b]) == a.lat + b.lat && SumLon([a, b]) == a.lon + b.lon
  {
    assert [a, b][..1] == [a];
    assert [a][..0] == [];
    assert SumLat([a]) == a.lat && SumLon([a]) == a.lon;
    assert SumLat([a, b]) == SumLat([a]) + b.lat;
    assert SumLon([a, b]) == SumLon([a]) + b.lon;
  }

  /** Two geocoders answering a ten-thousandth of a degree apart in London: `high`, at their
      rounded midpoint. */
  lemma NearbyAnswersAgree()
    ensures var r := Geocode(None, Some(Coord(51.5007, -0.1246)), Some(Coord(51.5008, -0.1245)));
            r.confidence == High && r.sources == [Google, Nominatim]
            && r.lat == 51.50075 && r.lon == -0.12455
  {
    var cs := [Coord(51.5007, -0.1246), Coord(51.5008, -0.1245)];
    assert Collect(None, Some(cs[0]), Some(cs[1])).coords == cs;
    SumsOfPair(cs[0], cs[1]);
    assert Mean(cs) == Coord(51.50075, -0.12455);
    JsMath.RoundOfInteger(51500750);
    JsMath.RoundOfInteger(-124550);
  }

  /** Two geocoders answering about 17 degrees of longitude apart: the answer is `low`. */
  lemma DistantAnswersDisagree()
    ensures var r := Geocode(None, Some(Coord(39.7817, -89.6501)), Some(Coord(42.1015, -72.5898)));
            r.confidence == Low && r.sources == [Google, Nominatim]
  {
    var cs := [Coord(39.7817, -89.6501), Coord(42.1015, -72.5898)];
    assert Collect(None, Some(cs[0]), Some(cs[1])).coords == cs;
    SumsOfPair(cs[0], cs[1]);
    assert Mean(cs) == Coord(40.9416, -81.11995);
    assert SqDist(cs[0], Mean(cs)) >= MediumSpreadSq;
  }
}
