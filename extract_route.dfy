/** The `POST /api/extract-locations` handler: validate, extract with Claude Sonnet, geocode
    every candidate, merge repeats. */
module ExtractRoute {
  import opened Wrappers
  import opened Types
  import Fences
  import Text
  import Extraction
  import Geocoding
  import Dedup

  const MaxTextLength: nat := 100000
  const MissingTextError: string := "Missing or invalid \"text\" field in request body"
  const TooLongError: string := "Text exceeds maximum length of 100,000 characters"
  const InternalError: string := "Internal server error"

  /** A thrown value: an `Error` carries its message, anything else carries none. */
  datatype Thrown = Thrown(message: Option<string>)

  /** The `error` text of a 500 response: the `Error`'s message, otherwise a fixed text. */
  function FailureText(t: Thrown): (r: string)
    ensures t.message.Some? ==> r == t.message.value
    ensures t.message.None? ==> r == InternalError
  {
    t.message.GetOr(InternalError)
  }

  /** The `text` member of the request body: missing (or falsy), present but not a string, or a string. */
  datatype TextField = Absent | NotAString | Text(value: string)

  /** The request body: `request.json()` throws (or yields null), or an object with a `text` member. */
  datatype Body = Unreadable(failure: Thrown) | Fields(text: TextField)

  /** The outcome of validating the `text` member. */
  datatype Validation = Accepted(text: string) | Rejected(inputLength: nat, error: string)

  /** The two guards of the handler: a missing, empty or non-string `text` is rejected with input
      length 0; a string longer than 100,000 characters is rejected with its own length. */
  function Validate(f: TextField): (v: Validation)
    ensures v.Accepted? <==> f.Text? && 0 < |f.value| <= MaxTextLength
    ensures v.Accepted? ==> v.text == f.value
    ensures !f.Text? || f.value == [] ==> v == Rejected(0, MissingTextError)
    ensures f.Text? && |f.value| > MaxTextLength ==> v == Rejected(|f.value|, TooLongError)
  {
    match f
    case Absent => Rejected(0, MissingTextError)
    case NotAString => Rejected(0, MissingTextError)
    case Text(t) =>
      if t == [] then Rejected(0, MissingTextError)
      else if |t| > MaxTextLength then Rejected(|t|, TooLongError)
      else Accepted(t)
  }

  /** The outcome of the Sonnet call: a thrown error, a first content block that is not text
      (or no block at all), or the text of that block. */
  datatype SonnetCall = SonnetError(failure: Thrown) | SonnetNonText | SonnetText(text: string)

  /** The handler's own `extractLocationsWithLLM`: only the call itself can throw; a missing or
      non-text block and an answer that does not parse all give the empty list. */
  function ExtractWithSonnet(call: SonnetCall, parse: string -> Option<Extraction.Doc>): (r: Try<seq<Candidate>>)
    ensures r.Throws? <==> call.SonnetError?
    ensures call.SonnetNonText? ==> r == Returns([])
    ensures call.SonnetText? && parse(Fences.CleanResponse(call.text)).None? ==> r == Returns([])
    ensures call.SonnetText? && parse(Fences.CleanResponse(call.text)).Some? ==>
              r == Returns(Extraction.LocationsOrEmpty(parse(Fences.CleanResponse(call.text)).value))
  {
    match call
    case SonnetError(_) => Throws
    case SonnetNonText => Returns([])
    case SonnetText(t) =>
      match parse(Fences.CleanResponse(t))
      case None => Returns([])
      case Some(d) => Returns(Extraction.LocationsOrEmpty(d))
  }

  /** `loc.llm_lat && loc.llm_lon ? { lat, lon } : undefined`: both present and nonzero. */
  function LlmEstimate(c: Candidate): (r: Option<Coord>)
    ensures r.Some? <==> c.llmLat.Some? && c.llmLon.Some? && c.llmLat.value != 0.0 && c.llmLon.value != 0.0
    ensures r.Some? ==> r.value == Coord(c.llmLat.value, c.llmLon.value)
  {
    if c.llmLat.Some? && c.llmLon.Some? && c.llmLat.value != 0.0 && c.llmLon.value != 0.0
    then Some(Coord(c.llmLat.value, c.llmLon.value))
    else None
  }

  /** The resolved location built from a candidate and its geocoding: the candidate's name and
      description, the geocoded point, confidence and sources, and its one mention. */
  function ToLocation(c: Candidate, g: Geocoding.GeoResult): (r: Location)
    ensures Dedup.Key(r) == Text.FoldCase(c.name)
    ensures r.rawMentions == [c.rawMention]
    ensures r.name == c.name && r.description == c.description
    ensures r.latitude == g.lat && r.longitude == g.lon && r.confidence == g.confidence && r.sources == g.sources
  {
    Location(c.name, c.description, g.lat, g.lon, g.confidence, g.sources, [c.rawMention])
  }

  /** The location a candidate resolves to, given the two geocoders. */
  function Resolve(c: Candidate, google: string -> Option<Coord>, nominatim: string -> Option<Coord>): Location {
    ToLocation(c, Geocoding.Geocode(LlmEstimate(c), google(c.name), nominatim(c.name)))
  }

  /** A resolved candidate keeps its name, description and single mention; with no source it is
      the (0, 0) / low sentinel, and it is `high` only with two or more sources. */
  lemma ResolveKeepsCandidate(c: Candidate, google: string -> Option<Coord>, nominatim: string -> Option<Coord>)
    ensures var r := Resolve(c, google, nominatim);
            && r.name == c.name && r.description == c.description && r.rawMentions == [c.rawMention]
            && (r.sources == [] ==> r.latitude == 0.0 && r.longitude == 0.0 && r.confidence == Low)
            && (r.confidence == High ==> |r.sources| >= 2)
  {
  }

  /** The `Promise.all` map: each candidate resolved, in order. */
  function Resolved(cs: seq<Candidate>, google: string -> Option<Coord>, nominatim: string -> Option<Coord>): (r: seq<Location>)
    ensures |r| == |cs|
  {
    if cs == [] then [] else Resolved(cs[..|cs| - 1], google, nominatim) + [Resolve(cs[|cs| - 1], google, nominatim)]
  }

  /** Position by position, the map holds the candidate at that position resolved. */
  lemma {:induction false} ResolvedAt(cs: seq<Candidate>, i: nat, google: string -> Option<Coord>, nominatim: string -> Option<Coord>)
    requires i < |cs|
    ensures Resolved(cs, google, nominatim)[i] == Resolve(cs[i], google, nominatim)
  {
    if i < |cs| - 1 {
      ResolvedAt(cs[..|cs| - 1], i, google, nominatim);
    }
  }

  /** The raw mentions of the candidates whose folded name is `k`, in input order. */
  function MentionsNamed(cs: seq<Candidate>, k: string): seq<string> {
    if cs == [] then []
    else MentionsNamed(cs[..|cs| - 1], k) + (if Text.FoldCase(cs[|cs| - 1].name) == k then [cs[|cs| - 1].rawMention] else [])
  }

  /** `rs` holds, position by position, one location per candidate with its folded name and
      its single raw mention. */
  predicate MentionsMatch(rs: seq<Location>, cs: seq<Candidate>) {
    |rs| == |cs|
    && forall i :: 0 <= i < |cs| ==> Dedup.Key(rs[i]) == Text.FoldCase(cs[i].name) && rs[i].rawMentions == [cs[i].rawMention]
  }

  lemma {:induction false} GroupMentions(rs: seq<Location>, cs: seq<Candidate>, k: string)
    requires MentionsMatch(rs, cs)
    ensures Dedup.Mentions(Dedup.Group(rs, k)) == MentionsNamed(cs, k)
  {
    if cs != [] {
      var rt, l := rs[..|rs| - 1], rs[|rs| - 1];
      assert rs == rt + [l];
      assert MentionsMatch(rt, cs[..|cs| - 1]);
      GroupMentions(rt, cs[..|cs| - 1], k);
      Dedup.GroupSnoc(rt, l, k);
      Dedup.MentionsSnoc(Dedup.Group(rt, k), l);
    }
  }

  /** Every merged entry carries exactly the raw mentions of the candidates with its folded
      name, in the order the model listed them. */
  lemma MergedMentions(cs: seq<Candidate>, k: string, google: string -> Option<Coord>, nominatim: string -> Option<Coord>)
    ensures Dedup.Mentions(Dedup.Group(Resolved(cs, google, nominatim), k)) == MentionsNamed(cs, k)
  {
    forall i | 0 <= i < |cs|
      ensures Resolved(cs, google, nominatim)[i] == Resolve(cs[i], google, nominatim)
    {
      ResolvedAt(cs, i, google, nominatim);
    }
    GroupMentions(Resolved(cs, google, nominatim), cs, k);
  }

  /** Geocodes every candidate in turn, keeping their order. */
  method ResolveCandidates(cs: seq<Candidate>, google: string -> Option<Coord>, nominatim: string -> Option<Coord>)
    returns (locations: seq<Location>)
    ensures locations == Resolved(cs, google, nominatim)
  {
    locations := [];
    for i := 0 to |cs|
      invariant locations == Resolved(cs[..i], google, nominatim)
    {
      var loc := ResolveOne(cs[i], google, nominatim);
      ResolvedPrefixStep(cs, i, google, nominatim);
      locations := locations + [loc];
    }
    assert cs[..|cs|] == cs;
  }

  lemma ResolvedPrefixStep(cs: seq<Candidate>, i: nat, google: string -> Option<Coord>, nominatim: string -> Option<Coord>)
    requires i < |cs|
    ensures Resolved(cs[..i + 1], google, nominatim) == Resolved(cs[..i], google, nominatim) + [Resolve(cs[i], google, nominatim)]
  {
    var next := cs[..i + 1];
    assert next[..|next| - 1] == cs[..i] && next[|next| - 1] == cs[i];
  }

  /** Geocodes one candidate under its own name, with its usable LLM estimate. */
  method ResolveOne(c: Candidate, google: string -> Option<Coord>, nominatim: string -> Option<Coord>)
    returns (loc: Location)
    ensures loc == Resolve(c, google, nominatim)
  {
    var geocoded := Geocoding.GeocodeLocation(c.name, LlmEstimate(c), google, nominatim);
    loc := ToLocation(c, geocoded);
  }

  /** The JSON response with its HTTP status (`processing_time_ms` is not modelled). */
  datatype Response = Response(status: nat, success: bool, locations: seq<Location>, inputLength: nat, error: Option<string>)

  /** The handler. */
  method Post(body: Body, sonnet: string -> SonnetCall, parse: string -> Option<Extraction.Doc>,
              google: string -> Option<Coord>, nominatim: string -> Option<Coord>)
    returns (resp: Response)
    ensures resp.status in {200, 400, 500}
    ensures resp.success <==> resp.status == 200
    // 400: the guards reject the text, and nothing is extracted.
    ensures resp.status == 400 <==> body.Fields? && Validate(body.text).Rejected?
    ensures resp.status == 400 ==>
              resp == Response(400, false, [], Validate(body.text).inputLength, Some(Validate(body.text).error))
    // 500: the body cannot be read, or the Sonnet call throws.
    ensures resp.status == 500 <==>
              body.Unreadable? || (Validate(body.text).Accepted? && sonnet(Validate(body.text).text).SonnetError?)
    ensures resp.status == 500 ==> resp.locations == [] && resp.inputLength == 0 && resp.error.Some?
    ensures body.Unreadable? ==> resp.error == Some(FailureText(body.failure))
    ensures body.Fields? && resp.status == 500 ==>
              resp.error == Some(FailureText(sonnet(Validate(body.text).text).failure))
    // 200: the merged resolution of every extracted candidate.
    ensures resp.status == 200 ==>
              var text := Validate(body.text).text;
              resp.inputLength == |text| && resp.error.None?
              && resp.locations == Dedup.Deduplicated(Resolved(ExtractWithSonnet(sonnet(text), parse).value, google, nominatim))
  {
    if body.Unreadable? {
      return Response(500, false, [], 0, Some(FailureText(body.failure)));
    }
    var v := Validate(body.text);
    if v.Rejected? {
      return Response(400, false, [], v.inputLength, Some(v.error));
    }
    var call := sonnet(v.text);
    var extracted := ExtractWithSonnet(call, parse);
    if extracted.Throws? {
      return Response(500, false, [], 0, Some(FailureText(call.failure)));
    }
    var locations := ResolveCandidates(extracted.value, google, nominatim);
    var deduped := Dedup.Deduplicate(locations);
    return Response(200, true, deduped, |v.text|, None);
  }
}
