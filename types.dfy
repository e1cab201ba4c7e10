/** The entities that flow through the extraction pipeline. */
module Types {
  import opened Wrappers

  /** A point in degrees. */
  datatype Coord = Coord(lat: real, lon: real)

  /** The confidence label of a resolved location, ordered low < medium < high. */
  datatype Confidence = Low | Medium | High {
    function Rank(): nat {
      match this
      case Low => 0
      case Medium => 1
      case High => 2
    }

    function Label(): string {
      match this
      case Low => "low"
      case Medium => "medium"
      case High => "high"
    }
  }

  /** Where a coordinate came from, in the order the sources are consulted. */
  datatype Source = Llm | Google | Nominatim {
    function Order(): nat {
      match this
      case Llm => 0
      case Google => 1
      case Nominatim => 2
    }

    function Label(): string {
      match this
      case Llm => "llm"
      case Google => "google"
      case Nominatim => "nominatim"
    }
  }

  /** A location as a language model proposes it, before geocoding. */
  datatype Candidate = Candidate(
    name: string,
    description: string,
    rawMention: string,
    llmLat: Option<real>,
    llmLon: Option<real>)

  /** A resolved location as the API returns it. */
  datatype Location = Location(
    name: string,
    description: string,
    latitude: real,
    longitude: real,
    confidence: Confidence,
    sources: seq<Source>,
    rawMentions: seq<string>)
}
