/**
 * The records the mappers read and build: the arrivals-API transfer objects and the
 * domain `Arrival`. Nullable Kotlin fields are `Option`s; Kotlin `Long` millisecond
 * values are unbounded integers; the bus card states where it needs them to fit a `Long`.
 */
module Dtos {
  import opened Wrappers

  /**
   * The untyped `lijnnummer: Any?` as decoded from JSON: a number, a string, or any
   * other JSON value, of which only its `toString()` text matters.
   */
  datatype LijnValue =
    | Num(n: int)
    | Str(s: string)
    | Other(text: string)

  /** One entry of a passage's nested `realtime` array. */
  datatype RealtimeDto = RealtimeDto(
    dienstregelingTijdstip: Option<string>,
    realTimeTijdstip: Option<string>,
    vrtnum: Option<string>,
    predictionStatussen: Option<seq<string>>)

  /** A raw passage ("doorkomst") of a bus at a stop. */
  datatype DoorkomstDto = DoorkomstDto(
    doorkomstId: Option<string>,
    entiteitnummer: Option<string>,
    lijnnummer: Option<LijnValue>,
    richting: Option<string>,
    ritnummer: Option<string>,
    bestemming: Option<string>,
    plaatsBestemming: Option<string>,
    dienstregelingTijdstip: Option<string>,
    realTimeTijdstip: Option<string>,
    realtime: Option<seq<RealtimeDto>>,
    vias: Option<seq<string>>,
    vrtnum: Option<string>,
    predictionStatussen: Option<seq<string>>)

  /** The passages of one stop. */
  datatype HalteDoorkomstenDto = HalteDoorkomstenDto(
    haltenummer: string,
    doorkomsten: Option<seq<DoorkomstDto>>)

  /** Line metadata returned beside the passages. */
  datatype LineDto = LineDto(
    lijnNummerPubliek: Option<string>,
    entiteitnummer: Option<string>,
    lijnnummer: Option<LijnValue>,
    richting: Option<string>,
    omschrijving: Option<string>,
    kleurVoorGrond: Option<string>,
    kleurAchterGrond: Option<string>,
    kleurAchterGrondRand: Option<string>,
    kleurVoorGrondRand: Option<string>)

  datatype ArrivalsResponseDto = ArrivalsResponseDto(
    lines: Option<seq<LineDto>>,
    halteDoorkomsten: Option<seq<HalteDoorkomstenDto>>)

  /** The enriched arrival shown on a card. */
  datatype Arrival = Arrival(
    doorkomstId: Option<string>,
    entiteitnummer: Option<string>,
    lijnnummer: Option<string>,
    richting: Option<string>,
    ritnummer: Option<string>,
    bestemming: Option<string>,
    plaatsBestemming: Option<string>,
    vias: seq<string>,
    dienstregelingTijdstip: Option<string>,
    realTimeTijdstip: Option<string>,
    vrtnum: Option<string>,
    predictionStatussen: seq<string>,
    // line metadata, absent when no line matched
    lijnNummerPubliek: Option<string>,
    lijnOmschrijving: Option<string>,
    lijnKleurVoorGrond: Option<string>,
    lijnKleurAchterGrond: Option<string>,
    lijnKleurAchterGrondRand: Option<string>,
    lijnKleurVoorGrondRand: Option<string>,
    // derived fields
    scheduledTimeFormatted: Option<string>,
    expectedArrivalMillis: int,
    realArrivalMillis: int)

  /** The domain passages of one stop. */
  datatype HalteDoorkomsten = HalteDoorkomsten(
    haltenummer: string,
    doorkomsten: seq<Arrival>)
}
