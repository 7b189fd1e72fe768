/**
 * The two field-copy mappers for line directions: a search result becomes a
 * `LineDirection` with empty-string defaults for its two keys, and a
 * direction record becomes the `LineDto` the arrival matcher reads.
 */
module LineDirectionMapper {
  import opened Wrappers
  import opened Dtos

  /** A line-search result, with only the fields the mapper reads. */
  datatype LineSearchResponseDto = LineSearchResponseDto(
    lijnnummer: Option<string>,
    lijnNummerPubliek: Option<string>,
    richting: Option<string>,
    omschrijving: Option<string>,
    kleurVoorGrond: Option<string>,
    kleurAchterGrond: Option<string>,
    kleurAchterGrondRand: Option<string>,
    kleurVoorGrondRand: Option<string>)

  /** The domain line direction: number and direction are always present. */
  datatype LineDirection = LineDirection(
    lijnnummer: string,
    richting: string,
    omschrijving: Option<string>,
    kleurVoorGrond: Option<string>,
    kleurAchterGrond: Option<string>,
    kleurAchterGrondRand: Option<string>,
    kleurVoorGrondRand: Option<string>)

  /**
   * A direction record as it comes from the API; the line number keeps the
   * form it was sent in, as it does in `LineDto`.
   */
  datatype LineDirectionDto = LineDirectionDto(
    lijnnummer: Option<LijnValue>,
    entiteitnummer: Option<string>,
    richting: Option<string>,
    lijnNummerPubliek: Option<string>,
    omschrijving: Option<string>,
    kleurVoorGrond: Option<string>,
    kleurAchterGrond: Option<string>,
    kleurAchterGrondRand: Option<string>,
    kleurVoorGrondRand: Option<string>)

  /** `fromDto`: the internal number, else the public one, else ""; the direction, else "". */
  function FromDto(dto: LineSearchResponseDto): (r: LineDirection)
    ensures dto.lijnnummer.Some? ==> r.lijnnummer == dto.lijnnummer.value
    ensures dto.lijnnummer.None? && dto.lijnNummerPubliek.Some? ==> r.lijnnummer == dto.lijnNummerPubliek.value
    ensures dto.lijnnummer.None? && dto.lijnNummerPubliek.None? ==> r.lijnnummer == ""
    ensures dto.richting.Some? ==> r.richting == dto.richting.value
    ensures dto.richting.None? ==> r.richting == ""
    ensures r.omschrijving == dto.omschrijving
    ensures r.kleurVoorGrond == dto.kleurVoorGrond && r.kleurAchterGrond == dto.kleurAchterGrond
    ensures r.kleurAchterGrondRand == dto.kleurAchterGrondRand && r.kleurVoorGrondRand == dto.kleurVoorGrondRand
  {
    LineDirection(
      dto.lijnnummer.OrElse(dto.lijnNummerPubliek).GetOr(""),
      dto.richting.GetOr(""),
      dto.omschrijving,
      dto.kleurVoorGrond,
      dto.kleurAchterGrond,
      dto.kleurAchterGrondRand,
      dto.kleurVoorGrondRand)
  }

  /** The search result that carries exactly a given direction. */
  function SearchResultOf(d: LineDirection): LineSearchResponseDto {
    LineSearchResponseDto(Some(d.lijnnummer), None, Some(d.richting), d.omschrijving,
      d.kleurVoorGrond, d.kleurAchterGrond, d.kleurAchterGrondRand, d.kleurVoorGrondRand)
  }

  /** Every direction is the mapping of some search result: `fromDto` loses nothing it keeps. */
  lemma FromDtoRoundTrip(d: LineDirection)
    ensures FromDto(SearchResultOf(d)) == d
  {
  }

  /**
   * The public number only matters when the internal number is missing, and
   * the direction comes out empty exactly when it is missing or empty.
   */
  lemma FromDtoDefaults(dto: LineSearchResponseDto, pub: Option<string>)
    requires dto.lijnnummer.Some?
    ensures FromDto(dto.(lijnNummerPubliek := pub)) == FromDto(dto)
    ensures FromDto(dto).richting == "" <==> dto.richting.None? || dto.richting == Some("")
  {
  }

  /** `toLineDto`: all nine fields copied as they are. */
  function ToLineDto(dto: LineDirectionDto): (r: LineDto)
    ensures r.lijnnummer == dto.lijnnummer && r.entiteitnummer == dto.entiteitnummer
    ensures r.richting == dto.richting && r.lijnNummerPubliek == dto.lijnNummerPubliek
    ensures r.omschrijving == dto.omschrijving
    ensures r.kleurVoorGrond == dto.kleurVoorGrond && r.kleurAchterGrond == dto.kleurAchterGrond
    ensures r.kleurAchterGrondRand == dto.kleurAchterGrondRand && r.kleurVoorGrondRand == dto.kleurVoorGrondRand
  {
    LineDto(dto.lijnNummerPubliek, dto.entiteitnummer, dto.lijnnummer, dto.richting, dto.omschrijving,
      dto.kleurVoorGrond, dto.kleurAchterGrond, dto.kleurAchterGrondRand, dto.kleurVoorGrondRand)
  }

  /** The direction record that a line record was copied from. */
  function DirectionOf(l: LineDto): LineDirectionDto {
    LineDirectionDto(l.lijnnummer, l.entiteitnummer, l.richting, l.lijnNummerPubliek, l.omschrijving,
      l.kleurVoorGrond, l.kleurAchterGrond, l.kleurAchterGrondRand, l.kleurVoorGrondRand)
  }

  /** `toLineDto` is a bijection: it has `DirectionOf` as inverse on both sides. */
  lemma ToLineDtoRoundTrip(d: LineDirectionDto, l: LineDto)
    ensures DirectionOf(ToLineDto(d)) == d
    ensures ToLineDto(DirectionOf(l)) == l
  {
  }
}
