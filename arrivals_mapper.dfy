/**
 * `fromDoorkomst` and `fromHalteDoorkomsten`: one enriched `Arrival` per raw
 * passage. `ArrivalOf` says what the arrival is; the method `FromDoorkomst`
 * computes it the way the mapper does, by building the three indexes and
 * reassigning the chosen line rule by rule.
 */
module ArrivalsMapper {
  import opened Wrappers
  import opened Text
  import opened Dtos
  import opened IsoTime
  import opened LineKeys
  import opened LineIndexes
  import opened LineMatching

  /** `dto.realtime?.firstOrNull()` */
  function NestedRealtime(dto: DoorkomstDto): Option<RealtimeDto> {
    if dto.realtime.Some? && dto.realtime.value != [] then Some(dto.realtime.value[0]) else None
  }

  /** The real-time timestamp: the first nested entry's, else the passage's own. */
  function RealTimeText(dto: DoorkomstDto): Option<string> {
    var nested := NestedRealtime(dto);
    if nested.Some? && nested.value.realTimeTijdstip.Some? then nested.value.realTimeTijdstip
    else dto.realTimeTijdstip
  }

  function VehicleOf(dto: DoorkomstDto): Option<string> {
    var nested := NestedRealtime(dto);
    if nested.Some? && nested.value.vrtnum.Some? then nested.value.vrtnum else dto.vrtnum
  }

  function PredictionsOf(dto: DoorkomstDto): seq<string> {
    var nested := NestedRealtime(dto);
    if nested.Some? && nested.value.predictionStatussen.Some? then nested.value.predictionStatussen.value
    else dto.predictionStatussen.GetOr([])
  }

  /** The six metadata fields an arrival takes from its line. */
  datatype LineMetadata = LineMetadata(
    lijnNummerPubliek: Option<string>,
    omschrijving: Option<string>,
    kleurVoorGrond: Option<string>,
    kleurAchterGrond: Option<string>,
    kleurAchterGrondRand: Option<string>,
    kleurVoorGrondRand: Option<string>)

  const NoMetadata := LineMetadata(None, None, None, None, None, None)

  function MetadataOfLine(l: LineDto): LineMetadata {
    LineMetadata(l.lijnNummerPubliek, l.omschrijving, l.kleurVoorGrond, l.kleurAchterGrond,
                 l.kleurAchterGrondRand, l.kleurVoorGrondRand)
  }

  function MetadataOfArrival(a: Arrival): LineMetadata {
    LineMetadata(a.lijnNummerPubliek, a.lijnOmschrijving, a.lijnKleurVoorGrond, a.lijnKleurAchterGrond,
                 a.lijnKleurAchterGrondRand, a.lijnKleurVoorGrondRand)
  }

  function MakeArrival(dto: DoorkomstDto, meta: Option<LineDto>, localOffset: int): Arrival {
    var m := if meta.Some? then MetadataOfLine(meta.value) else NoMetadata;
    Arrival(
      dto.doorkomstId, dto.entiteitnummer,
      // the raw `toString()` fallback applies only when normalising gives null,
      // which happens only for a missing line number
      NormalizeLijnnummer(dto.lijnnummer),
      dto.richting, dto.ritnummer, dto.bestemming, dto.plaatsBestemming,
      dto.vias.GetOr([]),
      dto.dienstregelingTijdstip, RealTimeText(dto), VehicleOf(dto), PredictionsOf(dto),
      m.lijnNummerPubliek, m.omschrijving, m.kleurVoorGrond, m.kleurAchterGrond,
      m.kleurAchterGrondRand, m.kleurVoorGrondRand,
      FormatToHm(dto.dienstregelingTijdstip),
      IsoToMillis(dto.dienstregelingTijdstip, localOffset),
      IsoToMillis(RealTimeText(dto), localOffset))
  }

  /**
   * The arrival built for one passage: the passage's own fields, the metadata of
   * the line the cascade chooses (all absent when none is chosen), and the
   * times read from its timestamps.
   */
  function ArrivalOf(dto: DoorkomstDto, lines: Option<seq<LineDto>>, localOffset: int): (a: Arrival)
    ensures MatchLine(dto, lines).None? ==> MetadataOfArrival(a) == NoMetadata
    ensures MatchLine(dto, lines).Some? ==>
      MatchLine(dto, lines).value in TableOf(lines) && MetadataOfArrival(a) == MetadataOfLine(MatchLine(dto, lines).value)
    ensures a.lijnnummer == NormalizeLijnnummer(dto.lijnnummer)
    ensures a.lijnnummer.Some? <==> dto.lijnnummer.Some?
    ensures a.lijnnummer.Some? ==> Unpadded(a.lijnnummer.value)
    ensures a.doorkomstId == dto.doorkomstId && a.entiteitnummer == dto.entiteitnummer && a.richting == dto.richting
    ensures a.ritnummer == dto.ritnummer && a.bestemming == dto.bestemming && a.plaatsBestemming == dto.plaatsBestemming
    ensures a.dienstregelingTijdstip == dto.dienstregelingTijdstip
    ensures a.vias == dto.vias.GetOr([])
    ensures a.realTimeTijdstip == RealTimeText(dto)
    ensures a.expectedArrivalMillis == IsoToMillis(dto.dienstregelingTijdstip, localOffset)
    ensures a.realArrivalMillis == IsoToMillis(RealTimeText(dto), localOffset)
    ensures a.scheduledTimeFormatted == FormatToHm(dto.dienstregelingTijdstip)
    ensures IsNullOrBlank(dto.dienstregelingTijdstip) ==> a.expectedArrivalMillis == 0 && a.scheduledTimeFormatted.None?
    ensures !IsNullOrBlank(dto.dienstregelingTijdstip) ==> a.scheduledTimeFormatted.Some?
    ensures IsNullOrBlank(a.realTimeTijdstip) ==> a.realArrivalMillis == 0
  {
    MakeArrival(dto, MatchLine(dto, lines), localOffset)
  }

  /**
   * The real-time fields come from the first nested real-time entry when it
   * carries them, and from the passage itself otherwise.
   */
  lemma RealtimePrefersNested(dto: DoorkomstDto, lines: Option<seq<LineDto>>, localOffset: int, r: RealtimeDto)
    requires dto.realtime.Some? && |dto.realtime.value| > 0 && dto.realtime.value[0] == r
    ensures ArrivalOf(dto, lines, localOffset).realTimeTijdstip
         == (if r.realTimeTijdstip.Some? then r.realTimeTijdstip else dto.realTimeTijdstip)
    ensures ArrivalOf(dto, lines, localOffset).vrtnum == (if r.vrtnum.Some? then r.vrtnum else dto.vrtnum)
    ensures ArrivalOf(dto, lines, localOffset).predictionStatussen
         == (if r.predictionStatussen.Some? then r.predictionStatussen.value else dto.predictionStatussen.GetOr([]))
    ensures ArrivalOf(dto, lines, localOffset).realArrivalMillis
         == IsoToMillis(if r.realTimeTijdstip.Some? then r.realTimeTijdstip else dto.realTimeTijdstip, localOffset)
  {
  }

  /** Without nested real-time entries, the passage's own real-time fields are used, and statuses default to empty. */
  lemma RealtimeWithoutNested(dto: DoorkomstDto, lines: Option<seq<LineDto>>, localOffset: int)
    requires dto.realtime.None? || dto.realtime.value == []
    ensures ArrivalOf(dto, lines, localOffset).realTimeTijdstip == dto.realTimeTijdstip
    ensures ArrivalOf(dto, lines, localOffset).vrtnum == dto.vrtnum
    ensures ArrivalOf(dto, lines, localOffset).predictionStatussen == dto.predictionStatussen.GetOr([])
  {
  }

  /**
   * `fromDoorkomst`: the passage's fields, the line chosen by the cascade over
   * the indexes of `lines`, and the parsed times.
   */
  method FromDoorkomst(dto: DoorkomstDto, lines: Option<seq<LineDto>>, localOffset: int) returns (arrival: Arrival)
    ensures arrival == ArrivalOf(dto, lines, localOffset)
  {
    var realTimeStr := RealTimeText(dto);
    var lineMeta := MatchLineMeta(dto, lines);
    var key := NormalizeLijnnummer(dto.lijnnummer);
    var scheduledMillis := ParseIsoToMillis(dto.dienstregelingTijdstip, localOffset);
    var realMillis := ParseIsoToMillis(realTimeStr, localOffset);
    var scheduledFormatted := FormatToHm(dto.dienstregelingTijdstip);
    var meta := if lineMeta.Some? then MetadataOfLine(lineMeta.value) else NoMetadata;
    arrival := Arrival(
      dto.doorkomstId, dto.entiteitnummer, key,
      dto.richting, dto.ritnummer, dto.bestemming, dto.plaatsBestemming,
      dto.vias.GetOr([]),
      dto.dienstregelingTijdstip, realTimeStr, VehicleOf(dto), PredictionsOf(dto),
      meta.lijnNummerPubliek, meta.omschrijving, meta.kleurVoorGrond, meta.kleurAchterGrond,
      meta.kleurAchterGrondRand, meta.kleurVoorGrondRand,
      scheduledFormatted, scheduledMillis, realMillis);
  }

  /** The line-matching part of `fromDoorkomst`: the indexes of `lines` built, then the six rules tried in order. */
  method MatchLineMeta(dto: DoorkomstDto, lines: Option<seq<LineDto>>) returns (lineMeta: Option<LineDto>)
    ensures lineMeta == MatchLine(dto, lines)
  {
    var byLijn, byEntiteit, byPubliek := BuildLineIndexes(lines);
    var s := TableOf(lines);

    lineMeta := None;
    var key := NormalizeLijnnummer(dto.lijnnummer);
    var ent := dto.entiteitnummer;
    var dir := dto.richting;

    // key, entity and direction; then key and entity when unique
    if !IsNullOrBlank(key) && !IsNullOrBlank(ent) {
      lineMeta := FirstWhere(TableOf(lines), ExactTriple(key.value, ent.value, dir));
      if lineMeta.None? {
        var candidates := Filter(TableOf(lines), KeyAndEntity(key.value, ent.value));
        if |candidates| == 1 {
          lineMeta := Some(candidates[0]);
        }
      }
    }
    ghost var expected := ExactRule(s, key, ent, dir);
    assert lineMeta == expected;

    // the entity alone, when unique
    if lineMeta.None? && !IsNullOrBlank(ent) {
      if ent.value in byEntiteit && |byEntiteit[ent.value]| == 1 {
        lineMeta := Some(byEntiteit[ent.value][0]);
      }
    }
    expected := expected.OrElse(UniqueEntityRule(s, ent));
    assert lineMeta == expected;

    // the normalised line number
    if lineMeta.None? && !IsNullOrBlank(key) {
      if key.value in byLijn {
        lineMeta := Some(byLijn[key.value]);
      }
    }
    expected := expected.OrElse(LineNumberRule(s, key));
    assert lineMeta == expected;

    // the public label: key, lower-case key, then suffixes shortest first
    if lineMeta.None? && !IsNullOrBlank(key) {
      lineMeta := MatchByLabel(byPubliek, s, key.value);
    }
    expected := expected.OrElse(PublicLabelRule(s, key));
    assert lineMeta == expected;

    // the entity's lines: same direction first, else same key or label
    if lineMeta.None? && !IsNullOrBlank(ent) {
      lineMeta := MatchByEntityLines(byEntiteit, s, key, ent.value, dir);
    }
    expected := expected.OrElse(EntityDirectionRule(s, key, ent, dir));
    assert lineMeta == expected;

    // last resort: a label that mentions the key
    if lineMeta.None? && !IsNullOrBlank(key) {
      var candidate := FirstWhere(Values(byPubliek), LabelMentions(key.value));
      if candidate.Some? {
        lineMeta := candidate;
      }
    }
    expected := expected.OrElse(LabelScanRule(s, key));
    assert lineMeta == expected == MatchLine(dto, lines);
  }

  /** Rule 4 of `fromDoorkomst` on the label index: the key, its lower-case form, then its suffixes, shortest first. */
  method MatchByLabel(byPubliek: LabelIndex, s: seq<LineDto>, k: string) returns (lineMeta: Option<LineDto>)
    requires byPubliek == LabelIndexOf(s) && !IsBlank(k)
    ensures lineMeta == PublicLabelRule(s, Some(k))
  {
    LabelIndexLookup(s, k);
    LabelIndexLookup(s, Lower(k));
    lineMeta := Lookup(byPubliek, k).OrElse(Lookup(byPubliek, Lower(k)));
    if lineMeta.None? {
      lineMeta := MatchBySuffix(byPubliek, s, k);
    }
  }

  /** The suffix probes of rule 4: the last 1, 2, … characters of the key, shortest first. */
  method MatchBySuffix(byPubliek: LabelIndex, s: seq<LineDto>, k: string) returns (lineMeta: Option<LineDto>)
    requires byPubliek == LabelIndexOf(s)
    ensures lineMeta == SuffixRule(s, k, 1)
  {
    lineMeta := None;
    var maxSuffix := MaxSuffix(k);
    for len := 1 to maxSuffix + 1
      invariant SuffixRule(s, k, 1) == SuffixRule(s, k, len)
    {
      var suffix := Suffix(k, len);
      LabelIndexLookup(s, suffix);
      var candidate := Lookup(byPubliek, suffix);
      if candidate.Some? {
        lineMeta := candidate;
        return;
      }
    }
  }

  /** Rule 5 of `fromDoorkomst` on the entity index: the first line in the same direction, else with the same key or label. */
  method MatchByEntityLines(byEntiteit: map<string, seq<LineDto>>, s: seq<LineDto>, key: Option<string>, ent: string, dir: Option<string>)
    returns (lineMeta: Option<LineDto>)
    requires EntityIndexed(byEntiteit, s) && !IsBlank(ent)
    ensures lineMeta == EntityDirectionRule(s, key, Some(ent), dir)
  {
    lineMeta := None;
    if ent in byEntiteit && byEntiteit[ent] != [] {
      var candidates := byEntiteit[ent];
      var matchByRichting := FirstWhere(candidates, SameDirection(dir));
      if matchByRichting.Some? {
        lineMeta := matchByRichting;
      } else {
        var found := FirstWhere(candidates, KeyOrLabel(key));
        if found.Some? {
          lineMeta := found;
        }
      }
    }
  }

  /** `fromHalteDoorkomsten`: one arrival per passage, in order; no passages give no arrivals. */
  function FromHalteDoorkomsten(dto: HalteDoorkomstenDto, lines: Option<seq<LineDto>>, localOffset: int): (r: HalteDoorkomsten)
    ensures r.haltenummer == dto.haltenummer
    ensures dto.doorkomsten.None? ==> r.doorkomsten == []
    ensures dto.doorkomsten.Some? ==> |r.doorkomsten| == |dto.doorkomsten.value|
    ensures dto.doorkomsten.Some? ==>
      forall i | 0 <= i < |r.doorkomsten| :: r.doorkomsten[i] == ArrivalOf(dto.doorkomsten.value[i], lines, localOffset)
  {
    var ds := dto.doorkomsten.GetOr([]);
    HalteDoorkomsten(dto.haltenummer, seq(|ds|, i requires 0 <= i < |ds| => ArrivalOf(ds[i], lines, localOffset)))
  }
}
