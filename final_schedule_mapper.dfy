/**
 * The final schedule of a stop: every stop group of the response mapped with
 * `FromHalteDoorkomsten` against the one line table of the response, and the
 * three note lists copied, a missing list read as empty.
 *
 * The element types of the note lists are not looked into, so they are type
 * parameters here.
 */
module FinalScheduleMapper {
  import opened Wrappers
  import opened Dtos
  import opened ArrivalsMapper

  /** The response, with only the fields the mapper reads. */
  datatype FinalScheduleResponseDto<DN, RN, OL> = FinalScheduleResponseDto(
    halteDoorkomsten: Option<seq<HalteDoorkomstenDto>>,
    lines: Option<seq<LineDto>>,
    doorkomstNotas: Option<seq<DN>>,
    ritNotas: Option<seq<RN>>,
    omleidingen: Option<seq<OL>>)

  /** The domain schedule: no list is ever missing. */
  datatype FinalSchedule<DN, RN, OL> = FinalSchedule(
    halteDoorkomsten: seq<HalteDoorkomsten>,
    doorkomstNotas: seq<DN>,
    ritNotas: seq<RN>,
    omleidingen: seq<OL>)

  /** Maps every stop group, in order, against the same line table. */
  function MapGroups(groups: seq<HalteDoorkomstenDto>, lines: Option<seq<LineDto>>, localOffset: int): (r: seq<HalteDoorkomsten>)
    ensures |r| == |groups|
    ensures forall i | 0 <= i < |r| :: r[i].haltenummer == groups[i].haltenummer
  {
    seq(|groups|, i requires 0 <= i < |groups| => FromHalteDoorkomsten(groups[i], lines, localOffset))
  }

  /** Mapping distributes over concatenation: each group is mapped on its own. */
  lemma MapGroupsAppend(a: seq<HalteDoorkomstenDto>, b: seq<HalteDoorkomstenDto>, lines: Option<seq<LineDto>>, localOffset: int)
    ensures MapGroups(a + b, lines, localOffset) == MapGroups(a, lines, localOffset) + MapGroups(b, lines, localOffset)
  {
    var l, r := MapGroups(a + b, lines, localOffset), MapGroups(a, lines, localOffset) + MapGroups(b, lines, localOffset);
    forall i | 0 <= i < |l| ensures l[i] == r[i] {
      if i < |a| {
        assert (a + b)[i] == a[i];
      } else {
        assert (a + b)[i] == b[i - |a|];
      }
    }
  }

  /**
   * Every arrival of group `i` is the passage at the same place of input
   * group `i`, matched against the response's whole line table.
   */
  lemma MapGroupsShareLines(groups: seq<HalteDoorkomstenDto>, lines: Option<seq<LineDto>>, localOffset: int, i: int, j: int)
    requires 0 <= i < |groups|
    requires groups[i].doorkomsten.Some? && 0 <= j < |groups[i].doorkomsten.value|
    ensures j < |MapGroups(groups, lines, localOffset)[i].doorkomsten|
    ensures MapGroups(groups, lines, localOffset)[i].doorkomsten[j]
      == ArrivalOf(groups[i].doorkomsten.value[j], lines, localOffset)
  {
    assert MapGroups(groups, lines, localOffset)[i] == FromHalteDoorkomsten(groups[i], lines, localOffset);
  }

  /** `fromDto`. */
  function FromDto<DN, RN, OL>(dto: FinalScheduleResponseDto<DN, RN, OL>, localOffset: int): (r: FinalSchedule<DN, RN, OL>)
    ensures |r.halteDoorkomsten| == |dto.halteDoorkomsten.GetOr([])|
    ensures dto.halteDoorkomsten.None? ==> r.halteDoorkomsten == []
    ensures forall i | 0 <= i < |r.halteDoorkomsten| ::
      r.halteDoorkomsten[i].haltenummer == dto.halteDoorkomsten.value[i].haltenummer
    ensures r.doorkomstNotas == (if dto.doorkomstNotas.Some? then dto.doorkomstNotas.value else [])
    ensures r.ritNotas == (if dto.ritNotas.Some? then dto.ritNotas.value else [])
    ensures r.omleidingen == (if dto.omleidingen.Some? then dto.omleidingen.value else [])
  {
    FinalSchedule(
      MapGroups(dto.halteDoorkomsten.GetOr([]), dto.lines, localOffset),
      dto.doorkomstNotas.GetOr([]),
      dto.ritNotas.GetOr([]),
      dto.omleidingen.GetOr([]))
  }

  /**
   * The schedule's arrivals are the response's passages mapped one by one
   * against the same line table, whatever stop group they sit in.
   */
  lemma FromDtoArrival<DN, RN, OL>(dto: FinalScheduleResponseDto<DN, RN, OL>, localOffset: int, i: int, j: int)
    requires dto.halteDoorkomsten.Some? && 0 <= i < |dto.halteDoorkomsten.value|
    requires dto.halteDoorkomsten.value[i].doorkomsten.Some?
    requires 0 <= j < |dto.halteDoorkomsten.value[i].doorkomsten.value|
    ensures j < |FromDto(dto, localOffset).halteDoorkomsten[i].doorkomsten|
    ensures FromDto(dto, localOffset).halteDoorkomsten[i].doorkomsten[j]
      == ArrivalOf(dto.halteDoorkomsten.value[i].doorkomsten.value[j], dto.lines, localOffset)
  {
    MapGroupsShareLines(dto.halteDoorkomsten.value, dto.lines, localOffset, i, j);
  }

  /** Splitting the stop groups of a response splits its schedule the same way. */
  lemma FromDtoSplit<DN, RN, OL>(dto: FinalScheduleResponseDto<DN, RN, OL>, a: seq<HalteDoorkomstenDto>, b: seq<HalteDoorkomstenDto>, localOffset: int)
    requires dto.halteDoorkomsten == Some(a + b)
    ensures FromDto(dto, localOffset).halteDoorkomsten
      == FromDto(dto.(halteDoorkomsten := Some(a)), localOffset).halteDoorkomsten
       + FromDto(dto.(halteDoorkomsten := Some(b)), localOffset).halteDoorkomsten
  {
    MapGroupsAppend(a, b, dto.lines, localOffset);
  }
}
