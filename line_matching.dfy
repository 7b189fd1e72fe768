/**
 * The matching cascade of `fromDoorkomst`: which line of the metadata table
 * describes one passage. Each rule is a function of the table and the passage's
 * normalised line key, entity number and direction; the first rule that yields
 * a line wins. Lookups in the three indexes are written here as the searches
 * the indexes answer (see `LineIndexes`).
 */
module LineMatching {
  import opened Wrappers
  import opened Text
  import opened Dtos
  import opened LineKeys
  import opened LineIndexes

  // ---- list searches ----

  /** `indexOfFirst`: the position of the first element satisfying `p`. */
  function FirstIndex(s: seq<LineDto>, p: LineDto -> bool): (r: Option<nat>)
    ensures r.Some? ==> r.value < |s| && p(s[r.value]) && forall j | 0 <= j < r.value :: !p(s[j])
    ensures r.None? ==> forall j | 0 <= j < |s| :: !p(s[j])
  {
    if s == [] then None
    else if p(s[0]) then Some(0)
    else match FirstIndex(s[1..], p)
      case None => None
      case Some(j) => Some(j + 1)
  }

  /** `firstOrNull(p)`: the element at the first position satisfying `p`. */
  function FirstWhere(s: seq<LineDto>, p: LineDto -> bool): (r: Option<LineDto>)
    ensures r.Some? ==> r.value in s && p(r.value)
    ensures r.Some? ==> exists i | 0 <= i < |s| :: s[i] == r.value && p(s[i]) && forall j | 0 <= j < i :: !p(s[j])
    ensures r.None? <==> forall j | 0 <= j < |s| :: !p(s[j])
  {
    match FirstIndex(s, p)
    case None => None
    case Some(i) => Some(s[i])
  }

  /** The element at the first satisfying position is the one found. */
  lemma FirstWhereAt(s: seq<LineDto>, p: LineDto -> bool, i: nat)
    requires i < |s| && p(s[i]) && forall j | 0 <= j < i :: !p(s[j])
    ensures FirstWhere(s, p) == Some(s[i])
  {
    assert FirstIndex(s, p) == Some(i);
  }

  /** `filter(p)` */
  function Filter(s: seq<LineDto>, p: LineDto -> bool): (r: seq<LineDto>)
    ensures |r| <= |s|
    ensures forall x | x in r :: x in s && p(x)
    ensures forall j | 0 <= j < |s| :: p(s[j]) ==> s[j] in r
  {
    if s == [] then [] else (if p(s[0]) then [s[0]] else []) + Filter(s[1..], p)
  }

  lemma {:induction false} FilterOnly(s: seq<LineDto>, p: LineDto -> bool, i: nat)
    requires i < |s| && p(s[i])
    requires forall j | 0 <= j < |s| && j != i :: !p(s[j])
    ensures Filter(s, p) == [s[i]]
  {
    if i == 0 {
      FilterNone(s[1..], p);
    } else {
      FilterOnly(s[1..], p, i - 1);
    }
  }

  /** The positions of `s` whose element satisfies `p`. */
  function Positions(s: seq<LineDto>, p: LineDto -> bool): set<nat> {
    set j: nat | j < |s| && p(s[j])
  }

  /** `filter` keeps the order of `s`: filtering one more element appends it when it satisfies `p`. */
  lemma {:induction false} FilterSnoc(t: seq<LineDto>, x: LineDto, p: LineDto -> bool)
    ensures Filter(t + [x], p) == Filter(t, p) + (if p(x) then [x] else [])
  {
    if t == [] {
      assert [] + [x] == [x];
      assert Filter([x], p) == (if p(x) then [x] else []) + Filter([], p);
    } else {
      var u, h, e := t + [x], (if p(t[0]) then [t[0]] else []), (if p(x) then [x] else []);
      assert u[0] == t[0] && u[1..] == t[1..] + [x];
      assert Filter(u, p) == h + Filter(t[1..] + [x], p);
      FilterSnoc(t[1..], x, p);
      assert Filter(t, p) == h + Filter(t[1..], p);
      AppendAssoc(h, Filter(t[1..], p), e);
    }
  }

  lemma AppendAssoc(a: seq<LineDto>, b: seq<LineDto>, c: seq<LineDto>)
    ensures a + (b + c) == (a + b) + c
  {
  }

  /** `filter` keeps one element per satisfying position: its `size` counts them. */
  lemma {:induction false} FilterCount(s: seq<LineDto>, p: LineDto -> bool)
    ensures |Filter(s, p)| == |Positions(s, p)|
  {
    if s == [] {
      assert Positions(s, p) == {};
    } else {
      var t, x := s[..|s| - 1], s[|s| - 1];
      assert s == t + [x];
      FilterSnoc(t, x, p);
      FilterCount(t, p);
      PositionsSnoc(t, x, p);
    }
  }

  /** One more element adds its position, a new one, when it satisfies `p`. */
  lemma PositionsSnoc(t: seq<LineDto>, x: LineDto, p: LineDto -> bool)
    ensures |t| !in Positions(t, p)
    ensures Positions(t + [x], p) == Positions(t, p) + (if p(x) then {|t|} else {})
  {
    var s := t + [x];
    forall j: nat | j < |t| ensures s[j] == t[j] { }
    assert s[|t|] == x;
  }

  lemma {:induction false} FilterNone(s: seq<LineDto>, p: LineDto -> bool)
    requires forall j | 0 <= j < |s| :: !p(s[j])
    ensures Filter(s, p) == []
  {
    if s != [] {
      FilterNone(s[1..], p);
    }
  }

  // ---- what the rules test ----

  /** Directions agree when either is missing or blank, or they are equal ignoring case. */
  predicate DirectionCompatible(l: LineDto, dir: Option<string>) {
    IsNullOrBlank(dir) || IsNullOrBlank(l.richting) || EqualsIgnoreCase(l.richting.value, dir.value)
  }

  function ExactTriple(key: string, ent: string, dir: Option<string>): LineDto -> bool {
    (l: LineDto) => HasKey(l, key) && HasEntity(l, ent) && DirectionCompatible(l, dir)
  }

  function KeyAndEntity(key: string, ent: string): LineDto -> bool {
    (l: LineDto) => HasKey(l, key) && HasEntity(l, ent)
  }

  function SameDirection(dir: Option<string>): LineDto -> bool {
    (l: LineDto) => !IsNullOrBlank(dir) && !IsNullOrBlank(l.richting) && EqualsIgnoreCase(l.richting.value, dir.value)
  }

  /**
   * The second test among entity candidates: equal normalised line number (only
   * for a present key) or a public label equal to the key, where a missing label
   * equals a missing key.
   */
  function KeyOrLabel(key: Option<string>): LineDto -> bool {
    (l: LineDto) => (key.Some? && NormalizeLijnnummer(l.lijnnummer) == key) || l.lijnNummerPubliek == key
  }

  /** The label scan's test: the label ends with the key ignoring case, or contains it exactly. */
  function LabelMentions(key: string): LineDto -> bool {
    (l: LineDto) => l.lijnNummerPubliek.Some? &&
         (EndsWithIgnoreCase(l.lijnNummerPubliek.value, key) || Contains(l.lijnNummerPubliek.value, key))
  }

  // ---- the rules, in cascade order ----

  /**
   * Rule 1: with a key and an entity, the first line matching key, entity and
   * direction; failing that, the line matching key and entity if it is the only one.
   */
  function ExactRule(s: seq<LineDto>, key: Option<string>, ent: Option<string>, dir: Option<string>): (r: Option<LineDto>)
    ensures IsNullOrBlank(key) || IsNullOrBlank(ent) ==> r.None?
    ensures r.Some? ==> key.Some? && ent.Some? && r.value in s && HasKey(r.value, key.value) && HasEntity(r.value, ent.value)
    ensures !IsNullOrBlank(key) && !IsNullOrBlank(ent) && FirstWhere(s, ExactTriple(key.value, ent.value, dir)).Some? ==>
      r == FirstWhere(s, ExactTriple(key.value, ent.value, dir))
    ensures !IsNullOrBlank(key) && !IsNullOrBlank(ent) && FirstWhere(s, ExactTriple(key.value, ent.value, dir)).None? ==>
      (r.Some? <==> |Positions(s, KeyAndEntity(key.value, ent.value))| == 1)
  {
    if IsNullOrBlank(key) || IsNullOrBlank(ent) then None
    else match FirstWhere(s, ExactTriple(key.value, ent.value, dir))
      case Some(l) => Some(l)
      case None =>
        var c := Filter(s, KeyAndEntity(key.value, ent.value));
        FilterCount(s, KeyAndEntity(key.value, ent.value));
        if |c| == 1 then Some(c[0]) else None
  }

  /** Rule 2: the line of the passage's entity, when the table has exactly one. */
  function UniqueEntityRule(s: seq<LineDto>, ent: Option<string>): (r: Option<LineDto>)
    ensures r.Some? <==> !IsNullOrBlank(ent) && |EntityCandidates(s, ent.value)| == 1
    ensures r.Some? ==> r.value in s && HasEntity(r.value, ent.value)
  {
    if IsNullOrBlank(ent) then None
    else
      var c := EntityCandidates(s, ent.value);
      if |c| == 1 then Some(c[0]) else None
  }

  /** Rule 3: the last line with the passage's normalised line number. */
  function LineNumberRule(s: seq<LineDto>, key: Option<string>): (r: Option<LineDto>)
    ensures r.Some? ==> key.Some? && !IsBlank(key.value) && r.value in s && HasKey(r.value, key.value)
    ensures r.None? <==> IsNullOrBlank(key) || forall j | 0 <= j < |s| :: !HasKey(s[j], key.value)
  {
    if IsNullOrBlank(key) then None else LastWithKey(s, key.value)
  }

  /** The largest suffix length tried. */
  function MaxSuffix(k: string): (n: nat)
    ensures n <= 3 && n <= |k|
  {
    if |k| < 3 then |k| else 3
  }

  /** `takeLast(n)` */
  function Suffix(k: string, n: nat): (t: string)
    requires n <= |k|
    ensures |t| == n && k == k[..|k| - n] + t
  {
    k[|k| - n..]
  }

  /** The suffix probes from length `len` up to `MaxSuffix(k)`, shortest first. */
  function SuffixRule(s: seq<LineDto>, k: string, len: nat): (r: Option<LineDto>)
    ensures r.Some? ==> r.value in s && r.value.lijnNummerPubliek.Some?
    ensures r.None? <==> forall n | len <= n <= MaxSuffix(k) :: LastWithPublicKey(s, Suffix(k, n)).None?
    decreases MaxSuffix(k) + 1 - len
  {
    if len > MaxSuffix(k) then None
    else
      match LastWithPublicKey(s, Suffix(k, len))
      case Some(l) => Some(l)
      case None => SuffixRule(s, k, len + 1)
  }

  /** Rule 4: the label index at the key, then at its lower-case form, then at its short suffixes. */
  function PublicLabelRule(s: seq<LineDto>, key: Option<string>): (r: Option<LineDto>)
    ensures r.Some? ==> key.Some? && !IsBlank(key.value) && r.value in s && r.value.lijnNummerPubliek.Some?
    ensures IsNullOrBlank(key) ==> r.None?
    ensures !IsNullOrBlank(key) && LastWithPublicKey(s, key.value).Some? ==> r == LastWithPublicKey(s, key.value)
    ensures !IsNullOrBlank(key) && LastWithPublicKey(s, key.value).None? && LastWithPublicKey(s, Lower(key.value)).Some? ==>
      r == LastWithPublicKey(s, Lower(key.value))
    ensures !IsNullOrBlank(key) && LastWithPublicKey(s, key.value).None? && LastWithPublicKey(s, Lower(key.value)).None? ==>
      r == SuffixRule(s, key.value, 1)
  {
    if IsNullOrBlank(key) then None
    else
      var k := key.value;
      LastWithPublicKey(s, k).OrElse(LastWithPublicKey(s, Lower(k))).OrElse(SuffixRule(s, k, 1))
  }

  /**
   * Rule 5: among the lines of the passage's entity, the first in the same
   * direction, else the first whose line number or label equals the key.
   */
  function EntityDirectionRule(s: seq<LineDto>, key: Option<string>, ent: Option<string>, dir: Option<string>): (r: Option<LineDto>)
    ensures r.Some? ==> ent.Some? && !IsBlank(ent.value) && r.value in s && HasEntity(r.value, ent.value)
    ensures IsNullOrBlank(ent) ==> r.None?
    ensures !IsNullOrBlank(ent) && FirstWhere(EntityCandidates(s, ent.value), SameDirection(dir)).Some? ==>
      r == FirstWhere(EntityCandidates(s, ent.value), SameDirection(dir))
    ensures !IsNullOrBlank(ent) && FirstWhere(EntityCandidates(s, ent.value), SameDirection(dir)).None? ==>
      r == FirstWhere(EntityCandidates(s, ent.value), KeyOrLabel(key))
  {
    if IsNullOrBlank(ent) then None
    else
      var c := EntityCandidates(s, ent.value);
      if c == [] then None
      else FirstWhere(c, SameDirection(dir)).OrElse(FirstWhere(c, KeyOrLabel(key)))
  }

  /** Rule 6: the first value of the label index whose label mentions the key. */
  function LabelScanRule(s: seq<LineDto>, key: Option<string>): (r: Option<LineDto>)
    ensures r.Some? ==> key.Some? && !IsBlank(key.value) && r.value in s && LabelMentions(key.value)(r.value)
    ensures IsNullOrBlank(key) ==> r.None?
    ensures !IsNullOrBlank(key) ==>
      (r.None? <==> forall j | 0 <= j < |Values(LabelIndexOf(s))| :: !LabelMentions(key.value)(Values(LabelIndexOf(s))[j]))
    ensures r.Some? ==> exists i | 0 <= i < |Values(LabelIndexOf(s))| ::
      Values(LabelIndexOf(s))[i] == r.value && forall j | 0 <= j < i :: !LabelMentions(key.value)(Values(LabelIndexOf(s))[j])
  {
    if IsNullOrBlank(key) then None
    else
      var r := FirstWhere(Values(LabelIndexOf(s)), LabelMentions(key.value));
      LabelIndexValues(s);
      r
  }

  /** The line chosen for a passage: the first rule that yields one. */
  function MatchLine(dto: DoorkomstDto, lines: Option<seq<LineDto>>): (r: Option<LineDto>)
    ensures r.Some? ==> r.value in TableOf(lines)
    ensures IsNullOrBlank(NormalizeLijnnummer(dto.lijnnummer)) && IsNullOrBlank(dto.entiteitnummer) ==> r.None?
  {
    var s := TableOf(lines);
    var key := NormalizeLijnnummer(dto.lijnnummer);
    var r := ExactRule(s, key, dto.entiteitnummer, dto.richting)
      .OrElse(UniqueEntityRule(s, dto.entiteitnummer))
      .OrElse(LineNumberRule(s, key))
      .OrElse(PublicLabelRule(s, key))
      .OrElse(EntityDirectionRule(s, key, dto.entiteitnummer, dto.richting))
      .OrElse(LabelScanRule(s, key));
    assert r.Some? ==> r.value in s by {
      RulesInTable(s, key, dto.entiteitnummer, dto.richting);
    }
    r
  }

  /** Every rule yields a line of the table or nothing. */
  lemma RulesInTable(s: seq<LineDto>, key: Option<string>, ent: Option<string>, dir: Option<string>)
    ensures var r := ExactRule(s, key, ent, dir); r.Some? ==> r.value in s
    ensures var r := UniqueEntityRule(s, ent); r.Some? ==> r.value in s
    ensures var r := LineNumberRule(s, key); r.Some? ==> r.value in s
    ensures var r := PublicLabelRule(s, key); r.Some? ==> r.value in s
    ensures var r := EntityDirectionRule(s, key, ent, dir); r.Some? ==> r.value in s
    ensures var r := LabelScanRule(s, key); r.Some? ==> r.value in s
  {
  }

  // ---- properties of the cascade ----

  /** A line agreeing on key, entity and direction is always found: the first such line wins. */
  lemma ExactTripleWins(dto: DoorkomstDto, lines: Option<seq<LineDto>>, i: nat)
    requires !IsNullOrBlank(NormalizeLijnnummer(dto.lijnnummer)) && !IsNullOrBlank(dto.entiteitnummer)
    requires i < |TableOf(lines)|
    requires ExactTriple(NormalizeLijnnummer(dto.lijnnummer).value, dto.entiteitnummer.value, dto.richting)(TableOf(lines)[i])
    requires forall j | 0 <= j < i ::
      !ExactTriple(NormalizeLijnnummer(dto.lijnnummer).value, dto.entiteitnummer.value, dto.richting)(TableOf(lines)[j])
    ensures MatchLine(dto, lines) == Some(TableOf(lines)[i])
  {
    var s := TableOf(lines);
    var p := ExactTriple(NormalizeLijnnummer(dto.lijnnummer).value, dto.entiteitnummer.value, dto.richting);
    assert FirstIndex(s, p) == Some(i);
  }

  /**
   * Without a line agreeing on direction, the only line agreeing on key and
   * entity is chosen.
   */
  lemma UniqueKeyEntityWins(dto: DoorkomstDto, lines: Option<seq<LineDto>>, i: nat)
    requires !IsNullOrBlank(NormalizeLijnnummer(dto.lijnnummer)) && !IsNullOrBlank(dto.entiteitnummer)
    requires i < |TableOf(lines)|
    requires KeyAndEntity(NormalizeLijnnummer(dto.lijnnummer).value, dto.entiteitnummer.value)(TableOf(lines)[i])
    requires forall j | 0 <= j < |TableOf(lines)| && j != i ::
      !KeyAndEntity(NormalizeLijnnummer(dto.lijnnummer).value, dto.entiteitnummer.value)(TableOf(lines)[j])
    requires !DirectionCompatible(TableOf(lines)[i], dto.richting)
    ensures MatchLine(dto, lines) == Some(TableOf(lines)[i])
  {
    var s := TableOf(lines);
    var key, ent := NormalizeLijnnummer(dto.lijnnummer).value, dto.entiteitnummer.value;
    assert FirstWhere(s, ExactTriple(key, ent, dto.richting)).None?;
    FilterOnly(s, KeyAndEntity(key, ent), i);
  }

  /** A line that is the only one of the passage's entity is always chosen. */
  lemma UniqueEntityDecides(dto: DoorkomstDto, lines: Option<seq<LineDto>>, i: nat)
    requires !IsNullOrBlank(dto.entiteitnummer)
    requires i < |TableOf(lines)| && HasEntity(TableOf(lines)[i], dto.entiteitnummer.value)
    requires forall j | 0 <= j < |TableOf(lines)| && j != i :: !HasEntity(TableOf(lines)[j], dto.entiteitnummer.value)
    ensures MatchLine(dto, lines) == Some(TableOf(lines)[i])
  {
    var s := TableOf(lines);
    var ent := dto.entiteitnummer.value;
    var c := EntityCandidates(s, ent);
    assert |c| == 1 by {
      assert s[i] in c;
      if |c| > 1 {
        OnlyEntityLine(s, ent, i);
      }
    }
    assert c[0] == s[i];
  }

  /** When one position holds the entity, the candidate list has at most that line. */
  lemma {:induction false} OnlyEntityLine(s: seq<LineDto>, e: string, i: nat)
    requires i < |s| && HasEntity(s[i], e)
    requires forall j | 0 <= j < |s| && j != i :: !HasEntity(s[j], e)
    ensures EntityCandidates(s, e) == [s[i]]
  {
    var t := s[..|s| - 1];
    assert forall j | 0 <= j < |t| :: t[j] == s[j];
    if i == |s| - 1 {
      NoEntityLine(t, e);
    } else {
      OnlyEntityLine(t, e, i);
    }
  }

  lemma {:induction false} NoEntityLine(s: seq<LineDto>, e: string)
    requires forall j | 0 <= j < |s| :: !HasEntity(s[j], e)
    ensures EntityCandidates(s, e) == []
  {
    if s != [] {
      var t := s[..|s| - 1];
      assert forall j | 0 <= j < |t| :: t[j] == s[j];
      NoEntityLine(t, e);
    }
  }

  /**
   * Without an entity number, a passage whose key is some line's normalised line
   * number gets the last such line.
   */
  lemma LineNumberLastWins(dto: DoorkomstDto, lines: Option<seq<LineDto>>, i: nat)
    requires IsNullOrBlank(dto.entiteitnummer)
    requires NormalizeLijnnummer(dto.lijnnummer).Some? && !IsBlank(NormalizeLijnnummer(dto.lijnnummer).value)
    requires i < |TableOf(lines)| && HasKey(TableOf(lines)[i], NormalizeLijnnummer(dto.lijnnummer).value)
    requires forall j | i < j < |TableOf(lines)| :: !HasKey(TableOf(lines)[j], NormalizeLijnnummer(dto.lijnnummer).value)
    ensures MatchLine(dto, lines) == Some(TableOf(lines)[i])
  {
    LastWithKeyIsLast(TableOf(lines), NormalizeLijnnummer(dto.lijnnummer).value, i);
  }

  /** Suffixes are probed shortest first: the first suffix length that hits decides. */
  lemma {:induction false} SuffixShortestFirst(s: seq<LineDto>, k: string, len: nat, n: nat)
    requires len <= n <= MaxSuffix(k)
    requires LastWithPublicKey(s, Suffix(k, n)).Some?
    requires forall m | len <= m < n :: LastWithPublicKey(s, Suffix(k, m)).None?
    ensures SuffixRule(s, k, len) == LastWithPublicKey(s, Suffix(k, n))
    decreases n - len
  {
    if len < n {
      SuffixRuleSkips(s, k, len);
      SuffixShortestFirst(s, k, len + 1, n);
    } else {
      SuffixRuleHits(s, k, len);
    }
  }

  lemma SuffixRuleSkips(s: seq<LineDto>, k: string, len: nat)
    requires len <= MaxSuffix(k) && LastWithPublicKey(s, Suffix(k, len)).None?
    ensures SuffixRule(s, k, len) == SuffixRule(s, k, len + 1)
  {
  }

  lemma SuffixRuleHits(s: seq<LineDto>, k: string, len: nat)
    requires len <= MaxSuffix(k) && LastWithPublicKey(s, Suffix(k, len)).Some?
    ensures SuffixRule(s, k, len) == LastWithPublicKey(s, Suffix(k, len))
  {
  }

  /**
   * Without an entity number, and when neither the key nor its lower-case form
   * is a line number or an indexed label, the passage gets the line of the
   * shortest suffix the label index knows.
   */
  lemma PublicSuffixDecides(dto: DoorkomstDto, lines: Option<seq<LineDto>>, n: nat)
    requires IsNullOrBlank(dto.entiteitnummer)
    requires NormalizeLijnnummer(dto.lijnnummer).Some? && !IsBlank(NormalizeLijnnummer(dto.lijnnummer).value)
    requires LastWithKey(TableOf(lines), NormalizeLijnnummer(dto.lijnnummer).value).None?
    requires LastWithPublicKey(TableOf(lines), NormalizeLijnnummer(dto.lijnnummer).value).None?
    requires LastWithPublicKey(TableOf(lines), Lower(NormalizeLijnnummer(dto.lijnnummer).value)).None?
    requires 1 <= n <= MaxSuffix(NormalizeLijnnummer(dto.lijnnummer).value)
    requires LastWithPublicKey(TableOf(lines), Suffix(NormalizeLijnnummer(dto.lijnnummer).value, n)).Some?
    requires forall m | 1 <= m < n ::
      LastWithPublicKey(TableOf(lines), Suffix(NormalizeLijnnummer(dto.lijnnummer).value, m)).None?
    ensures MatchLine(dto, lines) == LastWithPublicKey(TableOf(lines), Suffix(NormalizeLijnnummer(dto.lijnnummer).value, n))
  {
    SuffixShortestFirst(TableOf(lines), NormalizeLijnnummer(dto.lijnnummer).value, 1, n);
  }

  /**
   * Among several lines of the passage's entity, with no direction to prefer one
   * and no key, every labelled candidate is rejected.
   */
  lemma AmbiguousEntityWithoutKey(dto: DoorkomstDto, lines: Option<seq<LineDto>>)
    requires NormalizeLijnnummer(dto.lijnnummer).None? && IsNullOrBlank(dto.richting)
    requires !IsNullOrBlank(dto.entiteitnummer)
    requires |EntityCandidates(TableOf(lines), dto.entiteitnummer.value)| >= 2
    requires forall i | 0 <= i < |TableOf(lines)| ::
      HasEntity(TableOf(lines)[i], dto.entiteitnummer.value) ==> TableOf(lines)[i].lijnNummerPubliek.Some?
    ensures MatchLine(dto, lines).None?
  {
    var s := TableOf(lines);
    var c := EntityCandidates(s, dto.entiteitnummer.value);
    assert forall j | 0 <= j < |c| :: !KeyOrLabel(None)(c[j]);
  }

  /**
   * Without an entity number, and when no line carries the key as its line
   * number, a hit of the label rule decides.
   */
  lemma PublicLabelDecides(dto: DoorkomstDto, lines: Option<seq<LineDto>>)
    requires IsNullOrBlank(dto.entiteitnummer)
    requires LineNumberRule(TableOf(lines), NormalizeLijnnummer(dto.lijnnummer)).None?
    requires PublicLabelRule(TableOf(lines), NormalizeLijnnummer(dto.lijnnummer)).Some?
    ensures MatchLine(dto, lines) == PublicLabelRule(TableOf(lines), NormalizeLijnnummer(dto.lijnnummer))
  {
  }

  /**
   * With a key and an entity, two lines agreeing on both and none agreeing on
   * direction leave rule 1 without a line: an ambiguous match is rejected.
   */
  lemma AmbiguousKeyEntityRejected(s: seq<LineDto>, key: string, ent: string, dir: Option<string>, i: nat, j: nat)
    requires !IsBlank(key) && !IsBlank(ent)
    requires i < j < |s| && KeyAndEntity(key, ent)(s[i]) && KeyAndEntity(key, ent)(s[j])
    requires forall m | 0 <= m < |s| :: !ExactTriple(key, ent, dir)(s[m])
    ensures ExactRule(s, Some(key), Some(ent), dir).None?
  {
    assert FirstWhere(s, ExactTriple(key, ent, dir)).None?;
    TwoMembers(Positions(s, KeyAndEntity(key, ent)), i, j);
  }

  lemma TwoMembers(ps: set<nat>, i: nat, j: nat)
    requires i != j && i in ps && j in ps
    ensures |ps| >= 2
  {
    var rest := ps - {i};
    assert j in rest;
    assert ps == rest + {i};
  }

  /** Rules 1 to 4 yield no line for the passage. */
  predicate EarlierRulesMiss(dto: DoorkomstDto, lines: Option<seq<LineDto>>) {
    var s, key := TableOf(lines), NormalizeLijnnummer(dto.lijnnummer);
    && ExactRule(s, key, dto.entiteitnummer, dto.richting).None?
    && UniqueEntityRule(s, dto.entiteitnummer).None?
    && LineNumberRule(s, key).None?
    && PublicLabelRule(s, key).None?
  }

  /**
   * Once rules 1 to 4 fail, the first line of the passage's entity in the
   * passage's direction is chosen.
   */
  lemma EntitySameDirectionWins(dto: DoorkomstDto, lines: Option<seq<LineDto>>, i: nat)
    requires EarlierRulesMiss(dto, lines) && !IsNullOrBlank(dto.entiteitnummer)
    requires i < |EntityCandidates(TableOf(lines), dto.entiteitnummer.value)|
    requires SameDirection(dto.richting)(EntityCandidates(TableOf(lines), dto.entiteitnummer.value)[i])
    requires forall j | 0 <= j < i :: !SameDirection(dto.richting)(EntityCandidates(TableOf(lines), dto.entiteitnummer.value)[j])
    ensures MatchLine(dto, lines) == Some(EntityCandidates(TableOf(lines), dto.entiteitnummer.value)[i])
  {
    FirstWhereAt(EntityCandidates(TableOf(lines), dto.entiteitnummer.value), SameDirection(dto.richting), i);
  }

  /**
   * Once rules 1 to 4 fail and no line of the entity is in the passage's
   * direction, the first line of the entity whose number or label equals the
   * key is chosen.
   */
  lemma EntityKeyOrLabelWins(dto: DoorkomstDto, lines: Option<seq<LineDto>>, i: nat)
    requires EarlierRulesMiss(dto, lines) && !IsNullOrBlank(dto.entiteitnummer)
    requires forall j | 0 <= j < |EntityCandidates(TableOf(lines), dto.entiteitnummer.value)| ::
      !SameDirection(dto.richting)(EntityCandidates(TableOf(lines), dto.entiteitnummer.value)[j])
    requires i < |EntityCandidates(TableOf(lines), dto.entiteitnummer.value)|
    requires KeyOrLabel(NormalizeLijnnummer(dto.lijnnummer))(EntityCandidates(TableOf(lines), dto.entiteitnummer.value)[i])
    requires forall j | 0 <= j < i ::
      !KeyOrLabel(NormalizeLijnnummer(dto.lijnnummer))(EntityCandidates(TableOf(lines), dto.entiteitnummer.value)[j])
    ensures MatchLine(dto, lines) == Some(EntityCandidates(TableOf(lines), dto.entiteitnummer.value)[i])
  {
    FirstWhereAt(EntityCandidates(TableOf(lines), dto.entiteitnummer.value), KeyOrLabel(NormalizeLijnnummer(dto.lijnnummer)), i);
  }

  /**
   * Once rules 1 to 5 fail, the first line of the label index, in the order its
   * keys were first put, whose label mentions the key is chosen.
   */
  lemma LabelScanWins(dto: DoorkomstDto, lines: Option<seq<LineDto>>, i: nat)
    requires EarlierRulesMiss(dto, lines)
    requires EntityDirectionRule(TableOf(lines), NormalizeLijnnummer(dto.lijnnummer), dto.entiteitnummer, dto.richting).None?
    requires !IsNullOrBlank(NormalizeLijnnummer(dto.lijnnummer))
    requires i < |Values(LabelIndexOf(TableOf(lines)))|
    requires LabelMentions(NormalizeLijnnummer(dto.lijnnummer).value)(Values(LabelIndexOf(TableOf(lines)))[i])
    requires forall j | 0 <= j < i ::
      !LabelMentions(NormalizeLijnnummer(dto.lijnnummer).value)(Values(LabelIndexOf(TableOf(lines)))[j])
    ensures MatchLine(dto, lines) == Some(Values(LabelIndexOf(TableOf(lines)))[i])
  {
    FirstWhereAt(Values(LabelIndexOf(TableOf(lines))), LabelMentions(NormalizeLijnnummer(dto.lijnnummer).value), i);
  }

  // ---- concrete passages ----

  /** A line record with only a label, an entity and a line number. */
  function LineOf(pub: Option<string>, ent: Option<string>, lijn: Option<LijnValue>): LineDto {
    LineDto(pub, ent, lijn, None, None, None, None, None, None)
  }

  /** A passage with only a line number, an entity and a direction. */
  function PassageOf(lijn: Option<LijnValue>, ent: Option<string>, dir: Option<string>): DoorkomstDto {
    DoorkomstDto(None, ent, lijn, dir, None, None, None, None, None, None, None, None, None)
  }

  /** A key made of digits, or of one character, is its own normalised form. */
  lemma TextKey(k: string)
    requires k != [] && Unpadded(k) && (AllDigits(k) || |k| == 1)
    ensures NormalizeLijnnummer(Some(Str(k))) == Some(k)
  {
    TrimUnpadded(k);
    if AllDigits(k) {
      DecimalIsNotDigitsDotZero(k);
    }
  }

  /** Line "92" with no entity finds the line labelled "R92" through the label's digit run. */
  lemma LabelDigitRunScenario(dto: DoorkomstDto, l: LineDto)
    requires dto == PassageOf(Some(Str("92")), None, None) && l == LineOf(Some("R92"), None, None)
    ensures MatchLine(dto, Some([l])) == Some(l)
  {
    TextKey("92");
    DigitRunRules(l);
    PublicLabelDecides(dto, Some([l]));
  }

  /** Rules 3 and 4 for the key "92" against the label "R92". */
  lemma DigitRunRules(l: LineDto)
    requires l == LineOf(Some("R92"), None, None)
    ensures LineNumberRule([l], Some("92")).None?
    ensures PublicLabelRule([l], Some("92")) == Some(l)
  {
    NotBlank("92");
    R92Keys(l);
    OnlyLabelLine(l, "92");
  }

  /** A text starting with a digit is not blank. */
  lemma NotBlank(k: string)
    requires k != [] && IsDigit(k[0])
    ensures !IsBlank(k)
  {
    assert !IsWhitespace(k[0]);
  }

  /** In a one-line table, a key the line files its label under finds that line by rule 4, not rule 3. */
  lemma OnlyLabelLine(l: LineDto, k: string)
    requires l.lijnnummer.None? && !IsBlank(k) && HasPublicKey(l, k)
    ensures LineNumberRule([l], Some(k)).None?
    ensures PublicLabelRule([l], Some(k)) == Some(l)
  {
    NoLineNumbers([l], k);
    assert LastWithPublicKey([l], k) == Some(l);
  }

  /** A table without line numbers has no line for any key. */
  lemma NoLineNumbers(s: seq<LineDto>, k: string)
    requires forall i | 0 <= i < |s| :: s[i].lijnnummer.None?
    requires !IsBlank(k)
    ensures LineNumberRule(s, Some(k)).None?
  {
  }

  /** `NoLineNumbers` for a table of two lines. */
  lemma NoLineNumbersPair(a: LineDto, b: LineDto, k: string)
    requires a.lijnnummer.None? && b.lijnnummer.None? && !IsBlank(k)
    ensures LineNumberRule([a, b], Some(k)).None?
  {
    NoLineNumbers([a, b], k);
  }

  lemma R92Keys(l: LineDto)
    requires l == LineOf(Some("R92"), None, None)
    ensures HasPublicKey(l, "92") && !HasKey(l, "92")
  {
    assert "R92" == ['R'] + "92";
    DigitRunAfterLetter('R', "92");
    PublicKeysOf(l, "R92", Some("92"));
  }

  /** The keys a labelled line is filed under, for a label without surrounding blanks. */
  lemma PublicKeysOf(l: LineDto, pub: string, digits: Option<string>)
    requires l.lijnNummerPubliek == Some(pub) && Unpadded(pub) && FirstDigitRun(pub) == digits
    ensures forall k :: HasPublicKey(l, k) <==> k == pub || k == Lower(pub) || (digits.Some? && k == digits.value)
  {
    TrimUnpadded(pub);
    if digits.Some? {
      assert IsDigit(digits.value[0]);
      assert !IsBlank(digits.value);
    }
  }

  /** The first digit run of a letter followed by digits is those digits. */
  lemma DigitRunAfterLetter(c: char, d: string)
    requires !IsDigit(c) && d != [] && AllDigits(d)
    ensures FirstDigitRun([c] + d) == Some(d)
  {
    assert ([c] + d)[1..] == d;
    DigitPrefixOf(d, []);
    assert d + [] == d;
  }

  /** In a two-line table the second line's keys win. */
  lemma LastOfPair(a: LineDto, b: LineDto, k: string)
    ensures LastWithPublicKey([a, b], k)
         == if HasPublicKey(b, k) then Some(b) else if HasPublicKey(a, k) then Some(a) else None
  {
    assert [a, b][..1] == [a];
  }

  lemma R36Keys(l: LineDto)
    requires l == LineOf(Some("R36"), None, None)
    ensures !HasPublicKey(l, "136") && !HasPublicKey(l, "6") && !HasKey(l, "136")
  {
    assert "R36" == ['R'] + "36";
    DigitRunAfterLetter('R', "36");
    var lower := Lower("R36");
    assert |lower| == 3 && lower[0] == 'r';
    assert "136"[0] != "R36"[0] && "136"[0] != lower[0];
    NotLabelKey(l, "R36", "36", "136");
    NotLabelKey(l, "R36", "36", "6");
  }

  /** A key that is neither the label, nor its lower-case form, nor its digit run, finds nothing. */
  lemma NotLabelKey(l: LineDto, pub: string, digits: string, k: string)
    requires l.lijnNummerPubliek == Some(pub) && Unpadded(pub) && FirstDigitRun(pub) == Some(digits)
    requires k != pub && k != Lower(pub) && k != digits
    ensures !HasPublicKey(l, k)
  {
    TrimUnpadded(pub);
  }

  lemma X6Keys(l: LineDto)
    requires l == LineOf(Some("X6"), None, None)
    ensures !HasPublicKey(l, "136") && HasPublicKey(l, "6") && !HasKey(l, "136")
  {
    assert "X6" == ['X'] + "6";
    DigitRunAfterLetter('X', "6");
    PublicKeysOf(l, "X6", Some("6"));
  }

  /**
   * Suffixes are probed shortest first: key "136" meets "6" (the digit run of
   * "X6") before "36" (the digit run of "R36"), whatever the table order.
   */
  lemma SuffixOrderScenario(dto: DoorkomstDto, r36: LineDto, x6: LineDto)
    requires dto == PassageOf(Some(Str("136")), None, None)
    requires r36 == LineOf(Some("R36"), None, None) && x6 == LineOf(Some("X6"), None, None)
    ensures MatchLine(dto, Some([r36, x6])) == Some(x6)
  {
    TextKey("136");
    SuffixTableRules(r36, x6);
    PublicLabelDecides(dto, Some([r36, x6]));
  }

  /** Rules 3 and 4 for the key "136" against the labels "R36" and "X6". */
  lemma SuffixTableRules(r36: LineDto, x6: LineDto)
    requires r36 == LineOf(Some("R36"), None, None) && x6 == LineOf(Some("X6"), None, None)
    ensures LineNumberRule([r36, x6], Some("136")).None?
    ensures PublicLabelRule([r36, x6], Some("136")) == Some(x6)
  {
    assert !IsWhitespace("136"[0]);
    NoLineNumbersPair(r36, x6, "136");
    SuffixTableLabel(r36, x6);
  }

  lemma SuffixTableLabel(r36: LineDto, x6: LineDto)
    requires r36 == LineOf(Some("R36"), None, None) && x6 == LineOf(Some("X6"), None, None)
    ensures PublicLabelRule([r36, x6], Some("136")) == Some(x6)
  {
    R36Keys(r36);
    X6Keys(x6);
    Key136();
    ShortestSuffixPair(r36, x6, "136", "6");
  }

  /** The key "136": not blank, already lower-case, ending in "6". */
  lemma Key136()
    ensures !IsBlank("136") && Lower("136") == "136" && Suffix("136", 1) == "6"
  {
    assert !IsWhitespace("136"[0]);
    LowerUnchanged("136");
  }

  /** In a two-line table, a key only the second line's label ends in goes to the second line. */
  lemma ShortestSuffixPair(a: LineDto, b: LineDto, k: string, t: string)
    requires !IsBlank(k) && Lower(k) == k && |k| >= 1 && Suffix(k, 1) == t
    requires !HasPublicKey(a, k) && !HasPublicKey(b, k) && HasPublicKey(b, t)
    ensures PublicLabelRule([a, b], Some(k)) == Some(b)
  {
    LastOfPair(a, b, k);
    LastOfPair(a, b, t);
    ShortestSuffixDecides([a, b], k, b);
  }

  /** A lower-case key that is no label key itself takes the last line labelled with its last character. */
  lemma ShortestSuffixDecides(s: seq<LineDto>, k: string, x: LineDto)
    requires !IsBlank(k) && Lower(k) == k
    requires LastWithPublicKey(s, k).None? && LastWithPublicKey(s, Suffix(k, 1)) == Some(x)
    ensures PublicLabelRule(s, Some(k)) == Some(x)
  {
    SuffixRuleHits(s, k, 1);
    PublicLabelBySuffix(s, k);
  }

  /** When neither the key nor its lower-case form is a label key, the suffix probes decide rule 4. */
  lemma PublicLabelBySuffix(s: seq<LineDto>, k: string)
    requires !IsBlank(k)
    requires LastWithPublicKey(s, k).None? && LastWithPublicKey(s, Lower(k)).None?
    ensures PublicLabelRule(s, Some(k)) == SuffixRule(s, k, 1)
  {
  }

  /**
   * The label scan compares case-insensitively at the end of the label but
   * case-sensitively inside it: the label "XAB" mentions "b" and "A", not "a".
   */
  lemma LabelMentionsCaseScenario()
    ensures LabelMentions("b")(LineOf(Some("XAB"), None, None))
    ensures LabelMentions("A")(LineOf(Some("XAB"), None, None))
    ensures !LabelMentions("a")(LineOf(Some("XAB"), None, None))
  {
    assert EndsWithIgnoreCase("XAB", "b") by {
      assert "XAB"[2..] == "B";
    }
    assert Contains("XAB", "A") by {
      assert OccursAt("XAB", "A", 1);
    }
    assert !Contains("XAB", "a") by {
      NotContainsChar("XAB", 'a');
      assert "a" == ['a'];
    }
    assert !EndsWithIgnoreCase("XAB", "a") by {
      assert LowerChar("XAB"[2]) == 'b';
    }
  }

  /** In a one-line table whose line has no line number, entity or digits, every rule before the scan fails. */
  lemma LabelScanUnindexedKey(l: LineDto, k: string)
    requires l.lijnnummer.None? && l.entiteitnummer.None? && l.lijnNummerPubliek.Some?
    requires FirstDigitRun(Trim(l.lijnNummerPubliek.value)).None?
    requires |k| == 1 && Unpadded(k)
    requires k != Trim(l.lijnNummerPubliek.value) && k != Lower(Trim(l.lijnNummerPubliek.value))
    requires Lower(k) != Trim(l.lijnNummerPubliek.value) && Lower(k) != Lower(Trim(l.lijnNummerPubliek.value))
    ensures MatchLine(PassageOf(Some(Str(k)), None, None), Some([l]))
         == FirstWhere(Values(LabelIndexOf([l])), LabelMentions(k))
  {
    assert !IsBlank(k) by {
      assert !IsWhitespace(k[0]);
    }
    UnindexedKeyReachesScan(l, k);
  }

  /** The unindexed one-character key passes rules 1 to 5 untouched. */
  lemma UnindexedKeyReachesScan(l: LineDto, k: string)
    requires l.lijnnummer.None? && l.entiteitnummer.None? && l.lijnNummerPubliek.Some?
    requires FirstDigitRun(Trim(l.lijnNummerPubliek.value)).None?
    requires |k| == 1 && Unpadded(k) && !IsBlank(k)
    requires k != Trim(l.lijnNummerPubliek.value) && k != Lower(Trim(l.lijnNummerPubliek.value))
    requires Lower(k) != Trim(l.lijnNummerPubliek.value) && Lower(k) != Lower(Trim(l.lijnNummerPubliek.value))
    ensures MatchLine(PassageOf(Some(Str(k)), None, None), Some([l])) == LabelScanRule([l], Some(k))
  {
    var dto := PassageOf(Some(Str(k)), None, None);
    var s, key := TableOf(Some([l])), NormalizeLijnnummer(dto.lijnnummer);
    assert s == [l] && key == Some(k) by {
      TextKey(k);
    }
    UnindexedKeyMisses(l, k);
    LabelScanDecides(dto, Some([l]));
  }

  /** Rules 3 and 4 find nothing for such a key. */
  lemma UnindexedKeyMisses(l: LineDto, k: string)
    requires l.lijnnummer.None? && l.lijnNummerPubliek.Some?
    requires FirstDigitRun(Trim(l.lijnNummerPubliek.value)).None?
    requires |k| == 1 && !IsBlank(k)
    requires k != Trim(l.lijnNummerPubliek.value) && k != Lower(Trim(l.lijnNummerPubliek.value))
    requires Lower(k) != Trim(l.lijnNummerPubliek.value) && Lower(k) != Lower(Trim(l.lijnNummerPubliek.value))
    ensures LineNumberRule([l], Some(k)).None? && PublicLabelRule([l], Some(k)).None?
  {
    NoLineNumbers([l], k);
    UnlabelledSingleChar(l, k, Lower(k));
  }

  /** A one-character key that the line files under neither in its own nor in lower case finds no label line. */
  lemma UnlabelledSingleChar(l: LineDto, k: string, lk: string)
    requires l.lijnNummerPubliek.Some? && FirstDigitRun(Trim(l.lijnNummerPubliek.value)).None?
    requires |k| == 1 && !IsBlank(k) && lk == Lower(k)
    requires k != Trim(l.lijnNummerPubliek.value) && k != Lower(Trim(l.lijnNummerPubliek.value))
    requires lk != Trim(l.lijnNummerPubliek.value) && lk != Lower(Trim(l.lijnNummerPubliek.value))
    ensures PublicLabelRule([l], Some(k)).None?
  {
    UnlabelledKey(l, k);
    UnlabelledKey(l, lk);
    SingleCharSuffix([l], k);
    PublicLabelBySuffix([l], k);
  }

  /** A one-character key is its own only suffix. */
  lemma SingleCharSuffix(s: seq<LineDto>, k: string)
    requires |k| == 1 && LastWithPublicKey(s, k).None?
    ensures SuffixRule(s, k, 1).None?
  {
    assert Suffix(k, 1) == k;
    SuffixRuleSkips(s, k, 1);
  }

  /** A one-line table has no label line for a key its line does not file. */
  lemma UnlabelledKey(l: LineDto, k: string)
    requires l.lijnNummerPubliek.Some? && FirstDigitRun(Trim(l.lijnNummerPubliek.value)).None?
    requires k != Trim(l.lijnNummerPubliek.value) && k != Lower(Trim(l.lijnNummerPubliek.value))
    ensures LastWithPublicKey([l], k).None?
  {
    assert !HasPublicKey(l, k);
  }

  /** Without an entity, when rules 3 and 4 find nothing, the label scan decides. */
  lemma LabelScanDecides(dto: DoorkomstDto, lines: Option<seq<LineDto>>)
    requires IsNullOrBlank(dto.entiteitnummer)
    requires LineNumberRule(TableOf(lines), NormalizeLijnnummer(dto.lijnnummer)).None?
    requires PublicLabelRule(TableOf(lines), NormalizeLijnnummer(dto.lijnnummer)).None?
    ensures MatchLine(dto, lines) == LabelScanRule(TableOf(lines), NormalizeLijnnummer(dto.lijnnummer))
  {
  }

  /**
   * Two lines of entity "E", one labelled "R1" and one without a label: a
   * passage of entity "E" without a line number gets the unlabelled line, since
   * a missing label equals the missing key.
   */
  lemma MissingKeyMatchesUnlabelledScenario()
    ensures MatchLine(PassageOf(None, Some("E"), None),
                      Some([LineOf(Some("R1"), Some("E"), None), LineOf(None, Some("E"), None)]))
         == Some(LineOf(None, Some("E"), None))
  {
    var a, b := LineOf(Some("R1"), Some("E"), None), LineOf(None, Some("E"), None);
    var s := [a, b];
    assert [a, b][..1] == [a];
    assert EntityCandidates(s, "E") == [a, b];
    assert !IsBlank("E") by {
      assert !IsWhitespace("E"[0]);
    }
    assert UniqueEntityRule(s, Some("E")).None?;
    assert FirstWhere([a, b], SameDirection(None)).None?;
    assert !KeyOrLabel(None)(a) && KeyOrLabel(None)(b);
    assert FirstWhere([a, b], KeyOrLabel(None)) == Some(b);
    assert EntityDirectionRule(s, None, Some("E"), None) == Some(b);
  }
}
