/**
 * `buildLineIndexes`: the three lookup tables built from the line metadata, and
 * what each of them holds, stated directly over the table of lines:
 *  - by normalised line number: the LAST line with that key (later writes win);
 *  - by entity number: all lines of that entity, in table order;
 *  - by public label: an insertion-ordered map (a `LinkedHashMap`) from the
 *    trimmed label, its lower-case form and its first digit run to the LAST line
 *    filed under that key; overwriting a key keeps the key's first position.
 */
module LineIndexes {
  import opened Wrappers
  import opened Text
  import opened Dtos
  import opened LineKeys

  // ---- the table, searched directly ----

  /** `lines ?: emptyList()`: a missing table behaves as an empty one. */
  function TableOf(lines: Option<seq<LineDto>>): seq<LineDto> {
    lines.GetOr([])
  }

  predicate HasKey(l: LineDto, k: string) {
    NormalizeLijnnummer(l.lijnnummer) == Some(k)
  }

  predicate HasEntity(l: LineDto, e: string) {
    l.entiteitnummer == Some(e)
  }

  /** The keys under which a line's public label is filed. */
  predicate HasPublicKey(l: LineDto, k: string) {
    && l.lijnNummerPubliek.Some?
    && var t := Trim(l.lijnNummerPubliek.value);
       var d := FirstDigitRun(t);
       k == t || k == Lower(t) || (d.Some? && !IsBlank(d.value) && k == d.value)
  }

  /** The last line of `s` whose normalised line number is `k`. */
  function LastWithKey(s: seq<LineDto>, k: string): (r: Option<LineDto>)
    ensures r.Some? ==> r.value in s && HasKey(r.value, k)
    ensures r.None? <==> forall i | 0 <= i < |s| :: !HasKey(s[i], k)
  {
    if s == [] then None
    else if HasKey(s[|s| - 1], k) then Some(s[|s| - 1])
    else
      var r := LastWithKey(s[..|s| - 1], k);
      assert forall i | 0 <= i < |s| - 1 :: s[i] == s[..|s| - 1][i];
      r
  }

  /** The lines of `s` with entity number `e`, in table order. */
  function EntityCandidates(s: seq<LineDto>, e: string): (r: seq<LineDto>)
    ensures |r| <= |s|
    ensures forall i | 0 <= i < |r| :: r[i] in s && HasEntity(r[i], e)
    ensures forall i | 0 <= i < |s| :: HasEntity(s[i], e) ==> s[i] in r
  {
    if s == [] then []
    else
      var r := EntityCandidates(s[..|s| - 1], e) + (if HasEntity(s[|s| - 1], e) then [s[|s| - 1]] else []);
      assert forall i | 0 <= i < |s| - 1 :: s[i] == s[..|s| - 1][i];
      r
  }

  /** The last line of `s` that files its label under `k`. */
  function LastWithPublicKey(s: seq<LineDto>, k: string): (r: Option<LineDto>)
    ensures r.Some? ==> r.value in s && HasPublicKey(r.value, k)
    ensures r.None? <==> forall i | 0 <= i < |s| :: !HasPublicKey(s[i], k)
  {
    if s == [] then None
    else if HasPublicKey(s[|s| - 1], k) then Some(s[|s| - 1])
    else
      var r := LastWithPublicKey(s[..|s| - 1], k);
      assert forall i | 0 <= i < |s| - 1 :: s[i] == s[..|s| - 1][i];
      r
  }

  /** Last write wins: the line chosen for a key is the key's last line in the table. */
  lemma {:induction false} LastWithKeyIsLast(s: seq<LineDto>, k: string, i: nat)
    requires i < |s| && HasKey(s[i], k)
    requires forall j | i < j < |s| :: !HasKey(s[j], k)
    ensures LastWithKey(s, k) == Some(s[i])
  {
    if i < |s| - 1 {
      LastWithKeyIsLast(s[..|s| - 1], k, i);
    }
  }

  /** Last write wins for public labels as well. */
  lemma {:induction false} LastWithPublicKeyIsLast(s: seq<LineDto>, k: string, i: nat)
    requires i < |s| && HasPublicKey(s[i], k)
    requires forall j | i < j < |s| :: !HasPublicKey(s[j], k)
    ensures LastWithPublicKey(s, k) == Some(s[i])
  {
    if i < |s| - 1 {
      LastWithPublicKeyIsLast(s[..|s| - 1], k, i);
    }
  }

  // ---- an insertion-ordered map ----

  /** Entries in the order their keys were first inserted. */
  type LabelIndex = seq<(string, LineDto)>

  function Keys(idx: LabelIndex): (ks: seq<string>)
    ensures |ks| == |idx|
  {
    seq(|idx|, i requires 0 <= i < |idx| => idx[i].0)
  }

  /** The iteration order of `values`. */
  function Values(idx: LabelIndex): (vs: seq<LineDto>)
    ensures |vs| == |idx|
  {
    seq(|idx|, i requires 0 <= i < |idx| => idx[i].1)
  }

  predicate DistinctKeys(idx: LabelIndex) {
    forall i, j | 0 <= i < j < |idx| :: idx[i].0 != idx[j].0
  }

  /** `idx[k]` */
  function Lookup(idx: LabelIndex, k: string): (r: Option<LineDto>)
    ensures r.None? <==> k !in Keys(idx)
    ensures r.Some? ==> r.value in Values(idx)
  {
    if idx == [] then None
    else if idx[0].0 == k then
      assert Keys(idx)[0] == k && Values(idx)[0] == idx[0].1;
      Some(idx[0].1)
    else
      var r := Lookup(idx[1..], k);
      assert Keys(idx) == [idx[0].0] + Keys(idx[1..]);
      assert Values(idx) == [idx[0].1] + Values(idx[1..]);
      r
  }

  /**
   * `idx[k] = v`: a new key goes last; an existing key keeps its position and
   * only its value changes.
   */
  function Put(idx: LabelIndex, k: string, v: LineDto): (r: LabelIndex)
    ensures Keys(r) == if k in Keys(idx) then Keys(idx) else Keys(idx) + [k]
    ensures forall k' :: Lookup(r, k') == if k' == k then Some(v) else Lookup(idx, k')
  {
    if idx == [] then [(k, v)]
    else if idx[0].0 == k then
      var r := [(k, v)] + idx[1..];
      assert r[1..] == idx[1..];
      assert Keys(idx)[0] == k;
      assert forall i | 0 <= i < |r| :: Keys(r)[i] == Keys(idx)[i];
      r
    else
      var rest := Put(idx[1..], k, v);
      var r := [idx[0]] + rest;
      assert r[1..] == rest;
      assert Keys(idx) == [idx[0].0] + Keys(idx[1..]);
      assert Keys(r) == [idx[0].0] + Keys(rest);
      r
  }

  /** `put` only ever adds the value it is given. */
  lemma {:induction false} PutValues(idx: LabelIndex, k: string, v: LineDto)
    ensures forall x | x in Values(Put(idx, k, v)) :: x in Values(idx) || x == v
  {
    var r := Put(idx, k, v);
    if idx == [] {
      assert Values(r) == [v];
    } else if idx[0].0 == k {
      assert r == [(k, v)] + idx[1..];
      assert Values(r) == [v] + Values(idx)[1..];
    } else {
      PutValues(idx[1..], k, v);
      assert Values(idx) == [idx[0].1] + Values(idx[1..]);
      assert Values(r) == [idx[0].1] + Values(Put(idx[1..], k, v));
    }
  }

  /** `put` never lists a key twice. */
  lemma PutDistinct(idx: LabelIndex, k: string, v: LineDto)
    requires DistinctKeys(idx)
    ensures DistinctKeys(Put(idx, k, v))
  {
    var r := Put(idx, k, v);
    var ks := Keys(r);
    assert forall i | 0 <= i < |r| :: r[i].0 == ks[i];
    assert forall i | 0 <= i < |idx| :: idx[i].0 == Keys(idx)[i];
  }

  /** What one line adds to the label index: its trimmed label, lower-case label and first digit run. */
  function AddLabel(idx: LabelIndex, l: LineDto): (r: LabelIndex)
    ensures l.lijnNummerPubliek.None? ==> r == idx
  {
    match l.lijnNummerPubliek
    case None => idx
    case Some(pub) =>
      var trimmed := Trim(pub);
      var i2 := Put(Put(idx, trimmed, l), Lower(trimmed), l);
      var digits := FirstDigitRun(trimmed);
      if digits.Some? && !IsBlank(digits.value) then Put(i2, digits.value, l) else i2
  }

  /** After filing a line, a key answers with that line exactly when the line files its label under the key. */
  lemma AddLabelLookup(idx: LabelIndex, l: LineDto, k: string)
    ensures Lookup(AddLabel(idx, l), k) == if HasPublicKey(l, k) then Some(l) else Lookup(idx, k)
  {
  }

  lemma AddLabelValues(idx: LabelIndex, l: LineDto)
    ensures forall x | x in Values(AddLabel(idx, l)) :: x in Values(idx) || (x == l && l.lijnNummerPubliek.Some?)
    ensures DistinctKeys(idx) ==> DistinctKeys(AddLabel(idx, l))
  {
    if l.lijnNummerPubliek.Some? {
      var trimmed := Trim(l.lijnNummerPubliek.value);
      var i1 := Put(idx, trimmed, l);
      var i2 := Put(i1, Lower(trimmed), l);
      PutValues(idx, trimmed, l);
      PutValues(i1, Lower(trimmed), l);
      if DistinctKeys(idx) {
        PutDistinct(idx, trimmed, l);
        PutDistinct(i1, Lower(trimmed), l);
      }
      var digits := FirstDigitRun(trimmed);
      if digits.Some? && !IsBlank(digits.value) {
        PutValues(i2, digits.value, l);
        if DistinctKeys(idx) {
          PutDistinct(i2, digits.value, l);
        }
      }
    }
  }

  /** The label index after filing every line of `s`, in order. */
  function LabelIndexOf(s: seq<LineDto>): LabelIndex {
    if s == [] then [] else AddLabel(LabelIndexOf(s[..|s| - 1]), s[|s| - 1])
  }

  /** Last write wins: the index answers with the last line that filed its label under the key. */
  lemma {:induction false} LabelIndexLookup(s: seq<LineDto>, k: string)
    ensures Lookup(LabelIndexOf(s), k) == LastWithPublicKey(s, k)
  {
    if s != [] {
      LabelIndexLookup(s[..|s| - 1], k);
      AddLabelLookup(LabelIndexOf(s[..|s| - 1]), s[|s| - 1], k);
    }
  }

  /** Every indexed value is a labelled line of the table, and no key is listed twice. */
  lemma {:induction false} LabelIndexValues(s: seq<LineDto>)
    ensures forall x | x in Values(LabelIndexOf(s)) :: x in s && x.lijnNummerPubliek.Some?
    ensures DistinctKeys(LabelIndexOf(s))
  {
    if s != [] {
      LabelIndexValues(s[..|s| - 1]);
      AddLabelValues(LabelIndexOf(s[..|s| - 1]), s[|s| - 1]);
      forall x | x in Values(LabelIndexOf(s)) ensures x in s && x.lijnNummerPubliek.Some? {
        if x in Values(LabelIndexOf(s[..|s| - 1])) {
          assert x in s[..|s| - 1];
        }
      }
    }
  }

  /** How each search changes when the table grows by one line. */
  lemma KeyStep(s: seq<LineDto>, i: nat, k: string)
    requires i < |s|
    ensures LastWithKey(s[..i + 1], k) == if HasKey(s[i], k) then Some(s[i]) else LastWithKey(s[..i], k)
  {
    assert s[..i + 1][..i] == s[..i];
  }

  lemma EntityStep(s: seq<LineDto>, i: nat, e: string)
    requires i < |s|
    ensures EntityCandidates(s[..i + 1], e) == EntityCandidates(s[..i], e) + (if HasEntity(s[i], e) then [s[i]] else [])
  {
    assert s[..i + 1][..i] == s[..i];
  }

  lemma LabelStep(s: seq<LineDto>, i: nat)
    requires i < |s|
    ensures LabelIndexOf(s[..i + 1]) == AddLabel(LabelIndexOf(s[..i]), s[i])
  {
    assert s[..i + 1][..i] == s[..i];
  }

  /** `byLijn` holds, for every non-blank key, the last line of `t` with that key. */
  ghost predicate LijnIndexed(byLijn: map<string, LineDto>, t: seq<LineDto>) {
    && (forall k :: k in byLijn <==> !IsBlank(k) && LastWithKey(t, k).Some?)
    && (forall k | k in byLijn :: byLijn[k] == LastWithKey(t, k).value)
  }

  /** `byEntiteit` holds, for every entity of `t`, its lines in table order. */
  ghost predicate EntityIndexed(byEntiteit: map<string, seq<LineDto>>, t: seq<LineDto>) {
    && (forall e :: e in byEntiteit <==> EntityCandidates(t, e) != [])
    && (forall e | e in byEntiteit :: byEntiteit[e] == EntityCandidates(t, e))
  }

  /** One step of `buildLineIndexes` for the number index: file line `s[i]` under its normalised number. */
  method FileNumber(byLijn: map<string, LineDto>, s: seq<LineDto>, i: nat) returns (r: map<string, LineDto>)
    requires i < |s| && LijnIndexed(byLijn, s[..i])
    ensures LijnIndexed(r, s[..i + 1])
  {
    var l := s[i];
    var norm := NormalizeLijnnummer(l.lijnnummer);
    r := byLijn;
    if !IsNullOrBlank(norm) {
      r := r[norm.value := l];
    }
    NumberStep(byLijn, r, s, i, norm);
  }

  lemma NumberStep(byLijn: map<string, LineDto>, r: map<string, LineDto>, s: seq<LineDto>, i: nat, norm: Option<string>)
    requires i < |s| && LijnIndexed(byLijn, s[..i])
    requires norm == NormalizeLijnnummer(s[i].lijnnummer)
    requires r == if !IsNullOrBlank(norm) then byLijn[norm.value := s[i]] else byLijn
    ensures LijnIndexed(r, s[..i + 1])
  {
    forall k
      ensures k in r <==> !IsBlank(k) && LastWithKey(s[..i + 1], k).Some?
      ensures k in r ==> r[k] == LastWithKey(s[..i + 1], k).value
    {
      KeyStep(s, i, k);
      assert HasKey(s[i], k) <==> norm == Some(k);
    }
  }

  /** One step of `buildLineIndexes` for the entity index: append line `s[i]` to its entity's list. */
  method FileEntity(byEntiteit: map<string, seq<LineDto>>, s: seq<LineDto>, i: nat) returns (r: map<string, seq<LineDto>>)
    requires i < |s| && EntityIndexed(byEntiteit, s[..i])
    ensures EntityIndexed(r, s[..i + 1])
  {
    var l := s[i];
    r := byEntiteit;
    if l.entiteitnummer.Some? {
      var id := l.entiteitnummer.value;
      var list := if id in r then r[id] else [];
      r := r[id := list + [l]];
    }
    forall e
      ensures e in r <==> EntityCandidates(s[..i + 1], e) != []
      ensures e in r ==> r[e] == EntityCandidates(s[..i + 1], e)
    {
      EntityStep(s, i, e);
      if !HasEntity(l, e) {
        assert EntityCandidates(s[..i + 1], e) == EntityCandidates(s[..i], e) + [];
      } else {
        assert (if e in byEntiteit then byEntiteit[e] else []) == EntityCandidates(s[..i], e);
      }
    }
  }

  /** One step of `buildLineIndexes` for the label index: the label, its lower-case form, its digit run. */
  method FileLabel(byPubliek: LabelIndex, s: seq<LineDto>, i: nat) returns (r: LabelIndex)
    requires i < |s| && byPubliek == LabelIndexOf(s[..i])
    ensures r == LabelIndexOf(s[..i + 1])
  {
    var l := s[i];
    r := byPubliek;
    if l.lijnNummerPubliek.Some? {
      var trimmed := Trim(l.lijnNummerPubliek.value);
      r := Put(r, trimmed, l);
      r := Put(r, Lower(trimmed), l);
      var digits := FirstDigitRun(trimmed);
      if digits.Some? && !IsBlank(digits.value) {
        r := Put(r, digits.value, l);
      }
    }
    LabelStep(s, i);
  }

  /**
   * `buildLineIndexes`: one pass over the lines filling the three indexes. A
   * missing table gives three empty indexes.
   */
  method BuildLineIndexes(lines: Option<seq<LineDto>>)
    returns (byLijn: map<string, LineDto>, byEntiteit: map<string, seq<LineDto>>, byPubliek: LabelIndex)
    ensures forall k :: k in byLijn <==> !IsBlank(k) && LastWithKey(TableOf(lines), k).Some?
    ensures forall k | k in byLijn :: byLijn[k] == LastWithKey(TableOf(lines), k).value
    ensures forall e :: e in byEntiteit <==> EntityCandidates(TableOf(lines), e) != []
    ensures forall e | e in byEntiteit :: byEntiteit[e] == EntityCandidates(TableOf(lines), e)
    ensures byPubliek == LabelIndexOf(TableOf(lines))
  {
    byLijn, byEntiteit, byPubliek := map[], map[], [];
    if lines.None? {
      return;
    }
    var s := lines.value;
    for i := 0 to |s|
      invariant LijnIndexed(byLijn, s[..i])
      invariant EntityIndexed(byEntiteit, s[..i])
      invariant byPubliek == LabelIndexOf(s[..i])
    {
      byLijn := FileNumber(byLijn, s, i);
      byEntiteit := FileEntity(byEntiteit, s, i);
      byPubliek := FileLabel(byPubliek, s, i);
    }
    assert s[..|s|] == s;
  }
}
