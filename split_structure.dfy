/** `splitStructure`: writes a multi-unit structure as one block of PDB-format text per unit
    (ATOM/HETATM, ANISOU, HELIX, SHEET and CONECT records of the wwPDB PDB format v3.3),
    each under a unique label. */
module SplitStructure {
  import opened Common
  import opened JsUtils
  import opened StructureModel

  // ====================================================================
  // Atom names: the four-slot packer `atomIdPad`
  // ====================================================================

  predicate IsDigit(c: char) { '0' <= c <= '9' }

  predicate IsLetter(c: char) { 'a' <= c <= 'z' || 'A' <= c <= 'Z' }

  /** The digits of `s`, in order. */
  function Digits(s: string): (r: seq<char>)
    ensures forall k :: 0 <= k < |r| ==> IsDigit(r[k])
    ensures |r| <= |s|
  {
    if |s| == 0 then []
    else Digits(s[..|s| - 1]) + (if IsDigit(s[|s| - 1]) then [s[|s| - 1]] else [])
  }

  /** The ASCII letters of `s`, in order. */
  function Letters(s: string): (r: seq<char>)
    ensures forall k :: 0 <= k < |r| ==> IsLetter(r[k])
    ensures |r| <= |s|
  {
    if |s| == 0 then []
    else Letters(s[..|s| - 1]) + (if IsLetter(s[|s| - 1]) then [s[|s| - 1]] else [])
  }

  /** The 4-character atom name field: slot 1 the first digit, slot 2 the first letter, slot 3
      the last later letter or else the last later digit, slot 4 the last later digit when
      slot 3 holds a letter; unused slots are spaces. */
  function AtomNameField(name: string): string
  {
    var ds, ls := Digits(name), Letters(name);
    [ if |ds| > 0 then ds[0] else ' ',
      if |ls| > 0 then ls[0] else ' ',
      if |ls| > 1 then ls[|ls| - 1] else if |ds| > 1 then ds[|ds| - 1] else ' ',
      if |ls| > 1 && |ds| > 1 then ds[|ds| - 1] else ' ' ]
  }

  /** The field is four characters wide; slot 1 is blank exactly when the name has no
      letter, slot 0 exactly when it has no digit, and slot 3 is used only for a name with
      two letters and two digits. */
  lemma AtomNameFieldSlots(name: string)
    ensures var r := AtomNameField(name);
            |r| == 4 &&
            (r[1] == ' ' <==> |Letters(name)| == 0) &&
            (r[0] == ' ' <==> |Digits(name)| == 0) &&
            (r[3] != ' ' ==> |Letters(name)| >= 2 && |Digits(name)| >= 2)
  {
  }

  /** What the packer remembers after reading `s`: the first digit, the first letter, and the
      last digit and last letter seen after those. */
  predicate SlotsSoFar(s: string, num1: Option<char>, letter1: Option<char>, letter2: Option<char>, num2: Option<char>)
  {
    var ds, ls := Digits(s), Letters(s);
    num1 == (if |ds| > 0 then Some(ds[0]) else None) &&
    num2 == (if |ds| > 1 then Some(ds[|ds| - 1]) else None) &&
    letter1 == (if |ls| > 0 then Some(ls[0]) else None) &&
    letter2 == (if |ls| > 1 then Some(ls[|ls| - 1]) else None)
  }

  lemma DigitsLettersSnoc(s: string, c: char)
    ensures Digits(s + [c]) == Digits(s) + (if IsDigit(c) then [c] else [])
    ensures Letters(s + [c]) == Letters(s) + (if IsLetter(c) then [c] else [])
  {
    assert (s + [c])[..|s + [c]| - 1] == s;
  }

  /** Reading a digit: the first digit when none was seen yet, otherwise the latest later
      digit. */
  lemma DigitSnoc(s: string, c: char, num1: Option<char>, letter1: Option<char>, letter2: Option<char>, num2: Option<char>)
    requires SlotsSoFar(s, num1, letter1, letter2, num2) && IsDigit(c)
    ensures SlotsSoFar(s + [c], if num1.None? then Some(c) else num1, letter1, letter2,
                       if num1.None? then num2 else Some(c))
  {
    DigitsLettersSnoc(s, c);
  }

  /** Reading a letter: the first letter when none was seen yet, otherwise the latest later
      letter. */
  lemma LetterSnoc(s: string, c: char, num1: Option<char>, letter1: Option<char>, letter2: Option<char>, num2: Option<char>)
    requires SlotsSoFar(s, num1, letter1, letter2, num2) && IsLetter(c) && !IsDigit(c)
    ensures SlotsSoFar(s + [c], num1, if letter1.None? then Some(c) else letter1,
                       if letter1.None? then letter2 else Some(c), num2)
  {
    DigitsLettersSnoc(s, c);
  }

  /** Any other character changes nothing. */
  lemma OtherSnoc(s: string, c: char, num1: Option<char>, letter1: Option<char>, letter2: Option<char>, num2: Option<char>)
    requires SlotsSoFar(s, num1, letter1, letter2, num2) && !IsLetter(c) && !IsDigit(c)
    ensures SlotsSoFar(s + [c], num1, letter1, letter2, num2)
  {
    DigitsLettersSnoc(s, c);
  }

  /** The four characters written from what the packer remembers. */
  function FieldFromSlots(num1: Option<char>, letter1: Option<char>, letter2: Option<char>, num2: Option<char>): string
  {
    [ if num1.Some? then num1.value else ' ',
      if letter1.Some? then letter1.value else ' ',
      if letter2.Some? then letter2.value else if num2.Some? then num2.value else ' ',
      if letter2.Some? && num2.Some? then num2.value else ' ' ]
  }

  lemma SlotsMakeField(s: string, num1: Option<char>, letter1: Option<char>, letter2: Option<char>, num2: Option<char>)
    requires SlotsSoFar(s, num1, letter1, letter2, num2)
    ensures FieldFromSlots(num1, letter1, letter2, num2) == AtomNameField(s)
  {
  }

  /** The body of `atomIdPad`'s loop for one character `c` read after `s`: a digit is the
      first digit or else the latest later digit, a letter likewise. */
  method ReadChar(ghost s: string, c: char, num1: Option<char>, letter1: Option<char>, letter2: Option<char>, num2: Option<char>)
    returns (num1': Option<char>, letter1': Option<char>, letter2': Option<char>, num2': Option<char>)
    requires SlotsSoFar(s, num1, letter1, letter2, num2)
    ensures SlotsSoFar(s + [c], num1', letter1', letter2', num2')
  {
    num1', letter1', letter2', num2' := num1, letter1, letter2, num2;
    if IsDigit(c) {
      DigitSnoc(s, c, num1, letter1, letter2, num2);
      if num1.None? { num1' := Some(c); } else { num2' := Some(c); }
    } else if IsLetter(c) {
      LetterSnoc(s, c, num1, letter1, letter2, num2);
      if letter1.None? { letter1' := Some(c); } else { letter2' := Some(c); }
    } else {
      OtherSnoc(s, c, num1, letter1, letter2, num2);
    }
  }

  /** The pass of `atomIdPad` over the characters, remembering the first and last digit and
      the first and last letter. */
  method ReadSlots(input: string) returns (num1: Option<char>, letter1: Option<char>, letter2: Option<char>, num2: Option<char>)
    ensures SlotsSoFar(input, num1, letter1, letter2, num2)
  {
    num1, letter1, letter2, num2 := None, None, None, None;
    var i := 0;
    while i < |input|
      invariant 0 <= i <= |input|
      invariant SlotsSoFar(input[..i], num1, letter1, letter2, num2)
    {
      SliceNext(input, i);
      num1, letter1, letter2, num2 := ReadChar(input[..i], input[i], num1, letter1, letter2, num2);
      i := i + 1;
    }
    assert input[..i] == input;
  }

  /** The four slots of `atomIdPad` filled in a character array from what was remembered. */
  method WriteSlots(num1: Option<char>, letter1: Option<char>, letter2: Option<char>, num2: Option<char>) returns (r: string)
    ensures r == FieldFromSlots(num1, letter1, letter2, num2)
  {
    var result := new char[4];
    result[0], result[1], result[2], result[3] := ' ', ' ', ' ', ' ';
    if num1.Some? {
      result[0] := num1.value;
    }
    result[1] := if letter1.Some? then letter1.value else ' ';
    if letter2.Some? {
      result[2] := letter2.value;
      if num2.Some? {
        result[3] := num2.value;
      }
    } else {
      if num2.Some? {
        result[2] := num2.value;
      }
    }
    r := result[..];
    assert r == [result[0], result[1], result[2], result[3]];
  }

  /** `atomIdPad(input)`: one pass over the characters, then four slots filled from what it
      remembered. */
  method AtomIdPad(input: string) returns (r: string)
    ensures r == AtomNameField(input)
  {
    var num1, letter1, letter2, num2 := ReadSlots(input);
    SlotsMakeField(input, num1, letter1, letter2, num2);
    r := WriteSlots(num1, letter1, letter2, num2);
  }

  /** A two-letter name takes slots 1 and 2. */
  lemma AtomNameFieldTwoLetters()
    ensures AtomNameField("CA") == " CA "
  {
    DigitsLettersSnoc("", 'C');
    DigitsLettersSnoc("C", 'A');
    assert "C" == "" + ['C'] && "CA" == "C" + ['A'];
  }

  /** A numbered hydrogen puts its number first. */
  lemma AtomNameFieldNumberedHydrogen()
    ensures AtomNameField("HB1") == "1HB "
  {
    DigitsLettersSnoc("", 'H');
    DigitsLettersSnoc("H", 'B');
    DigitsLettersSnoc("HB", '1');
    assert "H" == "" + ['H'] && "HB" == "H" + ['B'] && "HB1" == "HB" + ['1'];
  }

  /** A one-letter name takes slot 1 alone. */
  lemma AtomNameFieldOneLetter()
    ensures AtomNameField("N") == " N  "
  {
    DigitsLettersSnoc("", 'N');
    assert "N" == "" + ['N'];
  }

  /** The characters of `s` that are digits or ASCII letters. */
  function AlphaNumeric(s: string): (r: string)
    ensures |r| <= |s|
  {
    if |s| == 0 then []
    else
      var c := s[|s| - 1];
      AlphaNumeric(s[..|s| - 1]) + (if IsDigit(c) || IsLetter(c) then [c] else [])
  }

  /** Characters that are neither digits nor letters play no part in the atom name field. */
  lemma {:induction false} AtomNameFieldIgnoresOthers(s: string)
    ensures AtomNameField(AlphaNumeric(s)) == AtomNameField(s)
  {
    DigitsLettersOfAlphaNumeric(s);
  }

  lemma {:induction false} DigitsLettersOfAlphaNumeric(s: string)
    ensures Digits(AlphaNumeric(s)) == Digits(s)
    ensures Letters(AlphaNumeric(s)) == Letters(s)
  {
    if |s| > 0 {
      var init, c := s[..|s| - 1], s[|s| - 1];
      DigitsLettersOfAlphaNumeric(init);
      var a := AlphaNumeric(init);
      if IsDigit(c) || IsLetter(c) {
        assert AlphaNumeric(s) == a + [c];
        assert (a + [c])[..|a + [c]| - 1] == a;
      } else {
        assert AlphaNumeric(s) == a;
      }
    }
  }

  // ====================================================================
  // Unit labels
  // ====================================================================

  datatype ChainGroup = ChainGroup(id: int, labelText: string)

  /** A model entity with its type (`polymer`, `water`, ...) and its chain groups. */
  datatype ModelEntity = ModelEntity(entityType: string, chainGroups: seq<ChainGroup>)

  datatype ChainInfo = ChainInfo(labelText: string, entityType: string)

  /** A chain group together with the type of its entity. */
  datatype TypedGroup = TypedGroup(entityType: string, group: ChainGroup)

  /** `label.split(' ')[0].split('_')[0]`: the chain group label cut at the first space and
      then at the first underscore. */
  function ShortChainLabel(groupLabel: string): (r: string)
    ensures r == BeforeFirst(BeforeFirst(groupLabel, ' '), '_')
    ensures ' ' !in r && '_' !in r && r <= groupLabel
  {
    var cut := BeforeFirst(groupLabel, ' ');
    var r := BeforeFirst(cut, '_');
    PrefixKeepsOut(r, cut, ' ');
    r
  }

  /** The entry `chainInfos[id]` written for one chain group. */
  function ChainInfoOf(structureLabel: string, g: TypedGroup): (r: ChainInfo)
    ensures r.entityType == g.entityType
  {
    ChainInfo(structureLabel + "_" + ShortChainLabel(g.group.labelText) + "_" + g.entityType, g.entityType)
  }

  /** The chain groups of one entity, each tagged with the entity's type. */
  function Tagged(e: ModelEntity): (r: seq<TypedGroup>)
    ensures |r| == |e.chainGroups|
    ensures forall k :: 0 <= k < |r| ==> r[k] == TypedGroup(e.entityType, e.chainGroups[k])
  {
    seq(|e.chainGroups|, k requires 0 <= k < |e.chainGroups| => TypedGroup(e.entityType, e.chainGroups[k]))
  }

  /** Every chain group of every entity, in visiting order. */
  function AllGroups(entities: seq<ModelEntity>): seq<TypedGroup>
  {
    if |entities| == 0 then []
    else AllGroups(entities[..|entities| - 1]) + Tagged(entities[|entities| - 1])
  }

  /** The map the visit builds: each group writes its id, later writes winning. */
  function InfoMap(structureLabel: string, gs: seq<TypedGroup>): map<int, ChainInfo>
  {
    if |gs| == 0 then map[]
    else InfoMap(structureLabel, gs[..|gs| - 1])[gs[|gs| - 1].group.id := ChainInfoOf(structureLabel, gs[|gs| - 1])]
  }

  function ChainInfos(structureLabel: string, entities: seq<ModelEntity>): map<int, ChainInfo>
  {
    InfoMap(structureLabel, AllGroups(entities))
  }

  /** An id has an entry exactly when some chain group has that id. */
  lemma {:induction false} InfoMapDomain(structureLabel: string, gs: seq<TypedGroup>, id: int)
    ensures id in InfoMap(structureLabel, gs) <==> exists k :: 0 <= k < |gs| && gs[k].group.id == id
  {
    if |gs| > 0 {
      var init := gs[..|gs| - 1];
      InfoMapDomain(structureLabel, init, id);
      if id !in InfoMap(structureLabel, gs) {
        forall k | 0 <= k < |gs| ensures gs[k].group.id != id {
          if k < |gs| - 1 {
            assert gs[k] == init[k];
          }
        }
      }
    }
  }

  /** The entry for an id is the one written by the last chain group with that id. */
  lemma {:induction false} InfoMapLastWins(structureLabel: string, gs: seq<TypedGroup>, k: int)
    requires 0 <= k < |gs|
    requires forall j :: k < j < |gs| ==> gs[j].group.id != gs[k].group.id
    ensures gs[k].group.id in InfoMap(structureLabel, gs)
    ensures InfoMap(structureLabel, gs)[gs[k].group.id] == ChainInfoOf(structureLabel, gs[k])
  {
    var n := |gs| - 1;
    var init, last := gs[..n], gs[n];
    var id, v := gs[k].group.id, ChainInfoOf(structureLabel, gs[k]);
    var m := InfoMap(structureLabel, init);
    assert InfoMap(structureLabel, gs) == m[last.group.id := ChainInfoOf(structureLabel, last)];
    if k < n {
      assert init[k] == gs[k];
      forall j | k < j < |init| ensures init[j].group.id != id {
        assert init[j] == gs[j];
      }
      InfoMapLastWins(structureLabel, init, k);
      MapUpdateOther(m, last.group.id, ChainInfoOf(structureLabel, last), id);
    }
  }

  lemma MapUpdateOther<K, V>(m: map<K, V>, a: K, v: V, b: K)
    requires a != b && b in m
    ensures b in m[a := v] && m[a := v][b] == m[b]
  {
  }

  lemma AllGroupsSnoc(entities: seq<ModelEntity>, e: int)
    requires 0 <= e < |entities|
    ensures AllGroups(entities[..e + 1]) == AllGroups(entities[..e]) + Tagged(entities[e])
  {
    assert entities[..e + 1][..e] == entities[..e];
  }

  lemma InfoMapSnoc(structureLabel: string, gs: seq<TypedGroup>, g: TypedGroup)
    ensures InfoMap(structureLabel, gs + [g]) == InfoMap(structureLabel, gs)[g.group.id := ChainInfoOf(structureLabel, g)]
  {
    assert (gs + [g])[..|gs|] == gs;
  }

  /** Writing an entity's next chain group extends the visit by that group. */
  lemma AddGroupNext(structureLabel: string, before: seq<TypedGroup>, entity: ModelEntity, g: int)
    requires 0 <= g < |entity.chainGroups|
    ensures var group := entity.chainGroups[g];
            InfoMap(structureLabel, before + Tagged(entity)[..g + 1]) ==
            InfoMap(structureLabel, before + Tagged(entity)[..g])[group.id := ChainInfoOf(structureLabel, TypedGroup(entity.entityType, group))]
  {
    var tagged := Tagged(entity);
    AppendNext(before, tagged, g);
    InfoMapSnoc(structureLabel, before + tagged[..g], tagged[g]);
  }

  /** The inner `forEach` over one entity's chain groups, writing each group's entry. */
  method AddEntityGroups(structureLabel: string, infos: map<int, ChainInfo>, entity: ModelEntity, ghost before: seq<TypedGroup>)
    returns (infos': map<int, ChainInfo>)
    requires infos == InfoMap(structureLabel, before)
    ensures infos' == InfoMap(structureLabel, before + Tagged(entity))
  {
    infos' := infos;
    ghost var tagged := Tagged(entity);
    assert before + tagged[..0] == before;
    var g := 0;
    while g < |entity.chainGroups|
      invariant 0 <= g <= |entity.chainGroups|
      invariant infos' == InfoMap(structureLabel, before + tagged[..g])
    {
      var group := entity.chainGroups[g];
      AddGroupNext(structureLabel, before, entity, g);
      infos' := infos'[group.id := ChainInfoOf(structureLabel, TypedGroup(entity.entityType, group))];
      g := g + 1;
    }
    assert tagged[..g] == tagged;
  }

  /** The nested `forEach` over entities and their chain groups that fills `chainInfos`. */
  method BuildChainInfos(structureLabel: string, entities: seq<ModelEntity>) returns (infos: map<int, ChainInfo>)
    ensures infos == ChainInfos(structureLabel, entities)
  {
    infos := map[];
    var e := 0;
    while e < |entities|
      invariant 0 <= e <= |entities|
      invariant infos == InfoMap(structureLabel, AllGroups(entities[..e]))
    {
      infos := AddEntityGroups(structureLabel, infos, entities[e], AllGroups(entities[..e]));
      AllGroupsSnoc(entities, e);
      e := e + 1;
    }
    assert entities[..e] == entities;
  }

  // ====================================================================
  // Fixed-column records
  // ====================================================================

  /** One field of a fixed-column record: text padded on the right (`padEnd`) or on the
      left (`padStart`) to a width, a number, or text written as it is. */
  datatype Field =
    | Left(text: string, width: nat)
    | Right(text: string, width: nat)
    | Decimal(value: int, width: nat)
    | Raw(text: string)

  /** A field as text; a number is written in decimal and padded on the left. */
  function Render(f: Field): string
  {
    match f
    case Left(t, w) => PadEnd(t, w)
    case Right(t, w) => PadStart(t, w)
    case Decimal(v, w) => PadStart(IntToString(v), w)
    case Raw(t) => t
  }

  /** Each field of a record as text. */
  function Rendered(fields: seq<Field>): (r: seq<string>)
    ensures |r| == |fields|
    ensures forall k :: 0 <= k < |r| ==> r[k] == Render(fields[k])
  {
    seq(|fields|, k requires 0 <= k < |fields| => Render(fields[k]))
  }

  /** A record's fields written one after another. */
  function RenderAll(fields: seq<Field>): string
  {
    Flatten(Rendered(fields))
  }

  // ====================================================================
  // HELIX and SHEET records
  // ====================================================================

  /** One HELIX record. The begin chain id is written in both chain columns. */
  function HelixLine(h: HelixRow): string
  {
    RenderAll(HelixFields(h))
  }

  /** The fields of a HELIX record, in column order. */
  function HelixFields(h: HelixRow): (r: seq<Field>)
    ensures |r| == 15
  {
    [ Raw("HELIX"), Right(h.helixId, 5), Right(h.helixId, 4), Right(h.begAuthCompId, 4), Raw(" "),
      Raw(h.begAuthAsymId), Right(h.begAuthSeqId, 5), Right(h.endAuthCompId, 5), Raw(" "),
      Raw(h.begAuthAsymId), Right(h.endAuthSeqId, 5), Right(h.helixClass, 3), Raw(Spaces(33)),
      Right(h.helixLength, 3), Raw("\n") ]
  }

  /** One SHEET record. The strand count column always holds `4`, and the end-chain column
      holds the end residue's label comp id. */
  function SheetLine(s: SheetRow): string
  {
    RenderAll(SheetFields(s))
  }

  /** The fields of a SHEET record, in column order. */
  function SheetFields(s: SheetRow): (r: seq<Field>)
    ensures |r| == 14
  {
    [ Raw("SHEET"), Right(s.strandId, 5), Right(s.sheetId, 4), Raw(" "), Raw("4"),
      Right(s.begAuthCompId, 4), Raw(" "), Raw(s.endLabelAsymId), Right(s.begAuthSeqId, 4),
      Right(s.endAuthCompId, 5), Raw(" "), Raw(s.endLabelCompId), Right(s.endAuthSeqId, 4), Raw("\n") ]
  }

  /** The HELIX records of all rows, in row order. */
  function HelixText(rows: seq<HelixRow>): string
  {
    if |rows| == 0 then "" else HelixText(rows[..|rows| - 1]) + HelixLine(rows[|rows| - 1])
  }

  /** The SHEET records of all rows, in row order. */
  function SheetText(rows: seq<SheetRow>): string
  {
    if |rows| == 0 then "" else SheetText(rows[..|rows| - 1]) + SheetLine(rows[|rows| - 1])
  }

  lemma HelixTextNext(rows: seq<HelixRow>, i: int)
    requires 0 <= i < |rows|
    ensures HelixText(rows[..i + 1]) == HelixText(rows[..i]) + HelixLine(rows[i])
  {
    assert rows[..i + 1][..i] == rows[..i];
  }

  lemma SheetTextNext(rows: seq<SheetRow>, i: int)
    requires 0 <= i < |rows|
    ensures SheetText(rows[..i + 1]) == SheetText(rows[..i]) + SheetLine(rows[i])
  {
    assert rows[..i + 1][..i] == rows[..i];
  }

  /** The `while (i < helixCount)` loop appending to `helixContent`. */
  method BuildHelixContent(rows: seq<HelixRow>) returns (content: string)
    ensures content == HelixText(rows)
  {
    content := "";
    var i := 0;
    while i < |rows|
      invariant 0 <= i <= |rows|
      invariant content == HelixText(rows[..i])
    {
      HelixTextNext(rows, i);
      content := content + HelixLine(rows[i]);
      i := i + 1;
    }
    assert rows[..i] == rows;
  }

  /** The `while (i < sheetCount)` loop appending to `sheetContent`. */
  method BuildSheetContent(rows: seq<SheetRow>) returns (content: string)
    ensures content == SheetText(rows)
  {
    content := "";
    var i := 0;
    while i < |rows|
      invariant 0 <= i <= |rows|
      invariant content == SheetText(rows[..i])
    {
      SheetTextNext(rows, i);
      content := content + SheetLine(rows[i]);
      i := i + 1;
    }
    assert rows[..i] == rows;
  }

  // ====================================================================
  // CONECT partners: `getIndexByParams`
  // ====================================================================

  /** The first index in `[lo, hi]` holding `x`, or -1. */
  function FirstIn<T(==)>(s: seq<T>, x: T, lo: int, hi: int): (r: int)
    requires 0 <= lo && hi < |s|
    ensures r == -1 || (lo <= r <= hi && s[r] == x)
    ensures r == -1 ==> forall i :: lo <= i <= hi ==> s[i] != x
    ensures r != -1 ==> forall i :: lo <= i < r ==> s[i] != x
    decreases hi - lo
  {
    if lo > hi then -1 else if s[lo] == x then lo else FirstIn(s, x, lo + 1, hi)
  }

  /** The last index in `[lo, hi]` holding `x`, or -1. */
  function LastIn<T(==)>(s: seq<T>, x: T, lo: int, hi: int): (r: int)
    requires lo >= 0 && hi < |s|
    ensures r == -1 || (lo <= r <= hi && s[r] == x)
    ensures r == -1 ==> forall i :: lo <= i <= hi ==> s[i] != x
    ensures r != -1 ==> forall i :: r < i <= hi ==> s[i] != x
    decreases hi - lo
  {
    if lo > hi then -1 else if s[hi] == x then hi else LastIn(s, x, lo, hi - 1)
  }

  /** The atom a bond partner names: within the span from the first to the last atom of
      chain `asymId`, the span from the first to the last atom numbered `seqId`, and within
      that the first atom named `atomId`. Absent when the chain, the number or the name is
      not found. */
  function IndexByParams(atoms: AtomSite, asymId: string, atomId: string, seqId: int): (r: Option<int>)
    requires atoms.Valid()
    ensures asymId !in atoms.authAsymId ==> r.None?
    ensures r.Some? ==> 0 <= r.value < atoms.Count() && atoms.authAtomId[r.value] == atomId
  {
    var first, last := IndexOf(atoms.authAsymId, asymId), LastIndexOf(atoms.authAsymId, asymId);
    if first == -1 || last == -1 then None
    else
      var lo := FirstIn(atoms.authSeqId, seqId, first, last);
      if lo == -1 then None
      else
        var hi := LastIn(atoms.authSeqId, seqId, lo, last);
        var i := FirstIn(atoms.authAtomId, atomId, lo, hi);
        if i == -1 then None else Some(i)
  }

  /** `[lo, hi]` runs from the first to the last atom numbered `seqId` in `[first, last]`. */
  predicate ResidueSpan(atoms: AtomSite, first: int, last: int, seqId: int, lo: int, hi: int)
    requires atoms.Valid()
  {
    0 <= first <= lo <= hi <= last < atoms.Count() &&
    atoms.authSeqId[lo] == seqId && atoms.authSeqId[hi] == seqId &&
    (forall i :: first <= i < lo ==> atoms.authSeqId[i] != seqId) &&
    (forall i :: hi < i <= last ==> atoms.authSeqId[i] != seqId)
  }

  /** What the lookup finds, and what its absence means: a found atom is the first one
      named `atomId` in the residue span of `seqId` within the chain's span; nothing is
      found when the chain is missing, the number does not occur in the chain's span, or
      no atom of the residue span has the name. */
  lemma IndexByParamsMeaning(atoms: AtomSite, asymId: string, atomId: string, seqId: int)
    requires atoms.Valid()
    ensures var r := IndexByParams(atoms, asymId, atomId, seqId);
            var first, last := IndexOf(atoms.authAsymId, asymId), LastIndexOf(atoms.authAsymId, asymId);
            r.Some? ==>
              exists lo, hi :: ResidueSpan(atoms, first, last, seqId, lo, hi) && lo <= r.value <= hi &&
                               forall i :: lo <= i < r.value ==> atoms.authAtomId[i] != atomId
    ensures var r := IndexByParams(atoms, asymId, atomId, seqId);
            var first, last := IndexOf(atoms.authAsymId, asymId), LastIndexOf(atoms.authAsymId, asymId);
            r.None? ==>
              asymId !in atoms.authAsymId ||
              (forall i :: first <= i <= last ==> atoms.authSeqId[i] != seqId) ||
              exists lo, hi :: ResidueSpan(atoms, first, last, seqId, lo, hi) &&
                               forall i :: lo <= i <= hi ==> atoms.authAtomId[i] != atomId
  {
    var first, last := IndexOf(atoms.authAsymId, asymId), LastIndexOf(atoms.authAsymId, asymId);
    if first != -1 && last != -1 {
      var lo := FirstIn(atoms.authSeqId, seqId, first, last);
      if lo != -1 {
        var hi := LastIn(atoms.authSeqId, seqId, lo, last);
        assert ResidueSpan(atoms, first, last, seqId, lo, hi);
      }
    }
  }

  /** The nested `getIndexByParams`: two indices close in on the residue from both ends of
      the chain's span, then a scan between them finds the atom name. */
  method GetIndexByParams(atoms: AtomSite, asymId: string, atomId: string, seqId: int) returns (r: Option<int>)
    requires atoms.Valid()
    ensures r == IndexByParams(atoms, asymId, atomId, seqId)
  {
    var range1, range2 := IndexOf(atoms.authAsymId, asymId), LastIndexOf(atoms.authAsymId, asymId);
    if range1 == -1 || range2 == -1 {
      return None;
    }
    var lo, hi, flag, index := range1, range2, 0, -1;
    while lo <= range2
      invariant range1 <= lo <= range2 + 1
      invariant flag == 0
      invariant FirstIn(atoms.authSeqId, seqId, range1, range2) == FirstIn(atoms.authSeqId, seqId, lo, range2)
    {
      if atoms.authSeqId[lo] == seqId {
        flag := flag + 1;
        break;
      }
      lo := lo + 1;
    }
    while hi >= lo
      invariant lo - 1 <= hi <= range2
      invariant flag <= 1
      invariant flag == 1 ==> LastIn(atoms.authSeqId, seqId, lo, range2) == LastIn(atoms.authSeqId, seqId, lo, hi)
      invariant flag == 1 ==> lo <= range2 && atoms.authSeqId[lo] == seqId
      invariant flag == 0 ==> lo == range2 + 1
    {
      if atoms.authSeqId[hi] == seqId {
        flag := flag + 1;
        break;
      }
      hi := hi - 1;
    }
    if flag != 2 {
      return None;
    }
    var i := lo;
    while i <= hi
      invariant lo <= i <= hi + 1
      invariant index == -1
      invariant FirstIn(atoms.authAtomId, atomId, lo, hi) == FirstIn(atoms.authAtomId, atomId, i, hi)
    {
      if atoms.authAtomId[i] == atomId {
        index := i;
        break;
      }
      i := i + 1;
    }
    if index == -1 {
      return None;
    }
    return Some(index);
  }

  /** Every pair joins two of the `n` atoms. */
  predicate PairsIn(pairs: seq<(int, int)>, n: int)
  {
    forall k :: 0 <= k < |pairs| ==> 0 <= pairs[k].0 < n && 0 <= pairs[k].1 < n
  }

  /** The partners `connectResult` collects: one pair per `struct_conn` row whose two
      partners both resolve, in row order. */
  function ConnPairs(atoms: AtomSite, rows: seq<ConnRow>): (r: seq<(int, int)>)
    requires atoms.Valid()
    ensures |r| <= |rows|
    ensures PairsIn(r, atoms.Count())
  {
    if |rows| == 0 then []
    else
      var prev := ConnPairs(atoms, rows[..|rows| - 1]);
      var p := PartnersOf(atoms, rows[|rows| - 1]);
      if p.Some? then prev + [p.value] else prev
  }

  /** Both partners of one row, when both resolve. */
  function PartnersOf(atoms: AtomSite, row: ConnRow): (r: Option<(int, int)>)
    requires atoms.Valid()
    ensures r.Some? ==> 0 <= r.value.0 < atoms.Count() && 0 <= r.value.1 < atoms.Count()
  {
    var p1 := IndexByParams(atoms, row.ptnr1AsymId, row.ptnr1AtomId, row.ptnr1SeqId);
    var p2 := IndexByParams(atoms, row.ptnr2AsymId, row.ptnr2AtomId, row.ptnr2SeqId);
    if p1.Some? && p2.Some? then Some((p1.value, p2.value)) else None
  }

  /** Every resolved row leaves its pair behind. */
  lemma {:induction false} ConnPairsKeepsResolved(atoms: AtomSite, rows: seq<ConnRow>, j: int)
    requires atoms.Valid() && 0 <= j < |rows|
    requires PartnersOf(atoms, rows[j]).Some?
    ensures PartnersOf(atoms, rows[j]).value in ConnPairs(atoms, rows)
  {
    var init := rows[..|rows| - 1];
    if j < |rows| - 1 {
      assert init[j] == rows[j];
      ConnPairsKeepsResolved(atoms, init, j);
    }
  }

  /** Every kept pair is the resolved pair of some row. */
  lemma {:induction false} ConnPairsOnlyResolved(atoms: AtomSite, rows: seq<ConnRow>, pair: (int, int))
    requires atoms.Valid()
    requires pair in ConnPairs(atoms, rows)
    ensures exists j :: 0 <= j < |rows| && PartnersOf(atoms, rows[j]) == Some(pair)
  {
    var init := rows[..|rows| - 1];
    if pair in ConnPairs(atoms, init) {
      ConnPairsOnlyResolved(atoms, init, pair);
      var j :| 0 <= j < |init| && PartnersOf(atoms, init[j]) == Some(pair);
      assert rows[j] == init[j];
    } else {
      assert PartnersOf(atoms, rows[|rows| - 1]) == Some(pair);
    }
  }

  lemma ConnPairsNext(atoms: AtomSite, rows: seq<ConnRow>, i: int)
    requires atoms.Valid() && 0 <= i < |rows|
    ensures var p := PartnersOf(atoms, rows[i]);
            ConnPairs(atoms, rows[..i + 1]) == ConnPairs(atoms, rows[..i]) + (if p.Some? then [p.value] else [])
  {
    assert rows[..i + 1][..i] == rows[..i];
  }

  /** The `while (i < connectCount)` loop filling `connectResult`. */
  method CollectConnectPairs(atoms: AtomSite, rows: seq<ConnRow>) returns (pairs: seq<(int, int)>)
    requires atoms.Valid()
    ensures pairs == ConnPairs(atoms, rows)
  {
    pairs := [];
    var i := 0;
    while i < |rows|
      invariant 0 <= i <= |rows|
      invariant pairs == ConnPairs(atoms, rows[..i])
    {
      ConnPairsNext(atoms, rows, i);
      var row := rows[i];
      var p1 := GetIndexByParams(atoms, row.ptnr1AsymId, row.ptnr1AtomId, row.ptnr1SeqId);
      var p2 := GetIndexByParams(atoms, row.ptnr2AsymId, row.ptnr2AtomId, row.ptnr2SeqId);
      if p1.Some? && p2.Some? {
        pairs := pairs + [(p1.value, p2.value)];
      }
      i := i + 1;
    }
    assert rows[..i] == rows;
  }

  // ====================================================================
  // ATOM/HETATM, ANISOU and CONECT records
  // ====================================================================

  /** The ATOM/HETATM record of atom `i`. */
  function AtomLine(atoms: AtomSite, i: int): string
    requires atoms.Valid() && 0 <= i < atoms.Count()
  {
    RenderAll(AtomFields(atoms, i, Raw(AtomNameField(atoms.authAtomId[i]))))
  }

  /** The fields of atom `i`'s record, in column order, with `name` as the atom name field. */
  function AtomFields(atoms: AtomSite, i: int, name: Field): (r: seq<Field>)
    requires atoms.Valid() && 0 <= i < atoms.Count()
    ensures |r| == 17
  {
    [ Left(atoms.groupPdb[i], 6), Decimal(atoms.id[i], 5), Raw(" "),
      name, Right(atoms.labelAltId[i] + atoms.authCompId[i], 4), Raw(" "),
      Raw(atoms.authAsymId[i]), Decimal(atoms.authSeqId[i], 4), Raw("    "),
      Right(atoms.cartnX[i], 8), Right(atoms.cartnY[i], 8), Right(atoms.cartnZ[i], 8), Raw(" "),
      Right(atoms.occupancy[i], 5), Right(atoms.bIso[i], 6), Raw(Spaces(11)),
      Raw(atoms.typeSymbol[i] + "  \n") ]
  }

  /** U11, U22, U33, U12, U13, U23: entries 0, 4, 8, 3, 6, 7 of the row-major matrix. */
  function AnisoComponents(u: seq<string>): (r: seq<string>)
    requires |u| == 9
    ensures |r| == 6
  {
    [u[0], u[4], u[8], u[3], u[6], u[7]]
  }

  /** An ANISOU record follows atom `i` when a U row was read for it and its six components
      are not all `0`. */
  predicate AnisoShown(s: Structure, i: int)
    requires StructureValid(s) && 0 <= i
  {
    i < |s.anisoU| && !AllZero(AnisoComponents(s.anisoU[i]))
  }

  predicate AllZero(c: seq<string>)
  {
    forall k :: 0 <= k < |c| ==> c[k] == "0"
  }

  lemma AllZeroOfSix(c: seq<string>)
    requires |c| == 6
    ensures AllZero(c) <==> c[0] == "0" && c[1] == "0" && c[2] == "0" && c[3] == "0" && c[4] == "0" && c[5] == "0"
  {
  }

  /** The ANISOU record of atom `i`: the atom name left-aligned in 3 characters and the six
      components each right-aligned in 7. */
  function AnisoLine(atoms: AtomSite, u: seq<string>, i: int): string
    requires atoms.Valid() && 0 <= i < atoms.Count() && |u| == 9
  {
    RenderAll(AnisoFields(atoms, AnisoComponents(u), i))
  }

  /** The fields of atom `i`'s ANISOU record, in column order, for the components `c`. */
  function AnisoFields(atoms: AtomSite, c: seq<string>, i: int): (r: seq<Field>)
    requires atoms.Valid() && 0 <= i < atoms.Count() && |c| == 6
    ensures |r| == 17
  {
    [ Left("ANISOU", 6), Decimal(atoms.id[i], 5), Raw("  "), Left(atoms.authAtomId[i], 3),
      Right(atoms.labelAltId[i] + atoms.authCompId[i], 4), Raw(" "), Raw(atoms.authAsymId[i]),
      Decimal(atoms.authSeqId[i], 4), Raw("  "),
      Right(c[0], 7), Right(c[1], 7), Right(c[2], 7),
      Right(c[3], 7), Right(c[4], 7), Right(c[5], 7), Raw(Spaces(7)),
      Raw(atoms.typeSymbol[i] + "  \n") ]
  }

  /** Atom `i`'s ANISOU record when shown, nothing otherwise. */
  function AnisoText(s: Structure, i: int): string
    requires StructureValid(s) && 0 <= i < s.atoms.Count()
  {
    if AnisoShown(s, i) then AnisoLine(s.atoms, s.anisoU[i], i) else ""
  }

  /** Everything written for atom `i`: its record, then its ANISOU record when shown. */
  function AtomRecords(s: Structure, i: int): string
    requires StructureValid(s) && 0 <= i < s.atoms.Count()
  {
    AtomLine(s.atoms, i) + AnisoText(s, i)
  }

  /** The records of atoms `lo .. hi - 1`, in increasing atom order. */
  function AtomsText(s: Structure, lo: int, hi: int): string
    requires StructureValid(s) && 0 <= lo && hi <= s.atoms.Count()
    decreases hi - lo
  {
    if hi <= lo then "" else AtomsText(s, lo, hi - 1) + AtomRecords(s, hi - 1)
  }

  /** One CONECT record. */
  function ConectLine(atoms: AtomSite, p: (int, int)): string
    requires atoms.Valid() && 0 <= p.0 < atoms.Count() && 0 <= p.1 < atoms.Count()
  {
    "CONECT" + PadStart(IntToString(atoms.id[p.0]), 5) + PadStart(IntToString(atoms.id[p.1]), 5) + "\n"
  }

  predicate PairWithin(p: (int, int), start: int, end: int)
  {
    start <= p.0 <= end && start <= p.1 <= end
  }

  /** The CONECT records of the pairs lying wholly in `[start, end]`, in pair order. */
  function ConectText(atoms: AtomSite, pairs: seq<(int, int)>, start: int, end: int): string
    requires atoms.Valid() && PairsIn(pairs, atoms.Count())
  {
    if |pairs| == 0 then ""
    else
      var init, p := pairs[..|pairs| - 1], pairs[|pairs| - 1];
      var prev := ConectText(atoms, init, start, end);
      if PairWithin(p, start, end) then prev + ConectLine(atoms, p) else prev
  }

  /** The CONECT text is empty exactly when no pair lies wholly in the range, which is when
      `connectContent` is left out. */
  lemma {:induction false} ConectTextEmpty(atoms: AtomSite, pairs: seq<(int, int)>, start: int, end: int)
    requires atoms.Valid() && PairsIn(pairs, atoms.Count())
    ensures ConectText(atoms, pairs, start, end) == "" <==> forall k :: 0 <= k < |pairs| ==> !PairWithin(pairs[k], start, end)
  {
    if |pairs| > 0 {
      var init := pairs[..|pairs| - 1];
      ConectTextEmpty(atoms, init, start, end);
      assert forall k :: 0 <= k < |init| ==> init[k] == pairs[k];
    }
  }

  // ====================================================================
  // Blocks
  // ====================================================================

  datatype Block = Block(labelText: string, content: string)

  /** `"oneChain"` for a single-unit structure, otherwise the blocks. */
  datatype SplitResult = OneChain | Blocks(blocks: seq<Block>)

  /** What is computed once per structure before the units are visited. */
  datatype Tables = Tables(
    infos: map<int, ChainInfo>,
    helixText: string,
    sheetText: string,
    pairs: seq<(int, int)>)

  function TablesOf(s: Structure, entities: seq<ModelEntity>): (t: Tables)
    requires StructureValid(s) && UnitsListed(s, entities)
    ensures TablesFit(s, t)
  {
    Tables(ChainInfos(s.labelText, entities), HelixText(s.helices), SheetText(s.sheets), ConnPairs(s.atoms, s.conns))
  }

  /** The engine lists every unit's chain group under its entity. */
  predicate UnitsListed(s: Structure, entities: seq<ModelEntity>)
  {
    forall k :: 0 <= k < |s.units| ==> s.units[k].chainGroupId in ChainInfos(s.labelText, entities)
  }

  /** A unit's first and last elements are atoms of the structure, in order. */
  lemma UnitSpan(s: Structure, k: int)
    requires StructureValid(s) && 0 <= k < |s.units|
    ensures var u := s.units[k];
            0 <= u.elements[0] <= u.elements[|u.elements| - 1] < s.atoms.Count()
  {
    var u := s.units[k];
    assert UnitValid(u, s.atoms.Count());
    if |u.elements| > 1 {
      assert u.elements[0] < u.elements[|u.elements| - 1];
    }
  }

  /** What leads a unit's content: all HELIX and then all SHEET records (of every chain)
      for a polymer unit, nothing for any other. */
  function UnitHead(t: Tables, u: Unit): string
    requires u.chainGroupId in t.infos
  {
    if t.infos[u.chainGroupId].entityType == "polymer" then t.helixText + t.sheetText else ""
  }

  /** The content of unit `k`: its head, then the records of its atoms from its first to its
      last element, then the CONECT records of the bonds lying in that range. */
  function UnitContent(s: Structure, t: Tables, k: int): string
    requires StructureValid(s) && 0 <= k < |s.units|
    requires s.units[k].chainGroupId in t.infos
    requires PairsIn(t.pairs, s.atoms.Count())
  {
    var u := s.units[k];
    var start, end := u.elements[0], u.elements[|u.elements| - 1];
    UnitSpan(s, k);
    UnitHead(t, u) + AtomsText(s, start, end + 1) + ConectText(s.atoms, t.pairs, start, end)
  }

  lemma PrefixOfAppend(a: string, b: string)
    ensures a <= a + b
  {
  }

  /** HELIX and SHEET text leads the content of a polymer unit; any other unit's content
      starts with its own atom records. */
  lemma UnitContentPrefix(s: Structure, t: Tables, k: int)
    requires StructureValid(s) && 0 <= k < |s.units|
    requires s.units[k].chainGroupId in t.infos
    requires PairsIn(t.pairs, s.atoms.Count())
    ensures var u := s.units[k];
            if t.infos[u.chainGroupId].entityType == "polymer" then t.helixText + t.sheetText <= UnitContent(s, t, k)
            else AtomsText(s, u.elements[0], u.elements[|u.elements| - 1] + 1) <= UnitContent(s, t, k)
  {
    var u := s.units[k];
    UnitSpan(s, k);
    var h := UnitHead(t, u);
    var a := AtomsText(s, u.elements[0], u.elements[|u.elements| - 1] + 1);
    var c := ConectText(s.atoms, t.pairs, u.elements[0], u.elements[|u.elements| - 1]);
    AppendAssoc(h, a, c);
    PrefixOfAppend(a, c);
    PrefixOfAppend(h, a + c);
  }

  /** The label each unit asks for: its chain group's `structureLabel_chain_type`. */
  function RawLabels(s: Structure, t: Tables): (r: seq<string>)
    requires forall k :: 0 <= k < |s.units| ==> s.units[k].chainGroupId in t.infos
    ensures |r| == |s.units|
    ensures forall k :: 0 <= k < |r| ==> r[k] == t.infos[s.units[k].chainGroupId].labelText
  {
    seq(|s.units|, k requires 0 <= k < |s.units| => t.infos[s.units[k].chainGroupId].labelText)
  }

  /** The labels given in unit order: each asked-for label made unique against the labels
      given before it. */
  function UniqueLabels(raw: seq<string>): (r: seq<string>)
    ensures |r| == |raw|
  {
    if |raw| == 0 then []
    else
      var prev := UniqueLabels(raw[..|raw| - 1]);
      prev + [UniqueName(prev, raw[|raw| - 1])]
  }

  lemma UniqueLabelsNext(raw: seq<string>, k: int)
    requires 0 <= k < |raw|
    ensures UniqueLabels(raw[..k + 1]) == UniqueLabels(raw[..k]) + [UniqueName(UniqueLabels(raw[..k]), raw[k])]
  {
    assert raw[..k + 1][..k] == raw[..k];
  }

  /** The labels of a prefix of the units are the prefix of the labels. */
  lemma {:induction false} UniqueLabelsPrefix(raw: seq<string>, m: int)
    requires 0 <= m <= |raw|
    ensures UniqueLabels(raw)[..m] == UniqueLabels(raw[..m])
    decreases |raw|
  {
    if m < |raw| {
      var init := raw[..|raw| - 1];
      UniqueLabelsPrefix(init, m);
      assert init[..m] == raw[..m];
      var r := UniqueLabels(raw);
      assert r[..|raw| - 1] == UniqueLabels(init);
      assert r[..m] == r[..|raw| - 1][..m];
    } else {
      assert raw[..m] == raw;
    }
  }

  /** Label `k` is the `getUniqueNameFromArr` of its asked-for label against the labels
      before it. */
  lemma UniqueLabelAt(raw: seq<string>, k: int)
    requires 0 <= k < |raw|
    ensures UniqueLabels(raw)[k] == UniqueName(UniqueLabels(raw)[..k], raw[k])
  {
    var r := UniqueLabels(raw);
    UniqueLabelsPrefix(raw, k + 1);
    UniqueLabelsPrefix(raw, k);
    UniqueLabelsNext(raw, k);
    assert r[k] == r[..k + 1][k];
    assert r[..k] == r[..k + 1][..k];
  }

  /** Label `k` is the `getUniqueNameFromArr` of its asked-for label against the labels before
      it, so it is the asked-for label itself when that is still free; no two labels are
      equal. */
  lemma UniqueLabelsShape(raw: seq<string>)
    ensures var r := UniqueLabels(raw);
            forall k :: 0 <= k < |raw| ==> r[k] == UniqueName(r[..k], raw[k])
    ensures var r := UniqueLabels(raw);
            forall k :: 0 <= k < |raw| && raw[k] !in r[..k] ==> r[k] == raw[k]
    ensures var r := UniqueLabels(raw);
            forall i, j :: 0 <= i < j < |raw| ==> r[i] != r[j]
  {
    var r := UniqueLabels(raw);
    forall k | 0 <= k < |raw|
      ensures r[k] == UniqueName(r[..k], raw[k])
    {
      UniqueLabelAt(raw, k);
    }
    forall i, j | 0 <= i < j < |raw|
      ensures r[i] != r[j]
    {
      UniqueLabelsDistinct(raw, i, j);
    }
  }

  /** Two labels at different positions differ: the later one avoids every earlier one. */
  lemma UniqueLabelsDistinct(raw: seq<string>, i: int, j: int)
    requires 0 <= i < j < |raw|
    ensures UniqueLabels(raw)[i] != UniqueLabels(raw)[j]
  {
    var r := UniqueLabels(raw);
    UniqueLabelAt(raw, j);
    assert r[i] == r[..j][i];
  }

  /** Every unit's chain group has its chain info, and every bond joins atoms of the
      structure. */
  predicate TablesFit(s: Structure, t: Tables)
  {
    (forall k :: 0 <= k < |s.units| ==> s.units[k].chainGroupId in t.infos) &&
    PairsIn(t.pairs, s.atoms.Count())
  }

  /** Unit `k`'s content, for every unit index. */
  function ContentOf(s: Structure, t: Tables): nat -> string
  {
    (k: nat) => UnitContentOr(s, t, k)
  }

  function UnitContentOr(s: Structure, t: Tables, k: nat): string
  {
    if StructureValid(s) && TablesFit(s, t) && k < |s.units| then UnitContent(s, t, k) else ""
  }

  /** The contents of units `0 .. n - 1`, in unit order. */
  function Contents(s: Structure, t: Tables, n: nat): seq<string>
    requires StructureValid(s) && TablesFit(s, t)
  {
    Tabulate(n, ContentOf(s, t))
  }

  /** The blocks pairing each label with the content at the same position. */
  function BlocksOf(labels: seq<string>, contents: seq<string>): (r: seq<Block>)
    requires |labels| == |contents|
    ensures |r| == |labels|
  {
    if |labels| == 0 then []
    else
      var n := |labels| - 1;
      BlocksOf(labels[..n], contents[..n]) + [Block(labels[n], contents[n])]
  }

  lemma BlocksOfSnoc(labels: seq<string>, contents: seq<string>, l: string, c: string)
    requires |labels| == |contents|
    ensures BlocksOf(labels + [l], contents + [c]) == BlocksOf(labels, contents) + [Block(l, c)]
  {
    assert (labels + [l])[..|labels|] == labels;
    assert (contents + [c])[..|contents|] == contents;
  }

  lemma {:induction false} BlocksOfAt(labels: seq<string>, contents: seq<string>)
    requires |labels| == |contents|
    ensures forall j :: 0 <= j < |labels| ==> BlocksOf(labels, contents)[j] == Block(labels[j], contents[j])
  {
    if |labels| > 0 {
      var n := |labels| - 1;
      BlocksOfAt(labels[..n], contents[..n]);
    }
  }

  /** `splitStructure`'s result: `"oneChain"` for a single unit, otherwise unit `k`'s block
      carries label `k` and unit `k`'s content. */
  function Split(s: Structure, entities: seq<ModelEntity>): SplitResult
    requires StructureValid(s) && UnitsListed(s, entities)
  {
    if |s.units| == 1 then OneChain
    else
      var t := TablesOf(s, entities);
      Blocks(BlocksOf(UniqueLabels(RawLabels(s, t)), Contents(s, t, |s.units|)))
  }

  /** The ATOM/HETATM record the loop body writes for atom `i`, its name packed by
      `atomIdPad`. */
  method AtomRecordLine(a: AtomSite, i: int) returns (line: string)
    requires a.Valid() && 0 <= i < a.Count()
    ensures line == AtomLine(a, i)
  {
    var name := AtomIdPad(a.authAtomId[i]);
    line := RenderAll(AtomFields(a, i, Raw(name)));
  }

  /** The ANISOU branch of the loop body for atom `i`: the record when a U row was read and
      its six components are not all `0`, nothing otherwise. */
  method AnisoRecord(s: Structure, i: int) returns (line: string)
    requires StructureValid(s) && 0 <= i < s.atoms.Count()
    ensures line == AnisoText(s, i)
  {
    line := "";
    if i < |s.anisoU| {
      var c := AnisoComponents(s.anisoU[i]);
      AllZeroOfSix(c);
      if !(c[0] == "0" && c[1] == "0" && c[2] == "0" && c[3] == "0" && c[4] == "0" && c[5] == "0") {
        line := RenderAll(AnisoFields(s.atoms, c, i));
      }
    }
  }

  /** The body of the atom loop for atom `i`. */
  method AtomRecordsAt(s: Structure, i: int) returns (records: string)
    requires StructureValid(s) && 0 <= i < s.atoms.Count()
    ensures records == AtomRecords(s, i)
  {
    var line := AtomRecordLine(s.atoms, i);
    var aniso := AnisoRecord(s, i);
    records := line + aniso;
  }

  /** Appending atom `i`'s records to a text ending in the records of atoms `lo .. i - 1`
      gives a text ending in the records of atoms `lo .. i`. */
  lemma AtomsTextNext(s: Structure, lo: int, i: int, content: string, out: string, records: string)
    requires StructureValid(s) && 0 <= lo <= i < s.atoms.Count()
    requires out == content + AtomsText(s, lo, i) && records == AtomRecords(s, i)
    ensures out + records == content + AtomsText(s, lo, i + 1)
  {
    var before := AtomsText(s, lo, i);
    assert AtomsText(s, lo, i + 1) == before + records;
    AppendAssoc(content, before, records);
  }

  /** The `while (i <= end)` loop: appends, for each atom from `start` to `end`, its record
      and, when shown, its ANISOU record. */
  method AppendAtomRecords(content: string, s: Structure, start: int, end: int) returns (out: string)
    requires StructureValid(s) && 0 <= start <= end + 1 && end < s.atoms.Count()
    ensures out == content + AtomsText(s, start, end + 1)
  {
    out := content;
    for i := start to end + 1
      invariant out == content + AtomsText(s, start, i)
    {
      var records := AtomRecordsAt(s, i);
      AtomsTextNext(s, start, i, content, out, records);
      out := out + records;
    }
  }

  /** The `connectResult.forEach` building `connectContent`. */
  method ConnectContent(atoms: AtomSite, pairs: seq<(int, int)>, start: int, end: int) returns (text: string)
    requires atoms.Valid()
    requires PairsIn(pairs, atoms.Count())
    ensures text == ConectText(atoms, pairs, start, end)
  {
    text := "";
    var i := 0;
    while i < |pairs|
      invariant 0 <= i <= |pairs|
      invariant text == ConectText(atoms, pairs[..i], start, end)
    {
      assert pairs[..i + 1][..i] == pairs[..i];
      var (p1, p2) := pairs[i];
      if p1 >= start && p1 <= end && p2 >= start && p2 <= end {
        text := text + ("CONECT" + PadStart(IntToString(atoms.id[p1]), 5) + PadStart(IntToString(atoms.id[p2]), 5) + "\n");
      }
      i := i + 1;
    }
    assert pairs[..i] == pairs;
  }

  /** The content of unit `k` as the `units.forEach` body builds it: the HELIX and SHEET text
      for a polymer, the atom loop, then the CONECT records when there are any. */
  method BuildUnitContent(s: Structure, infos: map<int, ChainInfo>, helixContent: string, sheetContent: string,
                          connectResult: seq<(int, int)>, k: int) returns (content: string)
    requires StructureValid(s) && 0 <= k < |s.units| && s.units[k].chainGroupId in infos
    requires PairsIn(connectResult, s.atoms.Count())
    ensures content == UnitContent(s, Tables(infos, helixContent, sheetContent, connectResult), k)
  {
    ghost var t := Tables(infos, helixContent, sheetContent, connectResult);
    var unit := s.units[k];
    var start, end := unit.elements[0], unit.elements[|unit.elements| - 1];
    UnitSpan(s, k);
    content := "";
    if infos[unit.chainGroupId].entityType == "polymer" {
      content := content + helixContent;
      content := content + sheetContent;
    }
    assert content == UnitHead(t, unit);
    content := AppendAtomRecords(content, s, start, end);
    var connectContent := ConnectContent(s.atoms, connectResult, start, end);
    if connectContent != "" {
      content := content + connectContent;
    } else {
      assert content == content + connectContent;
    }
  }

  /** The `units.forEach` loop: one block per unit, labelled by `getUniqueNameFromArr`
      against the labels given so far. */
  method UnitBlocks(s: Structure, infos: map<int, ChainInfo>, helixContent: string, sheetContent: string,
                    connectResult: seq<(int, int)>) returns (result: seq<Block>)
    requires StructureValid(s) && TablesFit(s, Tables(infos, helixContent, sheetContent, connectResult))
    ensures var t := Tables(infos, helixContent, sheetContent, connectResult);
            result == BlocksOf(UniqueLabels(RawLabels(s, t)), Contents(s, t, |s.units|))
  {
    ghost var t := Tables(infos, helixContent, sheetContent, connectResult);
    ghost var raw := RawLabels(s, t);
    result := [];
    var labels: seq<string> := [];
    var k := 0;
    while k < |s.units|
      invariant 0 <= k <= |s.units|
      invariant labels == UniqueLabels(raw[..k])
      invariant result == BlocksOf(labels, Contents(s, t, k))
    {
      var content := BuildUnitContent(s, infos, helixContent, sheetContent, connectResult, k);
      var labelText := GetUniqueNameFromArr(labels, infos[s.units[k].chainGroupId].labelText);
      UniqueLabelsNext(raw, k);
      BlocksOfSnoc(labels, Contents(s, t, k), labelText, content);
      result := result + [Block(labelText, content)];
      labels := labels + [labelText];
      k := k + 1;
    }
    assert raw[..k] == raw;
  }

  /** `splitStructure(structure, modelEntities, ...)`. */
  method SplitStructure(s: Structure, entities: seq<ModelEntity>) returns (r: SplitResult)
    requires StructureValid(s) && UnitsListed(s, entities)
    ensures r == Split(s, entities)
  {
    if |s.units| == 1 {
      return OneChain;
    }
    var infos := BuildChainInfos(s.labelText, entities);
    var helixContent := BuildHelixContent(s.helices);
    var sheetContent := BuildSheetContent(s.sheets);
    var connectResult := CollectConnectPairs(s.atoms, s.conns);
    assert Tables(infos, helixContent, sheetContent, connectResult) == TablesOf(s, entities);
    var blocks := UnitBlocks(s, infos, helixContent, sheetContent, connectResult);
    return Blocks(blocks);
  }

  /** `"oneChain"` exactly for a single-unit structure. */
  lemma SplitOneChain(s: Structure, entities: seq<ModelEntity>)
    requires StructureValid(s) && UnitsListed(s, entities)
    ensures Split(s, entities).OneChain? <==> |s.units| == 1
  {
  }

  /** Otherwise one block per unit, in unit order: block `k` holds unit `k`'s content and is
      labelled `structureLabel_chain_type` made unique against the earlier labels, or that
      label itself when it is still free. */
  lemma SplitBlocks(s: Structure, entities: seq<ModelEntity>, k: int)
    requires StructureValid(s) && UnitsListed(s, entities) && |s.units| != 1
    requires 0 <= k < |s.units|
    ensures var t := TablesOf(s, entities);
            var blocks := Split(s, entities).blocks;
            var labels := UniqueLabels(RawLabels(s, t));
            var asked := t.infos[s.units[k].chainGroupId].labelText;
            |blocks| == |s.units| &&
            blocks[k].content == UnitContent(s, t, k) &&
            blocks[k].labelText == UniqueName(labels[..k], asked) &&
            (asked !in labels[..k] ==> blocks[k].labelText == asked)
  {
    var t := TablesOf(s, entities);
    var raw := RawLabels(s, t);
    var labels, contents := UniqueLabels(raw), Contents(s, t, |s.units|);
    UniqueLabelAt(raw, k);
    TabulateAt(|s.units|, ContentOf(s, t), k);
    BlocksOfAt(labels, contents);
    assert Split(s, entities).blocks == BlocksOf(labels, contents);
  }

  /** No two blocks carry the same label. */
  lemma SplitLabelsDistinct(s: Structure, entities: seq<ModelEntity>, i: int, j: int)
    requires StructureValid(s) && UnitsListed(s, entities) && |s.units| != 1
    requires 0 <= i < j < |s.units|
    ensures Split(s, entities).blocks[i].labelText != Split(s, entities).blocks[j].labelText
  {
    var t := TablesOf(s, entities);
    var raw := RawLabels(s, t);
    var labels, contents := UniqueLabels(raw), Contents(s, t, |s.units|);
    UniqueLabelsDistinct(raw, i, j);
    BlocksOfAt(labels, contents);
    assert Split(s, entities).blocks == BlocksOf(labels, contents);
  }
}
