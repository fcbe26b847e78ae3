/** The binary format that the import reader reads: an encoder for modules, written from the
    WebAssembly Core Specification 2.0 (sections 5.2.2, 5.2.4, 5.3.7, 5.5.2, 5.5.5), and the
    exact set of byte strings the reader accepts. */
module WasmGrammar {
  import opened Options
  import opened Utf8
  import opened WasmImports

  // ----- The format -----

  /** An unsigned LEB128 number: every byte but the last has its top bit set. Zero padding is
      allowed, so one value has many forms. */
  predicate IsLeb(bs: seq<byte>) {
    && bs != []
    && bs[|bs| - 1] < 0x80
    && forall i :: 0 <= i < |bs| - 1 ==> bs[i] >= 0x80
  }

  function LebValue(bs: seq<byte>): nat {
    if bs == [] then 0 else bs[0] % 0x80 + 0x80 * LebValue(bs[1..])
  }

  type LebNum = bs: seq<byte> | IsLeb(bs) witness [0]

  datatype Limits = Limits(flags: LebNum, minimum: LebNum, maximum: Option<LebNum>)

  datatype Desc =
    | Func(typeIndex: LebNum)
    | Table(refType: byte, limits: Limits)
    | Memory(limits: Limits)
    | Global(globalType: seq<byte>)
    | Tag(attribute: LebNum, typeIndex: LebNum)

  datatype Name = Name(length: LebNum, text: string)

  datatype Import = Import(moduleName: Name, field: Name, desc: Desc)

  /** A section the reader skips. */
  datatype Section = Section(id: byte, size: LebNum, body: seq<byte>)

  datatype ImportSection = ImportSection(size: LebNum, count: LebNum, imports: seq<Import>)

  datatype Module = Module(before: seq<Section>, importSection: Option<ImportSection>, rest: seq<byte>)

  function EncodeLimits(l: Limits): seq<byte> {
    l.flags + (l.minimum + if l.maximum.Some? then l.maximum.value else [])
  }

  function EncodeDesc(d: Desc): seq<byte> {
    match d
    case Func(index) => index
    case Table(refType, limits) => [refType] + EncodeLimits(limits)
    case Memory(limits) => EncodeLimits(limits)
    case Global(globalType) => globalType
    case Tag(attribute, index) => attribute + index
  }

  function Kind(d: Desc): byte {
    match d
    case Func(_) => 0
    case Table(_, _) => 1
    case Memory(_) => 2
    case Global(_) => 3
    case Tag(_, _) => 4
  }

  function EncodeName(n: Name): seq<byte> {
    n.length + Encode(n.text)
  }

  function EncodeImport(i: Import): seq<byte> {
    EncodeName(i.moduleName) + (EncodeName(i.field) + ([Kind(i.desc)] + EncodeDesc(i.desc)))
  }

  function EncodeImports(imports: seq<Import>): seq<byte> {
    if imports == [] then [] else EncodeImport(imports[0]) + EncodeImports(imports[1..])
  }

  function EncodeSection(s: Section): seq<byte> {
    [s.id] + (s.size + s.body)
  }

  function EncodeImportSection(s: ImportSection): seq<byte> {
    [2] + (s.size + (s.count + EncodeImports(s.imports)))
  }

  function EncodeFrom(before: seq<Section>, importSection: Option<ImportSection>, rest: seq<byte>): seq<byte> {
    if before != [] then EncodeSection(before[0]) + EncodeFrom(before[1..], importSection, rest)
    else if importSection.Some? then EncodeImportSection(importSection.value) + rest
    else rest
  }

  function EncodeModule(m: Module): seq<byte> {
    MAGIC + VERSION + EncodeFrom(m.before, m.importSection, m.rest)
  }

  function Entry(i: Import): ImportEntry {
    ImportEntry(i.moduleName.text, i.field.text, Kind(i.desc))
  }

  function Entries(imports: seq<Import>): seq<ImportEntry> {
    seq(|imports|, i requires 0 <= i < |imports| => Entry(imports[i]))
  }

  function ModuleEntries(m: Module): seq<ImportEntry> {
    if m.importSection.Some? then Entries(m.importSection.value.imports) else []
  }

  // ----- Whole modules, and the cut ones the reader lets through as well -----

  predicate WellFormedName(n: Name) {
    LebValue(n.length) == |Encode(n.text)|
  }

  predicate WellFormedLimits(l: Limits) {
    l.maximum.Some? <==> LebValue(l.flags) % 2 == 1
  }

  /** `cut` admits a global type that the end of the file has cut off. */
  predicate AcceptedDesc(d: Desc, cut: bool) {
    match d
    case Table(_, limits) => WellFormedLimits(limits)
    case Memory(limits) => WellFormedLimits(limits)
    case Global(globalType) => |globalType| == 2 || (cut && |globalType| < 2)
    case _ => true
  }

  predicate AcceptedImport(i: Import, cut: bool) {
    WellFormedName(i.moduleName) && WellFormedName(i.field) && AcceptedDesc(i.desc, cut)
  }

  /** Only the last import may be cut. */
  predicate AcceptedImports(imports: seq<Import>, cut: bool) {
    imports != [] ==>
      AcceptedImport(imports[0], cut && |imports| == 1) && AcceptedImports(imports[1..], cut)
  }

  predicate AcceptedSection(s: Section, cut: bool) {
    s.id != 2 && (|s.body| == LebValue(s.size) || (cut && |s.body| < LebValue(s.size)))
  }

  predicate AcceptedFrom(before: seq<Section>, importSection: Option<ImportSection>, rest: seq<byte>, cut: bool) {
    if before != [] then
      && AcceptedSection(before[0], cut && |before| == 1 && importSection.None? && rest == [])
      && AcceptedFrom(before[1..], importSection, rest, cut)
    else if importSection.Some? then
      && LebValue(importSection.value.count) == |importSection.value.imports|
      && AcceptedImports(importSection.value.imports, cut && rest == [])
    else rest == []
  }

  /** Nothing is cut off. Numbers may have any length, and the import section may state any size: the
      reader looks at neither. `WasmStrict` says what the specification demands beyond this. */
  predicate WellFormed(m: Module) {
    AcceptedFrom(m.before, m.importSection, m.rest, false)
  }

  predicate Accepted(m: Module) {
    AcceptedFrom(m.before, m.importSection, m.rest, true)
  }

  // ----- Reading back what was written -----

  /** `enc` stands in `data` at `offset`. */
  predicate At(data: seq<byte>, offset: nat, enc: seq<byte>) {
    offset + |enc| <= |data| && data[offset..offset + |enc|] == enc
  }

  lemma AtSplit(data: seq<byte>, offset: nat, a: seq<byte>, b: seq<byte>)
    requires At(data, offset, a + b)
    ensures At(data, offset, a) && At(data, offset + |a|, b)
  {
    assert data[offset..offset + |a|] == (a + b)[..|a|];
    assert data[offset + |a|..offset + |a| + |b|] == (a + b)[|a|..];
  }

  lemma AtJoin(data: seq<byte>, offset: nat, a: seq<byte>, b: seq<byte>)
    requires At(data, offset, a) && At(data, offset + |a|, b)
    ensures At(data, offset, a + b)
  {
    assert data[offset..offset + |a| + |b|] == data[offset..offset + |a|] + data[offset + |a|..offset + |a| + |b|];
  }

  lemma AtByte(data: seq<byte>, offset: nat, b: byte, tail: seq<byte>)
    requires At(data, offset, [b] + tail)
    ensures offset < |data| && data[offset] == b && At(data, offset + 1, tail)
  {
    AtSplit(data, offset, [b], tail);
    assert data[offset..offset + 1][0] == data[offset];
  }

  lemma {:induction false} LebTail(bs: seq<byte>)
    requires IsLeb(bs) && |bs| > 1
    ensures IsLeb(bs[1..]) && LebValue(bs) == bs[0] % 0x80 + 0x80 * LebValue(bs[1..])
  {
    assert forall i :: 0 <= i < |bs[1..]| - 1 ==> bs[1..][i] == bs[i + 1];
  }

  lemma {:induction false} ReadsLeb(data: seq<byte>, offset: nat, bs: LebNum)
    requires At(data, offset, bs)
    ensures LebAt(data, offset) == Ok((LebValue(bs), offset + |bs|))
    decreases |bs|
  {
    assert data[offset] == bs[0];
    if |bs| == 1 {
      assert LebValue(bs) == bs[0];
    } else {
      LebTail(bs);
      AtSplit(data, offset, bs[..1], bs[1..]) by { assert bs == bs[..1] + bs[1..]; }
      ReadsLeb(data, offset + 1, bs[1..]);
    }
  }

  /** Whatever the loop reads is a LEB128 number, with this value. */
  lemma {:induction false} LebRead(data: seq<byte>, offset: nat)
    requires LebAt(data, offset).Ok?
    ensures var (value, next) := LebAt(data, offset).value;
            offset < next <= |data| && IsLeb(data[offset..next]) && LebValue(data[offset..next]) == value
    decreases |data| - offset
  {
    var (value, next) := LebAt(data, offset).value;
    if data[offset] < 0x80 {
      assert data[offset..next] == [data[offset]];
      assert LebValue([data[offset]]) == data[offset] % 0x80 + 0x80 * LebValue([]);
    } else {
      LebRead(data, offset + 1);
      var tail := data[offset + 1..next];
      var bs := data[offset..next];
      assert bs == [data[offset]] + tail;
      assert bs[1..] == tail;
    }
  }

  /** The number reader in one line: it returns `value` and stops at `next` exactly when the bytes
      from `offset` to `next` are a LEB128 form of `value`. */
  lemma LebAtIff(data: seq<byte>, offset: nat, value: nat, next: nat)
    ensures LebAt(data, offset) == Ok((value, next)) <==>
            offset < next <= |data| && IsLeb(data[offset..next]) && LebValue(data[offset..next]) == value
  {
    if LebAt(data, offset).Ok? {
      LebRead(data, offset);
    }
    if offset < next <= |data| && IsLeb(data[offset..next]) {
      ReadsLeb(data, offset, data[offset..next]);
    }
  }

  lemma ReadsName(data: seq<byte>, offset: nat, n: Name)
    requires At(data, offset, EncodeName(n)) && WellFormedName(n)
    ensures NameAt(data, offset) == Ok((n.text, offset + |EncodeName(n)|))
  {
    hide Encode, Decode, LebAt, LebValue, IsLeb;
    AtSplit(data, offset, n.length, Encode(n.text));
    ReadsLeb(data, offset, n.length);
    var start := offset + |n.length|;
    assert Slice(data, start, start + LebValue(n.length)) == Encode(n.text);
    hide At, Slice;
    DecodeIff(Encode(n.text), n.text);
  }

  lemma ReadsLimits(data: seq<byte>, offset: nat, l: Limits)
    requires At(data, offset, EncodeLimits(l)) && WellFormedLimits(l)
    ensures LimitsAt(data, offset) == Ok(offset + |EncodeLimits(l)|)
  {
    hide At, IsLeb, LebAt, LebValue;
    var maximum := if l.maximum.Some? then l.maximum.value else [];
    AtSplit(data, offset, l.flags, l.minimum + maximum);
    AtSplit(data, offset + |l.flags|, l.minimum, maximum);
    ReadsLeb(data, offset, l.flags);
    ReadsLeb(data, offset + |l.flags|, l.minimum);
    if l.maximum.Some? {
      ReadsLeb(data, offset + |l.flags| + |l.minimum|, l.maximum.value);
    }
  }

  lemma ReadsDesc(data: seq<byte>, offset: nat, d: Desc)
    requires At(data, offset, EncodeDesc(d)) && AcceptedDesc(d, false)
    ensures DescAt(data, offset, Kind(d)) == Ok(offset + |EncodeDesc(d)|)
  {
    hide At, IsLeb, LebAt, LebValue, LimitsAt, EncodeLimits, WellFormedLimits;
    match d
    case Func(index) => ReadsLeb(data, offset, index);
    case Table(refType, limits) =>
      AtByte(data, offset, refType, EncodeLimits(limits));
      ReadsLimits(data, offset + 1, limits);
    case Memory(limits) => ReadsLimits(data, offset, limits);
    case Global(_) =>
    case Tag(attribute, index) =>
      AtSplit(data, offset, attribute, index);
      ReadsLeb(data, offset, attribute);
      ReadsLeb(data, offset + |attribute|, index);
  }

  /** One import. When it is cut off by the end of the file the cursor runs past the end. */
  lemma ReadsImport(data: seq<byte>, offset: nat, i: Import, cut: bool)
    requires At(data, offset, EncodeImport(i)) && AcceptedImport(i, cut)
    ensures ImportAt(data, offset).Ok?
    ensures var (entry, next) := ImportAt(data, offset).value;
            entry == Entry(i) && (next == offset + |EncodeImport(i)| || !AcceptedImport(i, false))
  {
    hide At, IsLeb, WellFormedName, EncodeName, NameAt, DescAt, EncodeDesc, AcceptedDesc;
    var name1, name2, desc := EncodeName(i.moduleName), EncodeName(i.field), EncodeDesc(i.desc);
    var afterField := offset + |name1| + |name2|;
    AtSplit(data, offset, name1, name2 + ([Kind(i.desc)] + desc));
    AtSplit(data, offset + |name1|, name2, [Kind(i.desc)] + desc);
    AtByte(data, afterField, Kind(i.desc), desc);
    ReadsName(data, offset, i.moduleName);
    ReadsName(data, offset + |name1|, i.field);
    ReadsAnyDesc(data, afterField + 1, i.desc, cut);
    assert |EncodeImport(i)| == |name1| + |name2| + 1 + |desc|;
  }

  lemma ReadsAnyDesc(data: seq<byte>, offset: nat, d: Desc, cut: bool)
    requires At(data, offset, EncodeDesc(d)) && AcceptedDesc(d, cut)
    ensures DescAt(data, offset, Kind(d)).Ok?
    ensures DescAt(data, offset, Kind(d)).value == offset + |EncodeDesc(d)| || !AcceptedDesc(d, false)
  {
    if AcceptedDesc(d, false) {
      ReadsDesc(data, offset, d);
    }
  }

  lemma EntriesCons(imports: seq<Import>)
    ensures Entries([]) == []
    ensures imports != [] ==> Entries(imports) == [Entry(imports[0])] + Entries(imports[1..])
  {
  }

  lemma {:induction false} ReadsImports(data: seq<byte>, offset: nat, imports: seq<Import>, cut: bool)
    requires At(data, offset, EncodeImports(imports)) && AcceptedImports(imports, cut)
    ensures ImportsAt(data, offset, |imports|) == Ok(Entries(imports))
    decreases |imports|
  {
    hide At, ImportAt, EncodeImport, AcceptedImport, Entry, Entries;
    EntriesCons(imports);
    if imports != [] {
      var first, others := imports[0], imports[1..];
      AtSplit(data, offset, EncodeImport(first), EncodeImports(others));
      ReadsImport(data, offset, first, cut && |imports| == 1);
      var next := ImportAt(data, offset).value.1;
      if |imports| == 1 {
        assert others == [];
      } else {
        assert next == offset + |EncodeImport(first)|;
        ReadsImports(data, next, others, cut);
      }
      assert ImportsAt(data, next, |others|) == Ok(Entries(others));
    }
  }

  /** The header of a skipped section, and where the cursor goes from it. */
  lemma ReadsSection(data: seq<byte>, offset: nat, s: Section)
    requires At(data, offset, EncodeSection(s)) && s.id != 2
    ensures SectionsAt(data, offset) == SectionsAt(data, offset + 1 + |s.size| + LebValue(s.size))
  {
    hide At, IsLeb, LebAt, LebValue;
    AtByte(data, offset, s.id, s.size + s.body);
    AtSplit(data, offset + 1, s.size, s.body);
    ReadsLeb(data, offset + 1, s.size);
  }

  lemma ReadsImportSection(data: seq<byte>, offset: nat, s: ImportSection, cut: bool)
    requires At(data, offset, EncodeImportSection(s))
    requires LebValue(s.count) == |s.imports| && AcceptedImports(s.imports, cut)
    ensures SectionsAt(data, offset) == Ok(Entries(s.imports))
  {
    var imports := EncodeImports(s.imports);
    hide At, IsLeb, LebAt, LebValue, EncodeImports, AcceptedImports, Entries, ImportsAt;
    AtByte(data, offset, 2, s.size + (s.count + imports));
    AtSplit(data, offset + 1, s.size, s.count + imports);
    AtSplit(data, offset + 1 + |s.size|, s.count, imports);
    ReadsLeb(data, offset + 1, s.size);
    ReadsLeb(data, offset + 1 + |s.size|, s.count);
    ReadsImports(data, offset + 1 + |s.size| + |s.count|, s.imports, cut);
  }

  lemma {:induction false} ReadsSections(data: seq<byte>, offset: nat,
                                         before: seq<Section>, importSection: Option<ImportSection>, rest: seq<byte>)
    requires offset <= |data| && data[offset..] == EncodeFrom(before, importSection, rest)
    requires AcceptedFrom(before, importSection, rest, true)
    ensures SectionsAt(data, offset)
         == Ok(if importSection.Some? then Entries(importSection.value.imports) else [])
    decreases |before|
  {
    hide LebAt, LebValue, Entries, EncodeImportSection, AcceptedImports;
    if before != [] {
      var s := before[0];
      var tail := EncodeFrom(before[1..], importSection, rest);
      assert At(data, offset, EncodeSection(s) + tail);
      AtSplit(data, offset, EncodeSection(s), tail);
      ReadsSection(data, offset, s);
      var next := offset + 1 + |s.size| + LebValue(s.size);
      if |s.body| == LebValue(s.size) {
        assert data[next..] == tail;
        ReadsSections(data, next, before[1..], importSection, rest);
      } else {
        assert tail == [];
      }
    } else if importSection.Some? {
      var s := importSection.value;
      assert At(data, offset, EncodeImportSection(s) + rest);
      AtSplit(data, offset, EncodeImportSection(s), rest);
      ReadsImportSection(data, offset, s, rest == []);
    }
  }

  lemma ReadsModule(m: Module)
    requires Accepted(m)
    ensures ImportsOf(EncodeModule(m)) == Ok(ModuleEntries(m))
  {
    var data := EncodeModule(m);
    assert Slice(data, 0, 4) == MAGIC;
    assert Slice(data, 4, 8) == VERSION;
    assert data[8..] == EncodeFrom(m.before, m.importSection, m.rest);
    ReadsSections(data, 8, m.before, m.importSection, m.rest);
  }

  // ----- Nothing else is accepted -----

  lemma LebForm(data: seq<byte>, offset: nat) returns (bs: LebNum)
    requires LebAt(data, offset).Ok?
    ensures At(data, offset, bs)
    ensures LebAt(data, offset).value == (LebValue(bs), offset + |bs|)
  {
    LebRead(data, offset);
    bs := data[offset..LebAt(data, offset).value.1];
  }

  lemma NameForm(data: seq<byte>, offset: nat) returns (n: Name)
    requires NameAt(data, offset).Ok? && NameAt(data, offset).value.1 <= |data|
    ensures WellFormedName(n) && At(data, offset, EncodeName(n))
    ensures NameAt(data, offset).value == (n.text, offset + |EncodeName(n)|)
  {
    hide IsLeb, LebAt, LebValue, Encode, Decode;
    var length := LebForm(data, offset);
    var (text, next) := NameAt(data, offset).value;
    var start := offset + |length|;
    DecodeIff(data[start..next], text);
    n := Name(length, text);
    assert At(data, start, Encode(text));
    hide At, NameAt;
    AtJoin(data, offset, length, Encode(text));
  }

  lemma LimitsForm(data: seq<byte>, offset: nat) returns (l: Limits)
    requires LimitsAt(data, offset).Ok?
    ensures WellFormedLimits(l) && At(data, offset, EncodeLimits(l))
    ensures LimitsAt(data, offset).value == offset + |EncodeLimits(l)|
  {
    hide At, LebAt, LebValue, IsLeb;
    var flags := LebForm(data, offset);
    var minimum := LebForm(data, offset + |flags|);
    var next := offset + |flags| + |minimum|;
    if LebValue(flags) % 2 == 0 {
      l := Limits(flags, minimum, None);
      assert minimum + [] == minimum;
    } else {
      var maximum := LebForm(data, next);
      AtJoin(data, offset + |flags|, minimum, maximum);
      l := Limits(flags, minimum, Some(maximum));
    }
    AtJoin(data, offset, flags, minimum + if l.maximum.Some? then l.maximum.value else []);
  }

  /** `enc` stands at `offset`, and the cursor stops behind it or the file ends with it. */
  predicate EndsAt(data: seq<byte>, offset: nat, enc: seq<byte>, next: nat) {
    At(data, offset, enc) && (next == offset + |enc| || (next > |data| && offset + |enc| == |data|))
  }

  lemma EndsAtPrepend(data: seq<byte>, offset: nat, a: seq<byte>, b: seq<byte>, next: nat)
    requires At(data, offset, a) && EndsAt(data, offset + |a|, b, next)
    ensures EndsAt(data, offset, a + b, next)
  {
    AtJoin(data, offset, a, b);
  }

  lemma AtOneByte(data: seq<byte>, offset: nat)
    requires offset < |data|
    ensures At(data, offset, [data[offset]])
  {
  }

  lemma DescForm(data: seq<byte>, offset: nat, kind: byte) returns (d: Desc)
    requires offset <= |data| && DescAt(data, offset, kind).Ok?
    ensures var next := DescAt(data, offset, kind).value;
            Kind(d) == kind && AcceptedDesc(d, next > |data|) && EndsAt(data, offset, EncodeDesc(d), next)
  {
    hide IsLeb, LebAt, LebValue, LimitsAt, EncodeLimits, WellFormedLimits;
    if kind == 0 {
      var index := LebForm(data, offset);
      d := Func(index);
    } else if kind == 1 {
      var limits := LimitsForm(data, offset + 1);
      AtJoin(data, offset, [data[offset]], EncodeLimits(limits));
      d := Table(data[offset], limits);
    } else if kind == 2 {
      var limits := LimitsForm(data, offset);
      d := Memory(limits);
    } else if kind == 3 {
      d := Global(Slice(data, offset, offset + 2));
    } else {
      var attribute := LebForm(data, offset);
      var index := LebForm(data, offset + |attribute|);
      AtJoin(data, offset, attribute, index);
      d := Tag(attribute, index);
    }
  }

  lemma NameNeedsByte(data: seq<byte>, offset: nat)
    requires NameAt(data, offset).Ok?
    ensures offset < |data|
  {
  }

  lemma ImportForm(data: seq<byte>, offset: nat) returns (i: Import)
    requires ImportAt(data, offset).Ok?
    ensures var (entry, next) := ImportAt(data, offset).value;
            entry == Entry(i) && AcceptedImport(i, next > |data|) && EndsAt(data, offset, EncodeImport(i), next)
  {
    hide At, NameAt, DescAt, WellFormedName, EncodeName, EncodeDesc, AcceptedDesc, EndsAt;
    var afterModule := NameAt(data, offset).value.1;
    NameNeedsByte(data, afterModule);
    var moduleName := NameForm(data, offset);
    var field := NameForm(data, afterModule);
    var afterField := afterModule + |EncodeName(field)|;
    var kind := data[afterField];
    var desc := DescForm(data, afterField + 1, kind);
    i := Import(moduleName, field, desc);
    AtOneByte(data, afterField);
    var enc := EncodeDesc(desc);
    EndsAtPrepend(data, afterField, [kind], enc, DescAt(data, afterField + 1, kind).value);
    EndsAtPrepend(data, afterModule, EncodeName(field), [kind] + enc, ImportAt(data, offset).value.1);
    EndsAtPrepend(data, offset, EncodeName(moduleName), EncodeName(field) + ([kind] + enc),
                  ImportAt(data, offset).value.1);
  }

  lemma AtNothing(data: seq<byte>, offset: nat)
    requires offset <= |data|
    ensures At(data, offset, [])
  {
  }

  lemma CutIsLaxer(i: Import, next: nat, end: nat)
    requires AcceptedImport(i, next > end)
    ensures AcceptedImport(i, next >= end)
  {
  }

  lemma {:induction false} ImportsForm(data: seq<byte>, offset: nat, count: nat) returns (imports: seq<Import>)
    requires offset <= |data| && ImportsAt(data, offset, count).Ok?
    ensures |imports| == count && ImportsAt(data, offset, count) == Ok(Entries(imports))
    ensures At(data, offset, EncodeImports(imports))
    ensures AcceptedImports(imports, offset + |EncodeImports(imports)| == |data|)
    decreases count
  {
    hide At, ImportAt, EncodeImport, AcceptedImport, Entry, Entries;
    if count == 0 {
      imports := [];
      EntriesCons(imports);
      AtNothing(data, offset);
    } else {
      var next := ImportAt(data, offset).value.1;
      var first := ImportForm(data, offset);
      var end := offset + |EncodeImport(first)|;
      AtInside(data, offset, EncodeImport(first));
      var others: seq<Import> := [];
      if count == 1 {
        CutIsLaxer(first, next, |data|);
        AtNothing(data, end);
        EntriesCons([]);
      } else {
        ImportsNeedByte(data, next, count - 1);
        others := ImportsForm(data, next, count - 1);
      }
      imports := [first] + others;
      assert imports[1..] == others;
      EntriesCons(imports);
      AtJoin(data, offset, EncodeImport(first), EncodeImports(others));
    }
  }

  lemma ImportsNeedByte(data: seq<byte>, offset: nat, count: nat)
    requires count > 0 && ImportsAt(data, offset, count).Ok?
    ensures offset < |data|
  {
    NameNeedsByte(data, offset);
  }

  lemma AtInside(data: seq<byte>, offset: nat, enc: seq<byte>)
    requires At(data, offset, enc)
    ensures offset + |enc| <= |data|
  {
  }

  lemma AtByteJoin(data: seq<byte>, offset: nat, tail: seq<byte>)
    requires offset < |data| && At(data, offset + 1, tail)
    ensures At(data, offset, [data[offset]] + tail)
  {
    assert At(data, offset, [data[offset]]);
    AtJoin(data, offset, [data[offset]], tail);
  }

  /** A section header read without looking into the numbers. */
  lemma SectionHeader(data: seq<byte>, offset: nat)
    requires offset < |data| && SectionsAt(data, offset).Ok?
    ensures LebAt(data, offset + 1).Ok?
    ensures var (size, start) := LebAt(data, offset + 1).value;
            if data[offset] == 2 then
              && LebAt(data, start).Ok?
              && SectionsAt(data, offset) == ImportsAt(data, LebAt(data, start).value.1, LebAt(data, start).value.0)
            else SectionsAt(data, offset) == SectionsAt(data, start + size)
  {
  }

  lemma ImportSectionForm(data: seq<byte>, offset: nat) returns (s: ImportSection)
    requires offset < |data| && data[offset] == 2 && SectionsAt(data, offset).Ok?
    ensures At(data, offset, EncodeImportSection(s)) && LebValue(s.count) == |s.imports|
    ensures AcceptedImports(s.imports, offset + |EncodeImportSection(s)| == |data|)
    ensures SectionsAt(data, offset) == Ok(Entries(s.imports))
  {
    hide At, IsLeb, LebAt, LebValue, SectionsAt, ImportsAt, EncodeImports, AcceptedImports, Entries;
    SectionHeader(data, offset);
    var size := LebForm(data, offset + 1);
    var start := offset + 1 + |size|;
    var count := LebForm(data, start);
    AtInside(data, start, count);
    var imports := ImportsForm(data, start + |count|, LebValue(count));
    s := ImportSection(size, count, imports);
    AtJoin(data, start, count, EncodeImports(imports));
    AtJoin(data, offset + 1, size, count + EncodeImports(imports));
    AtByteJoin(data, offset, size + (count + EncodeImports(imports)));
    assert |EncodeImportSection(s)| == 1 + |size| + |count| + |EncodeImports(imports)|;
  }

  lemma SectionForm(data: seq<byte>, offset: nat) returns (s: Section)
    requires offset < |data| && data[offset] != 2 && SectionsAt(data, offset).Ok?
    ensures At(data, offset, EncodeSection(s))
    ensures AcceptedSection(s, offset + |EncodeSection(s)| == |data|)
    ensures |s.body| < LebValue(s.size) ==> offset + |EncodeSection(s)| == |data|
    ensures SectionsAt(data, offset) == SectionsAt(data, offset + 1 + |s.size| + LebValue(s.size))
  {
    hide IsLeb, LebAt, LebValue, SectionsAt;
    SectionHeader(data, offset);
    var size := LebForm(data, offset + 1);
    var start := offset + 1 + |size|;
    AtInside(data, offset + 1, size);
    s := Section(data[offset], size, Slice(data, start, start + LebValue(size)));
    SliceStands(data, start, LebValue(size));
    hide At, Slice;
    AtJoin(data, offset + 1, size, s.body);
    AtByteJoin(data, offset, size + s.body);
    assert |EncodeSection(s)| == 1 + |size| + |s.body|;
  }

  lemma SliceStands(data: seq<byte>, start: nat, length: nat)
    requires start <= |data|
    ensures var body := Slice(data, start, start + length);
            At(data, start, body) && (|body| == length || (|body| < length && start + |body| == |data|))
  {
  }

  lemma {:induction false} SectionsForm(data: seq<byte>, offset: nat)
    returns (before: seq<Section>, importSection: Option<ImportSection>, rest: seq<byte>)
    requires offset <= |data| && SectionsAt(data, offset).Ok?
    ensures data[offset..] == EncodeFrom(before, importSection, rest)
    ensures AcceptedFrom(before, importSection, rest, true)
    ensures SectionsAt(data, offset)
         == Ok(if importSection.Some? then Entries(importSection.value.imports) else [])
    decreases |data| - offset
  {
    hide LebAt, LebValue, IsLeb, EncodeImportSection, AcceptedImports, Entries, ImportsAt;
    before, importSection, rest := [], None, [];
    if offset < |data| {
      if data[offset] == 2 {
        var s := ImportSectionForm(data, offset);
        importSection, rest := Some(s), data[offset + |EncodeImportSection(s)|..];
        assert data[offset..] == EncodeImportSection(s) + rest;
      } else {
        var s := SectionForm(data, offset);
        var next := offset + |EncodeSection(s)|;
        var others: seq<Section> := [];
        if |s.body| == LebValue(s.size) {
          others, importSection, rest := SectionsForm(data, next);
        }
        before := [s] + others;
        assert before[1..] == others;
        assert data[offset..] == EncodeSection(s) + data[next..];
      }
    }
  }

  /** The reader, end to end: it returns `entries` on exactly the encodings of accepted modules
      with those imports, in order, and raises on every other byte string. */
  lemma ImportsOfIff(data: seq<byte>, entries: seq<ImportEntry>)
    ensures ImportsOf(data) == Ok(entries) <==>
            exists m :: Accepted(m) && data == EncodeModule(m) && entries == ModuleEntries(m)
  {
    if ImportsOf(data) == Ok(entries) {
      var before, importSection, rest := SectionsForm(data, 8);
      var m := Module(before, importSection, rest);
      assert data == data[..4] + data[4..8] + data[8..];
      assert data == EncodeModule(m) && entries == ModuleEntries(m);
    }
    forall m | Accepted(m) && data == EncodeModule(m) && entries == ModuleEntries(m)
      ensures ImportsOf(data) == Ok(entries)
    {
      ReadsModule(m);
    }
  }

  lemma {:induction false} StrictImports(imports: seq<Import>)
    requires AcceptedImports(imports, false)
    ensures AcceptedImports(imports, true)
  {
    if imports != [] {
      StrictImports(imports[1..]);
    }
  }

  lemma {:induction false} StrictFrom(before: seq<Section>, importSection: Option<ImportSection>, rest: seq<byte>)
    requires AcceptedFrom(before, importSection, rest, false)
    ensures AcceptedFrom(before, importSection, rest, true)
    decreases |before|
  {
    if before != [] {
      StrictFrom(before[1..], importSection, rest);
    } else if importSection.Some? && rest == [] {
      StrictImports(importSection.value.imports);
    }
  }

  /** Round trip on all modules that are not cut, those of the specification among them. */
  lemma ReadsWellFormed(m: Module)
    requires WellFormed(m)
    ensures ImportsOf(EncodeModule(m)) == Ok(ModuleEntries(m))
  {
    StrictFrom(m.before, m.importSection, m.rest);
    ReadsModule(m);
  }

  lemma CutFileNotWellFormed(m: Module)
    requires WellFormed(m)
    ensures EncodeModule(m) != MAGIC + VERSION + [0, 5]
  {
    var data := EncodeModule(m);
    assert data[8..] == EncodeFrom(m.before, m.importSection, m.rest);
    if m.before != [] {
      var s := m.before[0];
      assert EncodeFrom(m.before, m.importSection, m.rest)[1..1 + |s.size|] == s.size;
      assert data[9..9 + |s.size|] == s.size;
      assert s.size == [5] ==> LebValue(s.size) == 5 + 0x80 * LebValue([]);
    } else if m.importSection.Some? {
      assert data[8] == 2;
    }
  }

  /** The reader is laxer than the format: a file cut off inside a skipped section reads as a
      module without imports. */
  lemma CutFileAccepted()
    ensures var data := MAGIC + VERSION + [0, 5];
            ImportsOf(data) == Ok([]) && forall m | WellFormed(m) :: EncodeModule(m) != data
  {
    var data := MAGIC + VERSION + [0, 5];
    var cut := Module([Section(0, [5], [])], None, []);
    assert LebValue([5]) == 5 + 0x80 * LebValue([]);
    assert cut.before[1..] == [];
    assert EncodeFrom(cut.before, None, []) == [0, 5];
    assert EncodeModule(cut) == data;
    ReadsModule(cut);
    forall m | WellFormed(m) ensures EncodeModule(m) != data {
      CutFileNotWellFormed(m);
    }
  }
}
