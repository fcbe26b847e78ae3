/** How far the reader of import sections is from the format: every file it accepts has one structure
    only, and it belongs to a module of the WebAssembly Core Specification 2.0, as far as the framing of
    sections and the import section go, exactly when five conditions on that structure hold. */
module WasmStrict {
  import opened Options
  import opened Utf8
  import opened WasmImports
  import opened WasmGrammar

  // ----- One structure for each accepted file -----

  lemma LebUnique(data: seq<byte>, offset: nat, a: LebNum, b: LebNum)
    requires At(data, offset, a) && At(data, offset, b)
    ensures a == b
  {
    ReadsLeb(data, offset, a);
    ReadsLeb(data, offset, b);
  }

  lemma NameUnique(data: seq<byte>, offset: nat, a: Name, b: Name)
    requires At(data, offset, EncodeName(a)) && At(data, offset, EncodeName(b))
    requires WellFormedName(a) && WellFormedName(b)
    ensures a == b
  {
    hide IsLeb, LebAt, LebValue, Encode, Decode, At;
    ReadsName(data, offset, a);
    ReadsName(data, offset, b);
    AtSplit(data, offset, a.length, Encode(a.text));
    AtSplit(data, offset, b.length, Encode(b.text));
    LebUnique(data, offset, a.length, b.length);
  }

  function Maximum(l: Limits): seq<byte> {
    if l.maximum.Some? then l.maximum.value else []
  }

  lemma LimitsParts(data: seq<byte>, offset: nat, l: Limits)
    requires At(data, offset, EncodeLimits(l))
    ensures At(data, offset, l.flags) && At(data, offset + |l.flags|, l.minimum)
    ensures At(data, offset + |l.flags| + |l.minimum|, Maximum(l))
  {
    AtSplit(data, offset, l.flags, l.minimum + Maximum(l));
    hide At;
    AtSplit(data, offset + |l.flags|, l.minimum, Maximum(l));
  }

  lemma LimitsUnique(data: seq<byte>, offset: nat, a: Limits, b: Limits)
    requires At(data, offset, EncodeLimits(a)) && At(data, offset, EncodeLimits(b))
    requires WellFormedLimits(a) && WellFormedLimits(b)
    ensures a == b
  {
    hide IsLeb, LebValue, At, EncodeLimits;
    LimitsParts(data, offset, a);
    LimitsParts(data, offset, b);
    LebUnique(data, offset, a.flags, b.flags);
    LebUnique(data, offset + |a.flags|, a.minimum, b.minimum);
    if a.maximum.Some? {
      LebUnique(data, offset + |a.flags| + |a.minimum|, a.maximum.value, b.maximum.value);
    }
  }

  /** A descriptor that is cut stands at the end of the file. */
  predicate CutAtEnd(data: seq<byte>, offset: nat, d: Desc) {
    AcceptedDesc(d, true) && (AcceptedDesc(d, false) || offset + |EncodeDesc(d)| == |data|)
  }

  lemma GlobalUnique(data: seq<byte>, offset: nat, a: Desc, b: Desc)
    requires a.Global? && b.Global?
    requires At(data, offset, EncodeDesc(a)) && At(data, offset, EncodeDesc(b))
    requires CutAtEnd(data, offset, a) && CutAtEnd(data, offset, b)
    ensures a == b
  {
    assert |a.globalType| == |b.globalType|;
  }

  lemma DescUnique(data: seq<byte>, offset: nat, a: Desc, b: Desc)
    requires At(data, offset, EncodeDesc(a)) && At(data, offset, EncodeDesc(b)) && Kind(a) == Kind(b)
    requires CutAtEnd(data, offset, a) && CutAtEnd(data, offset, b)
    ensures a == b
  {
    hide IsLeb, LebAt, LebValue, At, EncodeLimits, WellFormedLimits;
    match a
    case Func(index) => LebUnique(data, offset, index, b.typeIndex);
    case Table(refType, limits) =>
      AtByte(data, offset, refType, EncodeLimits(limits));
      AtByte(data, offset, b.refType, EncodeLimits(b.limits));
      LimitsUnique(data, offset + 1, limits, b.limits);
    case Memory(limits) => LimitsUnique(data, offset, limits, b.limits);
    case Global(_) => GlobalUnique(data, offset, a, b);
    case Tag(attribute, index) =>
      AtSplit(data, offset, attribute, index);
      AtSplit(data, offset, b.attribute, b.typeIndex);
      LebUnique(data, offset, attribute, b.attribute);
      LebUnique(data, offset + |attribute|, index, b.typeIndex);
  }

  predicate ImportCutAtEnd(data: seq<byte>, offset: nat, i: Import) {
    AcceptedImport(i, true) && (AcceptedImport(i, false) || offset + |EncodeImport(i)| == |data|)
  }

  lemma ImportUnique(data: seq<byte>, offset: nat, a: Import, b: Import)
    requires At(data, offset, EncodeImport(a)) && At(data, offset, EncodeImport(b))
    requires ImportCutAtEnd(data, offset, a) && ImportCutAtEnd(data, offset, b)
    ensures a == b
  {
    hide At, IsLeb, WellFormedName, EncodeName, EncodeDesc, AcceptedDesc;
    var nameA, descA := EncodeName(a.moduleName), [Kind(a.desc)] + EncodeDesc(a.desc);
    var nameB, descB := EncodeName(b.moduleName), [Kind(b.desc)] + EncodeDesc(b.desc);
    AtSplit(data, offset, nameA, EncodeName(a.field) + descA);
    AtSplit(data, offset, nameB, EncodeName(b.field) + descB);
    NameUnique(data, offset, a.moduleName, b.moduleName);
    var second := offset + |nameA|;
    AtSplit(data, second, EncodeName(a.field), descA);
    AtSplit(data, second, EncodeName(b.field), descB);
    NameUnique(data, second, a.field, b.field);
    var third := second + |EncodeName(a.field)|;
    AtByte(data, third, Kind(a.desc), EncodeDesc(a.desc));
    AtByte(data, third, Kind(b.desc), EncodeDesc(b.desc));
    assert offset + |EncodeImport(a)| == third + 1 + |EncodeDesc(a.desc)|;
    assert offset + |EncodeImport(b)| == third + 1 + |EncodeDesc(b.desc)|;
    DescUnique(data, third + 1, a.desc, b.desc);
  }

  lemma {:induction false} ImportsUnique(data: seq<byte>, offset: nat, a: seq<Import>, b: seq<Import>)
    requires At(data, offset, EncodeImports(a)) && At(data, offset, EncodeImports(b)) && |a| == |b|
    requires AcceptedImports(a, offset + |EncodeImports(a)| == |data|)
    requires AcceptedImports(b, offset + |EncodeImports(b)| == |data|)
    ensures a == b
    decreases |a|
  {
    hide At, EncodeImport, AcceptedImport;
    if a != [] {
      AtSplit(data, offset, EncodeImport(a[0]), EncodeImports(a[1..]));
      AtSplit(data, offset, EncodeImport(b[0]), EncodeImports(b[1..]));
      FirstCutAtEnd(data, offset, a);
      FirstCutAtEnd(data, offset, b);
      ImportUnique(data, offset, a[0], b[0]);
      ImportsUnique(data, offset + |EncodeImport(a[0])|, a[1..], b[1..]);
    }
  }

  lemma UncutIsAccepted(i: Import)
    requires AcceptedImport(i, false)
    ensures AcceptedImport(i, true)
  {
  }

  lemma FirstCutAtEnd(data: seq<byte>, offset: nat, a: seq<Import>)
    requires a != [] && AcceptedImports(a, offset + |EncodeImports(a)| == |data|)
    ensures ImportCutAtEnd(data, offset, a[0])
  {
    if AcceptedImport(a[0], false) {
      UncutIsAccepted(a[0]);
    }
    hide AcceptedImport, EncodeImport;
    if |a| == 1 {
      assert EncodeImports(a[1..]) == [];
      assert EncodeImports(a) == EncodeImport(a[0]) + [];
    }
  }

  lemma SectionUnique(data: seq<byte>, offset: nat, a: Section, b: Section)
    requires At(data, offset, EncodeSection(a)) && At(data, offset, EncodeSection(b))
    requires AcceptedSection(a, offset + |EncodeSection(a)| == |data|)
    requires AcceptedSection(b, offset + |EncodeSection(b)| == |data|)
    ensures a == b
  {
    hide IsLeb, LebValue, At;
    AtByte(data, offset, a.id, a.size + a.body);
    AtByte(data, offset, b.id, b.size + b.body);
    AtSplit(data, offset + 1, a.size, a.body);
    AtSplit(data, offset + 1, b.size, b.body);
    LebUnique(data, offset + 1, a.size, b.size);
    SameBody(data, offset + 1 + |a.size|, a.body, b.body);
  }

  lemma SameBody(data: seq<byte>, offset: nat, a: seq<byte>, b: seq<byte>)
    requires At(data, offset, a) && At(data, offset, b)
    ensures |a| == |b| ==> a == b
    ensures |a| <= |b| || offset + |b| < |data|
    ensures |b| <= |a| || offset + |a| < |data|
  {
  }

  lemma ImportSectionParts(data: seq<byte>, offset: nat, s: ImportSection)
    requires At(data, offset, EncodeImportSection(s))
    ensures At(data, offset + 1, s.size) && At(data, offset + 1 + |s.size|, s.count)
    ensures At(data, offset + 1 + |s.size| + |s.count|, EncodeImports(s.imports))
    ensures |EncodeImportSection(s)| == 1 + |s.size| + |s.count| + |EncodeImports(s.imports)|
  {
    var imports := EncodeImports(s.imports);
    hide At, IsLeb, EncodeImports;
    AtByte(data, offset, 2, s.size + (s.count + imports));
    AtSplit(data, offset + 1, s.size, s.count + imports);
    AtSplit(data, offset + 1 + |s.size|, s.count, imports);
  }

  lemma ImportSectionUnique(data: seq<byte>, offset: nat, a: ImportSection, b: ImportSection)
    requires At(data, offset, EncodeImportSection(a)) && At(data, offset, EncodeImportSection(b))
    requires LebValue(a.count) == |a.imports| && LebValue(b.count) == |b.imports|
    requires AcceptedImports(a.imports, offset + |EncodeImportSection(a)| == |data|)
    requires AcceptedImports(b.imports, offset + |EncodeImportSection(b)| == |data|)
    ensures a == b
  {
    hide At, IsLeb, LebValue, EncodeImports, EncodeImportSection, AcceptedImports;
    ImportSectionParts(data, offset, a);
    ImportSectionParts(data, offset, b);
    LebUnique(data, offset + 1, a.size, b.size);
    LebUnique(data, offset + 1 + |a.size|, a.count, b.count);
    ImportsUnique(data, offset + 1 + |a.size| + |a.count|, a.imports, b.imports);
  }

  /** The structure behind one offset, as a tail of a module. */
  datatype Tail = Tail(before: seq<Section>, importSection: Option<ImportSection>, rest: seq<byte>)

  predicate TailAt(data: seq<byte>, offset: nat, t: Tail) {
    && offset <= |data| && data[offset..] == EncodeFrom(t.before, t.importSection, t.rest)
    && AcceptedFrom(t.before, t.importSection, t.rest, true)
  }

  lemma HeadSection(data: seq<byte>, offset: nat, t: Tail)
    requires TailAt(data, offset, t) && t.before != []
    ensures At(data, offset, EncodeSection(t.before[0])) && offset < |data| && data[offset] == t.before[0].id != 2
    ensures AcceptedSection(t.before[0], offset + |EncodeSection(t.before[0])| == |data|)
    ensures TailAt(data, offset + |EncodeSection(t.before[0])|, t.(before := t.before[1..]))
  {
    hide LebValue, EncodeImportSection, AcceptedImports;
    var s, tail := t.before[0], EncodeFrom(t.before[1..], t.importSection, t.rest);
    assert At(data, offset, EncodeSection(s) + tail);
    AtSplit(data, offset, EncodeSection(s), tail);
    AtByte(data, offset, s.id, s.size + s.body);
    assert data[offset + |EncodeSection(s)|..] == tail;
    if |t.before| == 1 && t.importSection.None? && t.rest == [] {
      assert tail == [];
    }
  }

  lemma HeadImportSection(data: seq<byte>, offset: nat, t: Tail)
    requires TailAt(data, offset, t) && t.before == [] && t.importSection.Some?
    ensures var s := t.importSection.value;
            && At(data, offset, EncodeImportSection(s)) && offset < |data| && data[offset] == 2
            && LebValue(s.count) == |s.imports|
            && AcceptedImports(s.imports, offset + |EncodeImportSection(s)| == |data|)
            && t.rest == data[offset + |EncodeImportSection(s)|..]
  {
    hide LebValue, EncodeImports, AcceptedImports;
    var s := t.importSection.value;
    assert At(data, offset, EncodeImportSection(s) + t.rest);
    AtSplit(data, offset, EncodeImportSection(s), t.rest);
    AtByte(data, offset, 2, s.size + (s.count + EncodeImports(s.imports)));
  }

  lemma {:induction false} TailUnique(data: seq<byte>, offset: nat, a: Tail, b: Tail)
    requires TailAt(data, offset, a) && TailAt(data, offset, b)
    ensures a == b
    decreases |a.before|
  {
    hide AcceptedSection, AcceptedImports, EncodeSection, EncodeImportSection, At, LebValue;
    if a.before != [] {
      HeadSection(data, offset, a);
      if b.before != [] {
        HeadSection(data, offset, b);
        SectionUnique(data, offset, a.before[0], b.before[0]);
        TailUnique(data, offset + |EncodeSection(a.before[0])|,
                   a.(before := a.before[1..]), b.(before := b.before[1..]));
      } else if b.importSection.Some? {
        HeadImportSection(data, offset, b);
      } else {
        NothingLeft(data, offset, b);
      }
    } else if b.before != [] {
      HeadSection(data, offset, b);
      if a.importSection.Some? {
        HeadImportSection(data, offset, a);
      } else {
        NothingLeft(data, offset, a);
      }
    } else {
      if a.importSection.Some? {
        HeadImportSection(data, offset, a);
      } else {
        NothingLeft(data, offset, a);
      }
      if b.importSection.Some? {
        HeadImportSection(data, offset, b);
      } else {
        NothingLeft(data, offset, b);
      }
      if a.importSection.Some? && b.importSection.Some? {
        ImportSectionUnique(data, offset, a.importSection.value, b.importSection.value);
      }
    }
  }

  lemma NothingLeft(data: seq<byte>, offset: nat, t: Tail)
    requires TailAt(data, offset, t) && t.before == [] && t.importSection.None?
    ensures offset == |data| && t.rest == []
  {
  }

  /** A file that the reader accepts has one structure only. */
  lemma AcceptedUnique(a: Module, b: Module)
    requires Accepted(a) && Accepted(b) && EncodeModule(a) == EncodeModule(b)
    ensures a == b
  {
    var data := EncodeModule(a);
    assert data[8..] == EncodeFrom(a.before, a.importSection, a.rest) == EncodeFrom(b.before, b.importSection, b.rest);
    TailUnique(data, 8, Tail(a.before, a.importSection, a.rest), Tail(b.before, b.importSection, b.rest));
  }

  // ----- The five conditions -----

  /** Section 5.2.2: a u32 takes at most five bytes. */
  predicate U32(bs: LebNum) {
    |bs| <= 5 && LebValue(bs) < 0x1_0000_0000
  }

  predicate NumbersOfDesc(d: Desc) {
    match d
    case Func(index) => U32(index)
    case Table(_, limits) => NumbersOfLimits(limits)
    case Memory(limits) => NumbersOfLimits(limits)
    case Global(_) => true
    case Tag(attribute, index) => U32(attribute) && U32(index)
  }

  predicate NumbersOfLimits(l: Limits) {
    U32(l.flags) && U32(l.minimum) && (l.maximum.Some? ==> U32(l.maximum.value))
  }

  /** Every number is a u32. */
  predicate NumbersOk(m: Module) {
    && (forall i :: 0 <= i < |m.before| ==> U32(m.before[i].size))
    && (m.importSection.Some? ==>
          var s := m.importSection.value;
          && U32(s.size) && U32(s.count)
          && forall i :: 0 <= i < |s.imports| ==>
               && U32(s.imports[i].moduleName.length) && U32(s.imports[i].field.length)
               && NumbersOfDesc(s.imports[i].desc))
  }

  /** The import section is as long as it says. */
  predicate SizeOk(m: Module) {
    m.importSection.Some? ==>
      LebValue(m.importSection.value.size)
      == |m.importSection.value.count| + |EncodeImports(m.importSection.value.imports)|
  }

  /** Sections 5.3.4, 5.3.7, 5.3.10 and 5.5.5: reference and value types, mutability, limits without or
      with a maximum, and the four kinds of imports; tags are not among them. */
  predicate TypesOfDesc(d: Desc) {
    match d
    case Func(_) => true
    case Table(refType, limits) => (refType == 0x70 || refType == 0x6F) && TypesOfLimits(limits)
    case Memory(limits) => TypesOfLimits(limits)
    case Global(globalType) =>
      && |globalType| == 2 && (0x7B <= globalType[0] <= 0x7F || globalType[0] == 0x70 || globalType[0] == 0x6F)
      && globalType[1] <= 1
    case Tag(_, _) => false
  }

  predicate TypesOfLimits(l: Limits) {
    l.flags == [0] || l.flags == [1]
  }

  predicate TypesOk(m: Module) {
    m.importSection.Some? ==>
      forall i :: 0 <= i < |m.importSection.value.imports| ==> TypesOfDesc(m.importSection.value.imports[i].desc)
  }

  /** Section 5.5.16: where a section stands among the others; custom sections stand anywhere. */
  function Rank(id: byte): nat {
    if id <= 9 then id else if id == 12 then 10 else if id == 10 then 11 else 12
  }

  predicate InOrder(sections: seq<Section>, last: nat) {
    sections == []
    || (&& sections[0].id <= 12
        && (if sections[0].id == 0 then InOrder(sections[1..], last)
            else last < Rank(sections[0].id) && InOrder(sections[1..], Rank(sections[0].id))))
  }

  function EncodeSections(sections: seq<Section>): seq<byte> {
    if sections == [] then [] else EncodeSection(sections[0]) + EncodeSections(sections[1..])
  }

  /** Whole sections with u32 sizes, in order behind the section of rank `last`. */
  predicate Framed(sections: seq<Section>, last: nat) {
    && InOrder(sections, last)
    && forall i :: 0 <= i < |sections| ==> U32(sections[i].size) && |sections[i].body| == LebValue(sections[i].size)
  }

  /** The sections in front are those that may stand there, and what follows the import section is
      sections. */
  ghost predicate OrderOk(m: Module) {
    if m.importSection.None? then InOrder(m.before, 0)
    else
      && InOrder(m.before, 0) && (forall i :: 0 <= i < |m.before| ==> m.before[i].id <= 1)
      && exists sections :: m.rest == EncodeSections(sections) && Framed(sections, 2)
  }

  /** A module of the specification, as far as framing and imports go. */
  ghost predicate Strict(m: Module) {
    WellFormed(m) && NumbersOk(m) && SizeOk(m) && TypesOk(m) && OrderOk(m)
  }

  ghost predicate StrictFile(data: seq<byte>) {
    exists m :: Strict(m) && data == EncodeModule(m)
  }

  lemma StrictIsAccepted(m: Module)
    requires WellFormed(m)
    ensures Accepted(m)
  {
    StrictFrom(m.before, m.importSection, m.rest);
  }

  /** The gap: an accepted file is a file of the specification exactly when its one structure is nowhere
      cut, has u32 numbers, the import section's right size, known types, and sections in order. */
  lemma GapIff(m: Module)
    requires Accepted(m)
    ensures StrictFile(EncodeModule(m))
            <==> WellFormed(m) && NumbersOk(m) && SizeOk(m) && TypesOk(m) && OrderOk(m)
  {
    hide Accepted, WellFormed, NumbersOk, SizeOk, TypesOk, OrderOk, EncodeModule;
    if StrictFile(EncodeModule(m)) {
      var strict :| Strict(strict) && EncodeModule(m) == EncodeModule(strict);
      StrictIsAccepted(strict);
      AcceptedUnique(m, strict);
    }
  }

  /** The reader reads every file of the specification. */
  lemma ReadsStrictFiles(data: seq<byte>)
    requires StrictFile(data)
    ensures ImportsOf(data).Ok?
  {
    hide WellFormed, NumbersOk, SizeOk, TypesOk, OrderOk, EncodeModule, ImportsOf;
    var m :| Strict(m) && data == EncodeModule(m);
    ReadsWellFormed(m);
  }

  // ----- Files that only the reader accepts -----

  const SIX: seq<byte> := [0x80, 0x80, 0x80, 0x80, 0x80, 0]

  lemma SixIsLeb()
    ensures IsLeb(SIX) && LebValue(SIX) == 0
  {
    assert LebValue([]) == 0;
    assert SIX[5..] == [0] && LebValue([0]) == 0;
    LebTail(SIX);
    LebTail(SIX[1..]);
    LebTail(SIX[2..]);
    LebTail(SIX[3..]);
    LebTail(SIX[4..]);
    assert SIX[1..][1..] == SIX[2..] && SIX[2..][1..] == SIX[3..];
    assert SIX[3..][1..] == SIX[4..] && SIX[4..][1..] == SIX[5..];
  }

  /** A size in six bytes. */
  lemma LongSizeAccepted()
    ensures IsLeb(SIX)
    ensures var m := Module([Section(0, SIX, [])], None, []);
            Accepted(m) && WellFormed(m) && !NumbersOk(m) && !StrictFile(EncodeModule(m))
  {
    SixIsLeb();
    var m := Module([Section(0, SIX, [])], None, []);
    assert m.before[1..] == [];
    assert !NumbersOk(m) by {
      assert !U32(m.before[0].size);
    }
    StrictIsAccepted(m);
    GapIff(m);
  }

  /** An import section that says it is nine bytes long, and has one. */
  lemma WrongSizeAccepted()
    ensures var m := Module([], Some(ImportSection([9], [0], [])), []);
            Accepted(m) && WellFormed(m) && !SizeOk(m) && !StrictFile(EncodeModule(m))
  {
    var m := Module([], Some(ImportSection([9], [0], [])), []);
    assert LebValue([9]) == 9 + 0x80 * LebValue([]);
    assert LebValue([0]) == 0 + 0x80 * LebValue([]);
    StrictIsAccepted(m);
    GapIff(m);
  }
}
