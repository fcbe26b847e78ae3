/** The import-section reader of scripts/check-wasm-artifact-imports.py: a cursor over raw bytes.

    Each reader exists twice: a method that moves the cursor as the script does, and the function
    of the bytes and the offset that the method computes. Everything proved about the format in
    `WasmGrammar` is proved about the functions. */
module WasmImports {
  import opened Options
  import opened Utf8

  /** The exceptions that leave the script: two explicit `ValueError`s for the header, an
      `IndexError`, a `UnicodeDecodeError`, and the `ValueError` for a descriptor kind. */
  datatype DecodeError = BadMagic | BadVersion | IndexOutOfRange | BadUtf8 | UnknownKind(kind: byte)

  datatype ImportEntry = ImportEntry(moduleName: string, field: string, kind: byte)

  /** A value and the offset just behind it. */
  type Cursor<+T> = Result<(T, nat), DecodeError>

  const MAGIC: seq<byte> := [0, 0x61, 0x73, 0x6D]
  const VERSION: seq<byte> := [1, 0, 0, 0]

  function Min(a: nat, b: nat): nat {
    if a <= b then a else b
  }

  /** Python's `data[lo:hi]`: bounds past the end are clamped, never an error. */
  function Slice(data: seq<byte>, lo: nat, hi: nat): seq<byte>
    requires lo <= hi
  {
    data[Min(lo, |data|)..Min(hi, |data|)]
  }

  // ----- What each reader computes -----

  function LebAt(data: seq<byte>, offset: nat): Cursor<nat>
    decreases |data| - offset
  {
    if offset >= |data| then Err(IndexOutOfRange)
    else if data[offset] < 0x80 then Ok((data[offset], offset + 1))
    else
      match LebAt(data, offset + 1)
      case Err(e) => Err(e)
      case Ok((high, next)) => Ok((data[offset] % 0x80 + 0x80 * high, next))
  }

  function NameAt(data: seq<byte>, offset: nat): Cursor<string> {
    match LebAt(data, offset)
    case Err(e) => Err(e)
    case Ok((length, start)) =>
      match Decode(Slice(data, start, start + length))
      case None => Err(BadUtf8)
      case Some(text) => Ok((text, start + length))
  }

  function LimitsAt(data: seq<byte>, offset: nat): Result<nat, DecodeError> {
    match LebAt(data, offset)
    case Err(e) => Err(e)
    case Ok((flags, afterFlags)) =>
      match LebAt(data, afterFlags)
      case Err(e) => Err(e)
      case Ok((_, afterMin)) =>
        if flags % 2 == 0 then Ok(afterMin)
        else
          match LebAt(data, afterMin)
          case Err(e) => Err(e)
          case Ok((_, afterMax)) => Ok(afterMax)
  }

  function DescAt(data: seq<byte>, offset: nat, kind: byte): Result<nat, DecodeError> {
    if kind == 0 then
      match LebAt(data, offset)
      case Err(e) => Err(e)
      case Ok((_, next)) => Ok(next)
    else if kind == 1 then LimitsAt(data, offset + 1)
    else if kind == 2 then LimitsAt(data, offset)
    else if kind == 3 then Ok(offset + 2)
    else if kind == 4 then
      match LebAt(data, offset)
      case Err(e) => Err(e)
      case Ok((_, afterAttribute)) =>
        match LebAt(data, afterAttribute)
        case Err(e) => Err(e)
        case Ok((_, next)) => Ok(next)
    else Err(UnknownKind(kind))
  }

  function ImportAt(data: seq<byte>, offset: nat): Cursor<ImportEntry> {
    match NameAt(data, offset)
    case Err(e) => Err(e)
    case Ok((moduleName, afterModule)) =>
      match NameAt(data, afterModule)
      case Err(e) => Err(e)
      case Ok((field, afterField)) =>
        if afterField >= |data| then Err(IndexOutOfRange)
        else
          match DescAt(data, afterField + 1, data[afterField])
          case Err(e) => Err(e)
          case Ok(next) => Ok((ImportEntry(moduleName, field, data[afterField]), next))
  }

  function ImportsAt(data: seq<byte>, offset: nat, count: nat): Result<seq<ImportEntry>, DecodeError>
    decreases count
  {
    if count == 0 then Ok([])
    else
      match ImportAt(data, offset)
      case Err(e) => Err(e)
      case Ok((entry, next)) =>
        match ImportsAt(data, next, count - 1)
        case Err(e) => Err(e)
        case Ok(entries) => Ok([entry] + entries)
  }

  lemma {:induction false} LebAdvances(data: seq<byte>, offset: nat)
    requires LebAt(data, offset).Ok?
    ensures offset < LebAt(data, offset).value.1 <= |data|
    decreases |data| - offset
  {
    if data[offset] >= 0x80 {
      LebAdvances(data, offset + 1);
    }
  }

  function SectionsAt(data: seq<byte>, offset: nat): Result<seq<ImportEntry>, DecodeError>
    decreases |data| - offset
  {
    if offset >= |data| then Ok([])
    else
      match LebAt(data, offset + 1)
      case Err(e) => Err(e)
      case Ok((size, start)) =>
        LebAdvances(data, offset + 1);
        if data[offset] == 2 then
          match LebAt(data, start)
          case Err(e) => Err(e)
          case Ok((count, first)) => ImportsAt(data, first, count)
        else SectionsAt(data, start + size)
  }

  function ImportsOf(wasm: seq<byte>): Result<seq<ImportEntry>, DecodeError> {
    if Slice(wasm, 0, 4) != MAGIC then Err(BadMagic)
    else if Slice(wasm, 4, 8) != VERSION then Err(BadVersion)
    else SectionsAt(wasm, 8)
  }

  // ----- The readers themselves -----

  function Pow2(n: nat): (p: nat)
    ensures p >= 1
  {
    if n == 0 then 1 else 2 * Pow2(n - 1)
  }

  lemma Pow2Step(shift: nat)
    ensures Pow2(shift + 7) == 0x80 * Pow2(shift)
  {
    assert Pow2(shift + 7) == 2 * Pow2(shift + 6);
    assert Pow2(shift + 6) == 2 * Pow2(shift + 5);
    assert Pow2(shift + 5) == 2 * Pow2(shift + 4);
    assert Pow2(shift + 4) == 2 * Pow2(shift + 3);
    assert Pow2(shift + 3) == 2 * Pow2(shift + 2);
    assert Pow2(shift + 2) == 2 * Pow2(shift + 1);
  }

  /** What the loop returns when it has gathered `value` and its next group weighs `unit`. */
  ghost function Resume(value: nat, unit: nat, data: seq<byte>, offset: nat): Cursor<nat> {
    match LebAt(data, offset)
    case Err(e) => Err(e)
    case Ok((high, next)) => Ok((value + unit * high, next))
  }

  lemma ResumeStep(value: nat, unit: nat, data: seq<byte>, offset: nat)
    requires offset < |data| && data[offset] >= 0x80
    ensures Resume(value, unit, data, offset)
         == Resume(value + data[offset] % 0x80 * unit, 0x80 * unit, data, offset + 1)
  {
    var rest := LebAt(data, offset + 1);
    if rest.Ok? {
      var group, high := data[offset] % 0x80, rest.value.0;
      assert unit * (group + 0x80 * high) == group * unit + (0x80 * unit) * high;
    }
  }

  method ReadU32Leb(data: seq<byte>, start: nat) returns (r: Cursor<nat>)
    ensures r == LebAt(data, start)
  {
    var value: nat, shift: nat, offset := 0, 0, start;
    while true
      invariant LebAt(data, start) == Resume(value, Pow2(shift), data, offset)
      decreases |data| - offset
    {
      if offset >= |data| {
        return Err(IndexOutOfRange);
      }
      var b := data[offset];
      if b < 0x80 {
        assert Pow2(shift) * b == b * Pow2(shift);
        return Ok((value + b * Pow2(shift), offset + 1));
      }
      ResumeStep(value, Pow2(shift), data, offset);
      Pow2Step(shift);
      offset := offset + 1;
      value := value + b % 0x80 * Pow2(shift);
      shift := shift + 7;
    }
  }

  method ReadName(data: seq<byte>, start: nat) returns (r: Cursor<string>)
    ensures r == NameAt(data, start)
  {
    hide LebAt, Decode;
    var header := ReadU32Leb(data, start);
    if header.Err? {
      return Err(header.error);
    }
    var (length, offset) := header.value;
    var raw := Slice(data, offset, offset + length);
    offset := offset + length;
    var text := Decode(raw);
    return if text.None? then Err(BadUtf8) else Ok((text.value, offset));
  }

  method SkipLimits(data: seq<byte>, start: nat) returns (r: Result<nat, DecodeError>)
    ensures r == LimitsAt(data, start)
  {
    hide LebAt;
    var flags := ReadU32Leb(data, start);
    if flags.Err? {
      return Err(flags.error);
    }
    var minimum := ReadU32Leb(data, flags.value.1);
    if minimum.Err? {
      return Err(minimum.error);
    }
    var offset := minimum.value.1;
    if flags.value.0 % 2 == 1 {
      var maximum := ReadU32Leb(data, offset);
      if maximum.Err? {
        return Err(maximum.error);
      }
      offset := maximum.value.1;
    }
    return Ok(offset);
  }

  method SkipImportDesc(data: seq<byte>, start: nat, kind: byte) returns (r: Result<nat, DecodeError>)
    ensures r == DescAt(data, start, kind)
  {
    hide LebAt, LimitsAt;
    var offset := start;
    if kind == 0 {
      var index := ReadU32Leb(data, offset);
      return if index.Err? then Err(index.error) else Ok(index.value.1);
    }
    if kind == 1 {
      offset := offset + 1;
      r := SkipLimits(data, offset);
      return;
    }
    if kind == 2 {
      r := SkipLimits(data, offset);
      return;
    }
    if kind == 3 {
      offset := offset + 2;
      return Ok(offset);
    }
    if kind == 4 {
      var attribute := ReadU32Leb(data, offset);
      if attribute.Err? {
        return Err(attribute.error);
      }
      var index := ReadU32Leb(data, attribute.value.1);
      return if index.Err? then Err(index.error) else Ok(index.value.1);
    }
    return Err(UnknownKind(kind));
  }

  method ReadImport(wasm: seq<byte>, start: nat) returns (r: Cursor<ImportEntry>)
    ensures r == ImportAt(wasm, start)
  {
    hide NameAt, DescAt;
    var moduleName := ReadName(wasm, start);
    if moduleName.Err? {
      return Err(moduleName.error);
    }
    var field := ReadName(wasm, moduleName.value.1);
    if field.Err? {
      return Err(field.error);
    }
    var offset := field.value.1;
    if offset >= |wasm| {
      return Err(IndexOutOfRange);
    }
    var kind := wasm[offset];
    offset := offset + 1;
    var next := SkipImportDesc(wasm, offset, kind);
    if next.Err? {
      return Err(next.error);
    }
    return Ok((ImportEntry(moduleName.value.0, field.value.0, kind), next.value));
  }

  ghost function Prepend(done: seq<ImportEntry>, rest: Result<seq<ImportEntry>, DecodeError>)
    : Result<seq<ImportEntry>, DecodeError>
  {
    match rest
    case Err(e) => Err(e)
    case Ok(entries) => Ok(done + entries)
  }

  lemma PrependStep(done: seq<ImportEntry>, wasm: seq<byte>, offset: nat, count: nat)
    requires count > 0
    ensures ImportAt(wasm, offset).Err? ==>
              Prepend(done, ImportsAt(wasm, offset, count)) == Err(ImportAt(wasm, offset).error)
    ensures ImportAt(wasm, offset).Ok? ==>
              var (entry, next) := ImportAt(wasm, offset).value;
              Prepend(done, ImportsAt(wasm, offset, count)) == Prepend(done + [entry], ImportsAt(wasm, next, count - 1))
  {
    hide ImportAt;
    if ImportAt(wasm, offset).Ok? {
      var (entry, next) := ImportAt(wasm, offset).value;
      var rest := ImportsAt(wasm, next, count - 1);
      assert rest.Ok? ==> done + ([entry] + rest.value) == done + [entry] + rest.value;
    }
  }

  /** The `for` loop over the import section's entries. */
  method ReadImports(wasm: seq<byte>, start: nat, count: nat) returns (r: Result<seq<ImportEntry>, DecodeError>)
    ensures r == ImportsAt(wasm, start, count)
  {
    hide ImportAt;
    var imports: seq<ImportEntry>, offset := [], start;
    assert ImportsAt(wasm, start, count).Ok? ==>
        [] + ImportsAt(wasm, start, count).value == ImportsAt(wasm, start, count).value;
    for i := 0 to count
      invariant ImportsAt(wasm, start, count) == Prepend(imports, ImportsAt(wasm, offset, count - i))
    {
      PrependStep(imports, wasm, offset, count - i);
      var entry := ReadImport(wasm, offset);
      if entry.Err? {
        return Err(entry.error);
      }
      imports, offset := imports + [entry.value.0], entry.value.1;
    }
    assert imports + [] == imports;
    return Ok(imports);
  }

  method IterImports(wasm: seq<byte>) returns (r: Result<seq<ImportEntry>, DecodeError>)
    ensures r == ImportsOf(wasm)
  {
    if Slice(wasm, 0, 4) != MAGIC {
      return Err(BadMagic);
    }
    if Slice(wasm, 4, 8) != VERSION {
      return Err(BadVersion);
    }
    var offset: nat := 8;
    while offset < |wasm|
      invariant ImportsOf(wasm) == SectionsAt(wasm, offset)
      decreases |wasm| - offset
    {
      var sectionId := wasm[offset];
      offset := offset + 1;
      var size := ReadU32Leb(wasm, offset);
      if size.Err? {
        return Err(size.error);
      }
      LebAdvances(wasm, offset);
      offset := size.value.1;
      var sectionEnd := offset + size.value.0;
      if sectionId == 2 {
        var count := ReadU32Leb(wasm, offset);
        if count.Err? {
          return Err(count.error);
        }
        r := ReadImports(wasm, count.value.1, count.value.0);
        return;
      }
      offset := sectionEnd;
    }
    return Ok([]);
  }
}
