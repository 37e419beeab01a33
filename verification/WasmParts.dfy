/** Reading the types, imports, functions, memories, exports, start function and number of data of a module back, after
    section 5.5 of the WebAssembly Core Specification. */
module WasmParts {
  import opened Leb128
  import opened WasmSyntax
  import opened WasmCode
  import opened WasmReader
  import opened WasmData

  // ---------- ranges ----------

  /** `n` elements, and nothing behind them. */
  function ReadRange<T>(read: seq<Byte> -> Read<T>, s: seq<Byte>, n: nat): Option<seq<T>>
    decreases n
  {
    if n == 0 then (if s == [] then Some([]) else None)
    else match read(s)
      case Malformed => None
      case Read(x, rest) =>
        match ReadRange(read, rest, n - 1)
        case None => None
        case Some(xs) => Some([x] + xs)
  }

  /** A count, and that many elements. */
  function ReadVector<T>(read: seq<Byte> -> Read<T>, s: seq<Byte>): Option<seq<T>> {
    match ReadIndex(s)
    case Malformed => None
    case Read(n, rest) => ReadRange(read, rest, n)
  }

  /** What is written of `x` reads as `y`, whatever follows. */
  ghost predicate Inverts<T, U>(f: T -> seq<Byte>, read: seq<Byte> -> Read<U>, x: T, y: U) {
    forall rest: seq<Byte> :: read(f(x) + rest) == Read(y, rest)
  }

  lemma {:induction false} RangeReadsBack<T, U>(f: T -> seq<Byte>, read: seq<Byte> -> Read<U>, xs: seq<T>, ys: seq<U>)
    requires |xs| == |ys| && forall i :: 0 <= i < |xs| ==> Inverts(f, read, xs[i], ys[i])
    ensures ReadRange(read, Joined(f, xs), |xs|) == Some(ys)
    decreases |xs|
  {
    if xs != [] {
      assert Inverts(f, read, xs[0], ys[0]);
      RangeReadsBack(f, read, xs[1..], ys[1..]);
      assert [ys[0]] + ys[1..] == ys;
    }
  }

  lemma VectorReadsBack<T, U>(f: T -> seq<Byte>, read: seq<Byte> -> Read<U>, xs: seq<T>, ys: seq<U>)
    requires |xs| == |ys| && forall i :: 0 <= i < |xs| ==> Inverts(f, read, xs[i], ys[i])
    ensures ReadVector(read, Counted(|xs|, Joined(f, xs))) == Some(ys)
  {
    IndexReadsBack(|xs|, Joined(f, xs));
    RangeReadsBack(f, read, xs, ys);
  }

  // ---------- elements ----------

  function ReadTypes(s: seq<Byte>, n: nat): Read<seq<ValType>>
    decreases n
  {
    if n == 0 then Read([], s)
    else if s == [] || ReadValType(s[0]).None? then Malformed
    else match ReadTypes(s[1..], n - 1)
      case Malformed => Malformed
      case Read(ts, rest) => Read([ReadValType(s[0]).value] + ts, rest)
  }

  function ReadResult(s: seq<Byte>): Read<seq<ValType>> {
    match ReadIndex(s)
    case Malformed => Malformed
    case Read(n, rest) => ReadTypes(rest, n)
  }

  function ReadFuncType(s: seq<Byte>): Read<FuncType> {
    if s == [] || s[0] != 0x60 then Malformed
    else match ReadResult(s[1..])
      case Malformed => Malformed
      case Read(domain, rest) =>
        match ReadResult(rest)
        case Malformed => Malformed
        case Read(codomain, rest') => Read(FuncType(domain, codomain), rest')
  }

  function ReadLimits(s: seq<Byte>): Read<Limits> {
    if s == [] || s[0] > 0x01 then Malformed
    else match ReadIndex(s[1..])
      case Malformed => Malformed
      case Read(min, rest) =>
        if s[0] == 0x00 then Read(Limits(min, None), rest)
        else match ReadIndex(rest)
          case Malformed => Malformed
          case Read(max, rest') => Read(Limits(min, Some(max)), rest')
  }

  function ReadImportDesc(s: seq<Byte>): Read<ImportDesc> {
    if s != [] && s[0] == 0x00 then
      match ReadIndex(s[1..])
      case Malformed => Malformed
      case Read(index, rest) => Read(ImportFunc(index), rest)
    else if s != [] && s[0] == 0x02 then
      match ReadLimits(s[1..])
      case Malformed => Malformed
      case Read(limits, rest) => Read(ImportMem(limits), rest)
    else Malformed
  }

  function ReadImport(s: seq<Byte>): Read<Import> {
    match ReadCounted(s)
    case Malformed => Malformed
    case Read(source, s') =>
      match ReadCounted(s')
      case Malformed => Malformed
      case Read(name, s'') =>
        match ReadImportDesc(s'')
        case Malformed => Malformed
        case Read(desc, rest) => Read(Import(source, name, desc), rest)
  }

  function ReadExportDesc(s: seq<Byte>): Read<ExportDesc> {
    if s == [] || (s[0] != 0x00 && s[0] != 0x02) then Malformed
    else match ReadIndex(s[1..])
      case Malformed => Malformed
      case Read(id, rest) => Read(if s[0] == 0x00 then ExportFunc(id) else ExportMem(id), rest)
  }

  function ReadExport(s: seq<Byte>): Read<Export> {
    match ReadCounted(s)
    case Malformed => Malformed
    case Read(name, s') =>
      match ReadExportDesc(s')
      case Malformed => Malformed
      case Read(desc, rest) => Read(Export(name, desc), rest)
  }

  lemma {:induction false} TypesReadBack(ts: seq<ValType>, rest: seq<Byte>)
    ensures ReadTypes(TypeBytes(ts) + rest, |ts|) == Read(ts, rest)
  {
    var s := TypeBytes(ts) + rest;
    if ts == [] {
      assert s == rest;
    } else {
      assert s[1..] == TypeBytes(ts[1..]) + rest;
      TypesReadBack(ts[1..], rest);
      assert [ts[0]] + ts[1..] == ts;
    }
  }

  lemma ResultReadsBack(ts: seq<ValType>, rest: seq<Byte>)
    ensures ReadResult(ResultBytes(ts) + rest) == Read(ts, rest)
  {
    IndexReadsBack(|ts|, TypeBytes(ts) + rest);
    TypesReadBack(ts, rest);
    Rejoined(Unsigned(|ts|), TypeBytes(ts), rest);
  }

  lemma CountedReadsBack(s: seq<Byte>, rest: seq<Byte>)
    ensures ReadCounted(Bytes(s) + rest) == Read(s, rest)
  {
    IndexReadsBack(|s|, s + rest);
    Rejoined(Unsigned(|s|), s, rest);
    assert (s + rest)[..|s|] == s && (s + rest)[|s|..] == rest;
  }

  lemma FuncTypeReadsBack(t: FuncType, rest: seq<Byte>)
    ensures ReadFuncType(FuncTypeBytes(t) + rest) == Read(t, rest)
  {
    hide ResultBytes, ReadResult;
    var s := FuncTypeBytes(t) + rest;
    assert s[1..] == ResultBytes(t.domain) + (ResultBytes(t.codomain) + rest);
    ResultReadsBack(t.domain, ResultBytes(t.codomain) + rest);
    ResultReadsBack(t.codomain, rest);
  }

  lemma LimitsReadBack(l: Limits, rest: seq<Byte>)
    ensures ReadLimits(LimitsBytes(l) + rest) == Read(l, rest)
  {
    hide ReadIndex, Unsigned;
    var s := LimitsBytes(l) + rest;
    match l.max
    case None =>
      assert s[1..] == Unsigned(l.min) + rest;
      IndexReadsBack(l.min, rest);
    case Some(max) =>
      assert s[1..] == Unsigned(l.min) + (Unsigned(max) + rest);
      IndexReadsBack(l.min, Unsigned(max) + rest);
      IndexReadsBack(max, rest);
  }

  /** How the descriptor of an import is written. */
  function ImportDescBytes(d: ImportDesc): seq<Byte> {
    match d
    case ImportFunc(index) => [0x00] + Unsigned(index)
    case ImportMem(limits) => [0x02] + LimitsBytes(limits)
  }

  lemma ImportDescReadsBack(d: ImportDesc, rest: seq<Byte>)
    ensures ReadImportDesc(ImportDescBytes(d) + rest) == Read(d, rest)
  {
    hide ReadIndex, ReadLimits, LimitsBytes;
    var s := ImportDescBytes(d) + rest;
    match d
    case ImportFunc(index) =>
      assert s[1..] == Unsigned(index) + rest;
      IndexReadsBack(index, rest);
    case ImportMem(limits) =>
      assert s[1..] == LimitsBytes(limits) + rest;
      LimitsReadBack(limits, rest);
  }

  lemma ImportReadsBack(x: Import, rest: seq<Byte>)
    ensures ReadImport(ImportBytes(x) + rest) == Read(x, rest)
  {
    hide Bytes, ReadCounted, ReadImportDesc;
    var desc := ImportDescBytes(x.desc) + rest;
    assert ImportBytes(x) + rest == Bytes(x.source) + (Bytes(x.name) + desc);
    CountedReadsBack(x.source, Bytes(x.name) + desc);
    CountedReadsBack(x.name, desc);
    ImportDescReadsBack(x.desc, rest);
  }

  function ExportDescBytes(d: ExportDesc): seq<Byte> {
    match d
    case ExportFunc(id) => [0x00] + Unsigned(id)
    case ExportMem(id) => [0x02] + Unsigned(id)
  }

  lemma ExportDescReadsBack(d: ExportDesc, rest: seq<Byte>)
    ensures ReadExportDesc(ExportDescBytes(d) + rest) == Read(d, rest)
  {
    hide ReadIndex, Unsigned;
    var s := ExportDescBytes(d) + rest;
    match d
    case ExportFunc(id) =>
      assert s[1..] == Unsigned(id) + rest;
      IndexReadsBack(id, rest);
    case ExportMem(id) =>
      assert s[1..] == Unsigned(id) + rest;
      IndexReadsBack(id, rest);
  }

  lemma ExportReadsBack(x: Export, rest: seq<Byte>)
    ensures ReadExport(ExportBytes(x) + rest) == Read(x, rest)
  {
    hide Bytes, ReadCounted, ReadExportDesc;
    var desc := ExportDescBytes(x.desc) + rest;
    assert ExportBytes(x) + rest == Bytes(x.name) + desc;
    CountedReadsBack(x.name, desc);
    ExportDescReadsBack(x.desc, rest);
  }

  // ---------- sections by their identifiers ----------

  function Find(ss: seq<Section>, id: Byte): Option<seq<Byte>> {
    if ss == [] then None else if ss[0].id == id then Some(ss[0].content) else Find(ss[1..], id)
  }

  lemma {:induction false} FindAppend(a: seq<Section>, b: seq<Section>, id: Byte)
    ensures Find(a + b, id) == if Find(a, id).Some? then Find(a, id) else Find(b, id)
  {
    if a == [] {
      assert a + b == b;
    } else {
      assert (a + b)[1..] == a[1..] + b;
      FindAppend(a[1..], b, id);
    }
  }

  /** At most one section, with this identifier. */
  predicate Only(ss: seq<Section>, id: Byte) {
    |ss| <= 1 && forall i :: 0 <= i < |ss| ==> ss[i].id == id
  }

  function One(ss: seq<Section>): Option<seq<Byte>> {
    if ss == [] then None else Some(ss[0].content)
  }

  lemma FindOnly(ss: seq<Section>, own: Byte, id: Byte)
    requires Only(ss, own)
    ensures Find(ss, id) == if own == id then One(ss) else None
  {
    if ss != [] {
      assert ss[1..] == [];
    }
  }

  lemma Marks(m: Module, c: Contents)
    ensures Only(TypeSection(m), 1) && Only(ImportSection(m), 2) && Only(FuncSection(m), 3) && Only(MemSection(m), 5)
    ensures Only(ExportSection(m), 7) && Only(StartSection(m), 8) && Only(DataCountSection(m), 12)
    ensures Only(CodeSection(c), 10) && Only(DataSection(c), 11)
  {
  }

  /** Each section is found by its identifier. */
  lemma FindsEach(m: Module, c: Contents, id: Byte)
    ensures Find(SectionsOf(m, c), id) ==
              if id == 1 then One(TypeSection(m))
              else if id == 2 then One(ImportSection(m))
              else if id == 3 then One(FuncSection(m))
              else if id == 5 then One(MemSection(m))
              else if id == 7 then One(ExportSection(m))
              else if id == 8 then One(StartSection(m))
              else if id == 12 then One(DataCountSection(m))
              else if id == 10 then One(CodeSection(c))
              else if id == 11 then One(DataSection(c))
              else None
  {
    Marks(m, c);
    hide Find, Only, One, TypeSection, ImportSection, FuncSection, MemSection, ExportSection, StartSection;
    hide DataCountSection, CodeSection, DataSection;
    var s1, s2, s3, s4, s5 := TypeSection(m), ImportSection(m), FuncSection(m), MemSection(m), ExportSection(m);
    var s6, s7, s8, s9 := StartSection(m), DataCountSection(m), CodeSection(c), DataSection(c);
    FindAppend(s1, s2, id);
    FindAppend(s1 + s2, s3, id);
    FindAppend(s1 + s2 + s3, s4, id);
    FindAppend(s1 + s2 + s3 + s4, s5, id);
    FindAppend(s1 + s2 + s3 + s4 + s5, s6, id);
    FindAppend(s1 + s2 + s3 + s4 + s5 + s6, s7, id);
    FindAppend(s1 + s2 + s3 + s4 + s5 + s6 + s7, s8, id);
    FindAppend(s1 + s2 + s3 + s4 + s5 + s6 + s7 + s8, s9, id);
    FindOnly(s1, 1, id);
    FindOnly(s2, 2, id);
    FindOnly(s3, 3, id);
    FindOnly(s4, 5, id);
    FindOnly(s5, 7, id);
    FindOnly(s6, 8, id);
    FindOnly(s7, 12, id);
    FindOnly(s8, 10, id);
    FindOnly(s9, 11, id);
  }

  // ---------- the module ----------

  /** An absent section stands for an empty range. */
  function ReadPart<T>(read: seq<Byte> -> Read<T>, ss: seq<Section>, id: Byte): Option<seq<T>> {
    match Find(ss, id)
    case None => Some([])
    case Some(content) => ReadVector(read, content)
  }

  function IndicesOf(funcs: seq<Function>): (indices: seq<nat>)
    ensures |indices| == |funcs| && forall i :: 0 <= i < |funcs| ==> indices[i] == funcs[i].index
  {
    seq(|funcs|, i requires 0 <= i < |funcs| => funcs[i].index)
  }

  lemma {:induction false} IndicesBytes(funcs: seq<Function>)
    ensures Joined(Unsigned, IndicesOf(funcs)) == FuncsBytes(funcs)
  {
    if funcs != [] {
      assert IndicesOf(funcs)[1..] == IndicesOf(funcs[1..]);
      IndicesBytes(funcs[1..]);
    }
  }

  lemma TypesAreRecovered(m: Module, c: Contents)
    ensures ReadPart(ReadFuncType, SectionsOf(m, c), 1) == Some(m.types)
  {
    FindsEach(m, c, 1);
    forall x | x in m.types ensures Inverts(FuncTypeBytes, ReadFuncType, x, x) {
      forall rest ensures ReadFuncType(FuncTypeBytes(x) + rest) == Read(x, rest) {
        FuncTypeReadsBack(x, rest);
      }
    }
    hide SectionsOf, Counted, ReadFuncType, FuncTypeBytes;
    VectorReadsBack(FuncTypeBytes, ReadFuncType, m.types, m.types);
  }

  lemma ImportsAreRecovered(m: Module, c: Contents)
    ensures ReadPart(ReadImport, SectionsOf(m, c), 2) == Some(m.imports)
  {
    FindsEach(m, c, 2);
    forall x | x in m.imports ensures Inverts(ImportBytes, ReadImport, x, x) {
      forall rest ensures ReadImport(ImportBytes(x) + rest) == Read(x, rest) {
        ImportReadsBack(x, rest);
      }
    }
    hide SectionsOf, Counted, ReadImport, ImportBytes;
    VectorReadsBack(ImportBytes, ReadImport, m.imports, m.imports);
  }

  lemma FuncsAreRecovered(m: Module, c: Contents)
    ensures ReadPart(ReadIndex, SectionsOf(m, c), 3) == Some(IndicesOf(m.funcs))
  {
    FindsEach(m, c, 3);
    IndicesBytes(m.funcs);
    forall x: nat ensures Inverts(Unsigned, ReadIndex, x, x) {
      forall rest ensures ReadIndex(Unsigned(x) + rest) == Read(x, rest) {
        IndexReadsBack(x, rest);
      }
    }
    hide SectionsOf, Counted, ReadIndex, Unsigned;
    VectorReadsBack(Unsigned, ReadIndex, IndicesOf(m.funcs), IndicesOf(m.funcs));
    assert m.funcs == [] ==> IndicesOf(m.funcs) == [];
  }

  lemma MemsAreRecovered(m: Module, c: Contents)
    ensures ReadPart(ReadLimits, SectionsOf(m, c), 5) == Some(m.mems)
  {
    FindsEach(m, c, 5);
    forall x | x in m.mems ensures Inverts(LimitsBytes, ReadLimits, x, x) {
      forall rest ensures ReadLimits(LimitsBytes(x) + rest) == Read(x, rest) {
        LimitsReadBack(x, rest);
      }
    }
    hide SectionsOf, Counted, ReadLimits, LimitsBytes;
    VectorReadsBack(LimitsBytes, ReadLimits, m.mems, m.mems);
  }

  lemma ExportsAreRecovered(m: Module, c: Contents)
    ensures ReadPart(ReadExport, SectionsOf(m, c), 7) == Some(m.exports)
  {
    FindsEach(m, c, 7);
    forall x | x in m.exports ensures Inverts(ExportBytes, ReadExport, x, x) {
      forall rest ensures ReadExport(ExportBytes(x) + rest) == Read(x, rest) {
        ExportReadsBack(x, rest);
      }
    }
    hide SectionsOf, Counted, ReadExport, ExportBytes;
    VectorReadsBack(ExportBytes, ReadExport, m.exports, m.exports);
  }

  lemma StartIsRecovered(m: Module, c: Contents)
    ensures Find(SectionsOf(m, c), 8).Some? <==> m.start.Some?
    ensures m.start.Some? ==> ReadIndex(Find(SectionsOf(m, c), 8).value) == Read(m.start.value, [])
  {
    FindsEach(m, c, 8);
    hide SectionsOf;
    if m.start.Some? {
      IndexReadsBack(m.start.value, []);
      assert Unsigned(m.start.value) + [] == Unsigned(m.start.value);
    }
  }

  lemma DataCountIsRecovered(m: Module, c: Contents)
    ensures Find(SectionsOf(m, c), 12).Some? <==> m.datas != []
    ensures m.datas != [] ==> ReadIndex(Find(SectionsOf(m, c), 12).value) == Read(|m.datas|, [])
  {
    FindsEach(m, c, 12);
    hide SectionsOf;
    if m.datas != [] {
      IndexReadsBack(|m.datas|, []);
      assert Unsigned(|m.datas|) + [] == Unsigned(|m.datas|);
    }
  }

  lemma DataAreCounted(m: Module, c: Contents)
    ensures Find(SectionsOf(m, c), 11).Some? <==> c.datums != []
    ensures c.datums != [] ==> ReadIndex(Find(SectionsOf(m, c), 11).value) == Read(|c.datums|, DatumsBytes(c.datums))
  {
    FindsEach(m, c, 11);
    hide SectionsOf;
    IndexReadsBack(|c.datums|, DatumsBytes(c.datums));
  }

  /** The bytes of a module below 4 GiB give back its types, imports, function types, memories, exports, start and
      number of data, which is also what its data section begins with. */
  lemma ModuleIsRecovered(m: Module, c: Contents)
    requires |ModuleBytes(m, c)| < U32
    ensures var r := ReadSections(ModuleBytes(m, c)[8..]);
            && r.Some?
            && ReadPart(ReadFuncType, r.value, 1) == Some(m.types)
            && ReadPart(ReadImport, r.value, 2) == Some(m.imports)
            && ReadPart(ReadIndex, r.value, 3) == Some(IndicesOf(m.funcs))
            && ReadPart(ReadLimits, r.value, 5) == Some(m.mems)
            && ReadPart(ReadExport, r.value, 7) == Some(m.exports)
            && (Find(r.value, 8).Some? <==> m.start.Some?)
            && (m.start.Some? ==> ReadIndex(Find(r.value, 8).value) == Read(m.start.value, []))
            && (Find(r.value, 12).Some? <==> m.datas != [])
            && (m.datas != [] ==> ReadIndex(Find(r.value, 12).value) == Read(|m.datas|, []))
            && (Find(r.value, 11).Some? <==> c.datums != [])
            && (c.datums != [] ==> ReadIndex(Find(r.value, 11).value) == Read(|c.datums|, DatumsBytes(c.datums)))
  {
    hide SectionsOf, ReadPart, Find, ReadSections, ModuleBytes;
    ModuleReadsBack(m, c);
    TypesAreRecovered(m, c);
    ImportsAreRecovered(m, c);
    FuncsAreRecovered(m, c);
    MemsAreRecovered(m, c);
    ExportsAreRecovered(m, c);
    StartIsRecovered(m, c);
    DataCountIsRecovered(m, c);
    DataAreCounted(m, c);
  }

  // ---------- the order of the sections ----------

  /** The place of a section in a module, after section 5.5.2 of the same specification: by its identifier, but for the
      number of data, which comes between the elements (9) and the code (10). */
  function Standing(id: Byte): nat {
    if id == 12 then 19 else 2 * id
  }

  /** Sections in the order of their places, each of which is above `low` and none above `high`. */
  ghost predicate Ascending(ss: seq<Section>, low: int, high: nat) {
    && (forall i :: 0 <= i < |ss| ==> low < Standing(ss[i].id) <= high)
    && forall i, j :: 0 <= i < j < |ss| ==> Standing(ss[i].id) < Standing(ss[j].id)
  }

  lemma AscendsOn(a: seq<Section>, low: int, mid: nat, own: Byte, b: seq<Section>)
    requires Ascending(a, low, mid) && Only(b, own) && low <= mid < Standing(own)
    ensures Ascending(a + b, low, Standing(own))
  {
  }

  /** The sections of a module stand in the order of the format, none of them twice. */
  lemma SectionsAreOrdered(m: Module, c: Contents)
    ensures var ss := SectionsOf(m, c);
            forall i, j :: 0 <= i < j < |ss| ==> Standing(ss[i].id) < Standing(ss[j].id)
  {
    hide Only, TypeSection, ImportSection, FuncSection, MemSection, ExportSection, StartSection, DataCountSection,
         CodeSection, DataSection;
    Marks(m, c);
    var s1, s2, s3, s4, s5 := TypeSection(m), ImportSection(m), FuncSection(m), MemSection(m), ExportSection(m);
    var s6, s7, s8, s9 := StartSection(m), DataCountSection(m), CodeSection(c), DataSection(c);
    AscendsOn([], 0, 0, 1, s1);
    assert [] + s1 == s1;
    AscendsOn(s1, 0, 2, 2, s2);
    AscendsOn(s1 + s2, 0, 4, 3, s3);
    AscendsOn(s1 + s2 + s3, 0, 6, 5, s4);
    AscendsOn(s1 + s2 + s3 + s4, 0, 10, 7, s5);
    AscendsOn(s1 + s2 + s3 + s4 + s5, 0, 14, 8, s6);
    AscendsOn(s1 + s2 + s3 + s4 + s5 + s6, 0, 16, 12, s7);
    AscendsOn(s1 + s2 + s3 + s4 + s5 + s6 + s7, 0, 19, 10, s8);
    AscendsOn(s1 + s2 + s3 + s4 + s5 + s6 + s7 + s8, 0, 20, 11, s9);
  }
}
