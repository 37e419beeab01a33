/** The sections of a module that hold no instruction list. */
module WasmRanges {
  import opened Leb128
  import opened WasmSyntax
  import opened WasmWriter

  predicate LimitsInRange(l: Limits) {
    l.min < U32 && (l.max.Some? ==> l.max.value < U32)
  }

  predicate FuncTypeInRange(t: FuncType) {
    |t.domain| < U32 && |t.codomain| < U32
  }

  predicate ImportInRange(x: Import) {
    && |x.source| < U32 && |x.name| < U32
    && match x.desc
       case ImportFunc(index) => index < U32
       case ImportMem(limits) => LimitsInRange(limits)
  }

  predicate ExportInRange(x: Export) {
    |x.name| < U32 && x.desc.id < U32
  }

  /** The ranges of a module have the widths of the fields that hold them. */
  predicate RangesFit(m: Module) {
    && |m.types| < U32 && (forall i :: 0 <= i < |m.types| ==> FuncTypeInRange(m.types[i]))
    && |m.imports| < U32 && (forall i :: 0 <= i < |m.imports| ==> ImportInRange(m.imports[i]))
    && |m.funcs| < U32 && (forall i :: 0 <= i < |m.funcs| ==> m.funcs[i].index < U32)
    && |m.mems| < U32 && (forall i :: 0 <= i < |m.mems| ==> LimitsInRange(m.mems[i]))
    && |m.exports| < U32 && (forall i :: 0 <= i < |m.exports| ==> ExportInRange(m.exports[i]))
    && (m.start.Some? ==> m.start.value < U32)
    && |m.datas| < U32
  }

  method EmitTypes(w: Writer, ts: seq<ValType>)
    requires |ts| < U32 && w.Room(|ResultBytes(ts)|)
    modifies w, w.buffer
    ensures w.Room(0) && Wrote(w.counting, old(w.Now()), ResultBytes(ts), w.Now())
  {
    ghost var t0 := w.Now();
    w.WriteUnsigned(|ts|);
    ghost var out := Unsigned(|ts|);
    ghost var all := TypeBytes(ts);
    for i := 0 to |ts|
      invariant w.Room(0) && Wrote(w.counting, t0, out, w.Now()) && out == Unsigned(|ts|) + all[..i]
    {
      ghost var t1 := w.Now();
      w.Write(TypeByte(ts[i]));
      WroteMore(w.counting, t0, out, t1, [TypeByte(ts[i])], w.Now());
      out := out + [TypeByte(ts[i])];
    }
  }

  method EmitName(w: Writer, data: seq<Byte>)
    requires |data| < U32 && w.Room(|Bytes(data)|)
    modifies w, w.buffer
    ensures w.Room(0) && Wrote(w.counting, old(w.Now()), Bytes(data), w.Now())
  {
    ghost var t0 := w.Now();
    w.WriteUnsigned(|data|);
    ghost var t1 := w.Now();
    EmitRaw(w, data);
    WroteMore(w.counting, t0, Unsigned(|data|), t1, data, w.Now());
  }

  /** A range of bytes, one after the other. */
  method EmitRaw(w: Writer, data: seq<Byte>)
    requires w.Room(|data|)
    modifies w, w.buffer
    ensures w.Room(0) && Wrote(w.counting, old(w.Now()), data, w.Now())
  {
    ghost var t0 := w.Now();
    for i := 0 to |data|
      invariant w.Room(0) && Wrote(w.counting, t0, data[..i], w.Now())
    {
      ghost var t1 := w.Now();
      w.Write(data[i]);
      WroteMore(w.counting, t0, data[..i], t1, [data[i]], w.Now());
      assert data[..i] + [data[i]] == data[..i + 1];
    }
    assert data[..|data|] == data;
  }

  method EmitFuncType(w: Writer, t: FuncType)
    requires FuncTypeInRange(t) && w.Room(|FuncTypeBytes(t)|)
    modifies w, w.buffer
    ensures w.Room(0) && Wrote(w.counting, old(w.Now()), FuncTypeBytes(t), w.Now())
  {
    hide ResultBytes;
    ghost var t0 := w.Now();
    w.Write(0x60);
    ghost var t1 := w.Now();
    EmitTypes(w, t.domain);
    WroteMore(w.counting, t0, [0x60], t1, ResultBytes(t.domain), w.Now());
    t1 := w.Now();
    EmitTypes(w, t.codomain);
    WroteMore(w.counting, t0, [0x60] + ResultBytes(t.domain), t1, ResultBytes(t.codomain), w.Now());
  }

  method EmitLimits(w: Writer, l: Limits)
    requires LimitsInRange(l) && w.Room(|LimitsBytes(l)|)
    modifies w, w.buffer
    ensures w.Room(0) && Wrote(w.counting, old(w.Now()), LimitsBytes(l), w.Now())
  {
    ghost var t0 := w.Now();
    if l.max.Some? {
      EmitIndexed(w, 0x01, l.min);
      ghost var t1 := w.Now();
      w.WriteUnsigned(l.max.value);
      WroteMore(w.counting, t0, [0x01] + Unsigned(l.min), t1, Unsigned(l.max.value), w.Now());
    } else {
      EmitIndexed(w, 0x00, l.min);
    }
  }

  method EmitIndexed(w: Writer, tag: Byte, n: nat)
    requires n < U32 && w.Room(1 + |Unsigned(n)|)
    modifies w, w.buffer
    ensures w.Room(0) && Wrote(w.counting, old(w.Now()), [tag] + Unsigned(n), w.Now())
  {
    ghost var t0 := w.Now();
    w.Write(tag);
    ghost var t1 := w.Now();
    w.WriteUnsigned(n);
    WroteMore(w.counting, t0, [tag], t1, Unsigned(n), w.Now());
  }

  method EmitImport(w: Writer, x: Import)
    requires ImportInRange(x) && w.Room(|ImportBytes(x)|)
    modifies w, w.buffer
    ensures w.Room(0) && Wrote(w.counting, old(w.Now()), ImportBytes(x), w.Now())
  {
    hide Bytes, LimitsBytes;
    ghost var t0 := w.Now();
    EmitName(w, x.source);
    ghost var t1 := w.Now();
    EmitName(w, x.name);
    WroteMore(w.counting, t0, Bytes(x.source), t1, Bytes(x.name), w.Now());
    ghost var out := Bytes(x.source) + Bytes(x.name);
    t1 := w.Now();
    match x.desc {
      case ImportFunc(index) =>
        EmitIndexed(w, 0x00, index);
        WroteMore(w.counting, t0, out, t1, [0x00] + Unsigned(index), w.Now());
      case ImportMem(limits) =>
        EmitMemory(w, limits);
        WroteMore(w.counting, t0, out, t1, [0x02] + LimitsBytes(limits), w.Now());
    }
  }

  method EmitMemory(w: Writer, limits: Limits)
    requires LimitsInRange(limits) && w.Room(1 + |LimitsBytes(limits)|)
    modifies w, w.buffer
    ensures w.Room(0) && Wrote(w.counting, old(w.Now()), [0x02] + LimitsBytes(limits), w.Now())
  {
    ghost var t0 := w.Now();
    w.Write(0x02);
    ghost var t1 := w.Now();
    EmitLimits(w, limits);
    WroteMore(w.counting, t0, [0x02], t1, LimitsBytes(limits), w.Now());
  }

  method EmitExport(w: Writer, x: Export)
    requires ExportInRange(x) && w.Room(|ExportBytes(x)|)
    modifies w, w.buffer
    ensures w.Room(0) && Wrote(w.counting, old(w.Now()), ExportBytes(x), w.Now())
  {
    hide Bytes;
    ghost var t0 := w.Now();
    EmitName(w, x.name);
    ghost var t1 := w.Now();
    var tag: Byte := if x.desc.ExportFunc? then 0x00 else 0x02;
    EmitIndexed(w, tag, x.desc.id);
    WroteMore(w.counting, t0, Bytes(x.name), t1, [tag] + Unsigned(x.desc.id), w.Now());
  }

  method EmitIndex(w: Writer, f: Function)
    requires f.index < U32 && w.Room(|IndexBytes(f)|)
    modifies w, w.buffer
    ensures w.Room(0) && Wrote(w.counting, old(w.Now()), IndexBytes(f), w.Now())
  {
    w.WriteUnsigned(f.index);
  }

  // ---------- whole sections ----------

  lemma OneSection(id: Byte, content: seq<Byte>)
    ensures SectionsBytes([Section(id, content)]) == [id] + Sized(content)
    ensures |SectionsBytes([Section(id, content)])| == 1 + OBJ_SIZE + |content|
  {
    var one := [Section(id, content)];
    assert one[1..] == [];
    assert SectionsBytes(one[1..]) == [];
  }

  /** Writes the identifier of a section and leaves five bytes for its size. */
  method OpenSection(w: Writer, id: Byte) returns (patch: Writer)
    requires w.Room(1 + OBJ_SIZE)
    modifies w, w.buffer
    ensures w.Room(0) && Wrote(w.counting, old(w.Now()), [id] + Padded(0, OBJ_SIZE), w.Now())
    ensures fresh(patch) && patch.counting == w.counting && patch.buffer == w.buffer && patch.pos == old(w.pos) + 1
  {
    ghost var t0 := w.Now();
    w.Write(id);
    ghost var t1 := w.Now();
    patch := w.OpenSize();
    WroteMore(w.counting, t0, [id], t1, Padded(0, OBJ_SIZE), w.Now());
  }

  /** Stores the size of the content written since the section was opened at `t0`. */
  method CloseSection(w: Writer, patch: Writer, ghost t0: Trace, ghost id: Byte, ghost content: seq<Byte>,
                      ghost t1: Trace)
    requires w.Room(0) && patch != w && patch.counting == w.counting && patch.buffer == w.buffer
             && patch.pos == t0.pos + 1
    requires Wrote(w.counting, t0, [id] + Padded(0, OBJ_SIZE), t1) && Wrote(w.counting, t1, content, w.Now())
    requires w.counting || |t0.stored| == t0.pos
    modifies patch, w.buffer
    ensures w.Room(0) && Wrote(w.counting, t0, SectionsBytes([Section(id, content)]), w.Now())
  {
    ghost var before := Trace(t0.pos + 1, t0.stored + [id]);
    ghost var zero := Padded(0, OBJ_SIZE);
    assert t0.stored + ([id] + zero) + content == (t0.stored + [id]) + (zero + content);
    w.CloseSize(patch, before, content);
    OneSection(id, content);
    WroteMore(w.counting, t0, [id], before, Sized(content), w.Now());
  }

  lemma NoSection()
    ensures SectionsBytes([]) == []
  {
  }

  /** The count of a range and its elements. */
  method EmitTypeRange(w: Writer, xs: seq<FuncType>)
    requires |xs| < U32 && (forall i :: 0 <= i < |xs| ==> FuncTypeInRange(xs[i]))
    requires w.Room(|Counted(|xs|, TypesBytes(xs))|)
    modifies w, w.buffer
    ensures w.Room(0) && Wrote(w.counting, old(w.Now()), Counted(|xs|, TypesBytes(xs)), w.Now())
  {
    hide TypesBytes, FuncTypeBytes;
    ghost var t0 := w.Now();
    w.WriteUnsigned(|xs|);
    ghost var t1 := w.Now();
    TypesNone();
    assert xs[..0] == [] && xs[..|xs|] == xs;
    for i := 0 to |xs|
      invariant w.Room(0) && Wrote(w.counting, t1, TypesBytes(xs[..i]), w.Now())
    {
      TypesStep(xs, i);
      ghost var t2 := w.Now();
      EmitFuncType(w, xs[i]);
      WroteMore(w.counting, t1, TypesBytes(xs[..i]), t2, FuncTypeBytes(xs[i]), w.Now());
    }
    WroteMore(w.counting, t0, Unsigned(|xs|), t1, TypesBytes(xs), w.Now());
  }

  method EmitTypeSection(w: Writer, m: Module)
    requires RangesFit(m) && w.Room(|SectionsBytes(TypeSection(m))|)
    modifies w, w.buffer
    ensures w.Room(0) && Wrote(w.counting, old(w.Now()), SectionsBytes(TypeSection(m)), w.Now())
  {
    hide TypesBytes, Sized, SectionsBytes, Counted;
    NoSection();
    if m.types != [] {
      ghost var content := Counted(|m.types|, TypesBytes(m.types));
      OneSection(1, content);
      ghost var t0 := w.Now();
      var patch := OpenSection(w, 1);
      ghost var t1 := w.Now();
      EmitTypeRange(w, m.types);
      CloseSection(w, patch, t0, 1, content, t1);
    }
  }

  /** The count of a range and its elements. */
  method EmitImportRange(w: Writer, xs: seq<Import>)
    requires |xs| < U32 && (forall i :: 0 <= i < |xs| ==> ImportInRange(xs[i]))
    requires w.Room(|Counted(|xs|, ImportsBytes(xs))|)
    modifies w, w.buffer
    ensures w.Room(0) && Wrote(w.counting, old(w.Now()), Counted(|xs|, ImportsBytes(xs)), w.Now())
  {
    hide ImportsBytes, ImportBytes;
    ghost var t0 := w.Now();
    w.WriteUnsigned(|xs|);
    ghost var t1 := w.Now();
    ImportsNone();
    assert xs[..0] == [] && xs[..|xs|] == xs;
    for i := 0 to |xs|
      invariant w.Room(0) && Wrote(w.counting, t1, ImportsBytes(xs[..i]), w.Now())
    {
      ImportsStep(xs, i);
      ghost var t2 := w.Now();
      EmitImport(w, xs[i]);
      WroteMore(w.counting, t1, ImportsBytes(xs[..i]), t2, ImportBytes(xs[i]), w.Now());
    }
    WroteMore(w.counting, t0, Unsigned(|xs|), t1, ImportsBytes(xs), w.Now());
  }

  method EmitImportSection(w: Writer, m: Module)
    requires RangesFit(m) && w.Room(|SectionsBytes(ImportSection(m))|)
    modifies w, w.buffer
    ensures w.Room(0) && Wrote(w.counting, old(w.Now()), SectionsBytes(ImportSection(m)), w.Now())
  {
    hide ImportsBytes, Sized, SectionsBytes, Counted;
    NoSection();
    if m.imports != [] {
      ghost var content := Counted(|m.imports|, ImportsBytes(m.imports));
      OneSection(2, content);
      ghost var t0 := w.Now();
      var patch := OpenSection(w, 2);
      ghost var t1 := w.Now();
      EmitImportRange(w, m.imports);
      CloseSection(w, patch, t0, 2, content, t1);
    }
  }

  /** The count of a range and its elements. */
  method EmitFuncRange(w: Writer, xs: seq<Function>)
    requires |xs| < U32 && (forall i :: 0 <= i < |xs| ==> xs[i].index < U32)
    requires w.Room(|Counted(|xs|, FuncsBytes(xs))|)
    modifies w, w.buffer
    ensures w.Room(0) && Wrote(w.counting, old(w.Now()), Counted(|xs|, FuncsBytes(xs)), w.Now())
  {
    hide FuncsBytes, IndexBytes;
    ghost var t0 := w.Now();
    w.WriteUnsigned(|xs|);
    ghost var t1 := w.Now();
    FuncsNone();
    assert xs[..0] == [] && xs[..|xs|] == xs;
    for i := 0 to |xs|
      invariant w.Room(0) && Wrote(w.counting, t1, FuncsBytes(xs[..i]), w.Now())
    {
      FuncsStep(xs, i);
      ghost var t2 := w.Now();
      EmitIndex(w, xs[i]);
      WroteMore(w.counting, t1, FuncsBytes(xs[..i]), t2, IndexBytes(xs[i]), w.Now());
    }
    WroteMore(w.counting, t0, Unsigned(|xs|), t1, FuncsBytes(xs), w.Now());
  }

  method EmitFuncSection(w: Writer, m: Module)
    requires RangesFit(m) && w.Room(|SectionsBytes(FuncSection(m))|)
    modifies w, w.buffer
    ensures w.Room(0) && Wrote(w.counting, old(w.Now()), SectionsBytes(FuncSection(m)), w.Now())
  {
    hide FuncsBytes, Sized, SectionsBytes, Counted;
    NoSection();
    if m.funcs != [] {
      ghost var content := Counted(|m.funcs|, FuncsBytes(m.funcs));
      OneSection(3, content);
      ghost var t0 := w.Now();
      var patch := OpenSection(w, 3);
      ghost var t1 := w.Now();
      EmitFuncRange(w, m.funcs);
      CloseSection(w, patch, t0, 3, content, t1);
    }
  }

  /** The count of a range and its elements. */
  method EmitMemRange(w: Writer, xs: seq<Limits>)
    requires |xs| < U32 && (forall i :: 0 <= i < |xs| ==> LimitsInRange(xs[i]))
    requires w.Room(|Counted(|xs|, MemsBytes(xs))|)
    modifies w, w.buffer
    ensures w.Room(0) && Wrote(w.counting, old(w.Now()), Counted(|xs|, MemsBytes(xs)), w.Now())
  {
    hide MemsBytes, LimitsBytes;
    ghost var t0 := w.Now();
    w.WriteUnsigned(|xs|);
    ghost var t1 := w.Now();
    MemsNone();
    assert xs[..0] == [] && xs[..|xs|] == xs;
    for i := 0 to |xs|
      invariant w.Room(0) && Wrote(w.counting, t1, MemsBytes(xs[..i]), w.Now())
    {
      MemsStep(xs, i);
      ghost var t2 := w.Now();
      EmitLimits(w, xs[i]);
      WroteMore(w.counting, t1, MemsBytes(xs[..i]), t2, LimitsBytes(xs[i]), w.Now());
    }
    WroteMore(w.counting, t0, Unsigned(|xs|), t1, MemsBytes(xs), w.Now());
  }

  method EmitMemSection(w: Writer, m: Module)
    requires RangesFit(m) && w.Room(|SectionsBytes(MemSection(m))|)
    modifies w, w.buffer
    ensures w.Room(0) && Wrote(w.counting, old(w.Now()), SectionsBytes(MemSection(m)), w.Now())
  {
    hide MemsBytes, Sized, SectionsBytes, Counted;
    NoSection();
    if m.mems != [] {
      ghost var content := Counted(|m.mems|, MemsBytes(m.mems));
      OneSection(5, content);
      ghost var t0 := w.Now();
      var patch := OpenSection(w, 5);
      ghost var t1 := w.Now();
      EmitMemRange(w, m.mems);
      CloseSection(w, patch, t0, 5, content, t1);
    }
  }

  /** The count of a range and its elements. */
  method EmitExportRange(w: Writer, xs: seq<Export>)
    requires |xs| < U32 && (forall i :: 0 <= i < |xs| ==> ExportInRange(xs[i]))
    requires w.Room(|Counted(|xs|, ExportsBytes(xs))|)
    modifies w, w.buffer
    ensures w.Room(0) && Wrote(w.counting, old(w.Now()), Counted(|xs|, ExportsBytes(xs)), w.Now())
  {
    hide ExportsBytes, ExportBytes;
    ghost var t0 := w.Now();
    w.WriteUnsigned(|xs|);
    ghost var t1 := w.Now();
    ExportsNone();
    assert xs[..0] == [] && xs[..|xs|] == xs;
    for i := 0 to |xs|
      invariant w.Room(0) && Wrote(w.counting, t1, ExportsBytes(xs[..i]), w.Now())
    {
      ExportsStep(xs, i);
      ghost var t2 := w.Now();
      EmitExport(w, xs[i]);
      WroteMore(w.counting, t1, ExportsBytes(xs[..i]), t2, ExportBytes(xs[i]), w.Now());
    }
    WroteMore(w.counting, t0, Unsigned(|xs|), t1, ExportsBytes(xs), w.Now());
  }

  method EmitExportSection(w: Writer, m: Module)
    requires RangesFit(m) && w.Room(|SectionsBytes(ExportSection(m))|)
    modifies w, w.buffer
    ensures w.Room(0) && Wrote(w.counting, old(w.Now()), SectionsBytes(ExportSection(m)), w.Now())
  {
    hide ExportsBytes, Sized, SectionsBytes, Counted;
    NoSection();
    if m.exports != [] {
      ghost var content := Counted(|m.exports|, ExportsBytes(m.exports));
      OneSection(7, content);
      ghost var t0 := w.Now();
      var patch := OpenSection(w, 7);
      ghost var t1 := w.Now();
      EmitExportRange(w, m.exports);
      CloseSection(w, patch, t0, 7, content, t1);
    }
  }

  method EmitStartSection(w: Writer, m: Module)
    requires RangesFit(m) && w.Room(|SectionsBytes(StartSection(m))|)
    modifies w, w.buffer
    ensures w.Room(0) && Wrote(w.counting, old(w.Now()), SectionsBytes(StartSection(m)), w.Now())
  {
    hide Sized, SectionsBytes;
    NoSection();
    if m.start.Some? {
      OneSection(8, Unsigned(m.start.value));
      EmitNumberSection(w, 8, m.start.value);
    }
  }

  method EmitDataCountSection(w: Writer, m: Module)
    requires RangesFit(m) && w.Room(|SectionsBytes(DataCountSection(m))|)
    modifies w, w.buffer
    ensures w.Room(0) && Wrote(w.counting, old(w.Now()), SectionsBytes(DataCountSection(m)), w.Now())
  {
    hide Sized, SectionsBytes;
    NoSection();
    if m.datas != [] {
      OneSection(12, Unsigned(|m.datas|));
      EmitNumberSection(w, 12, |m.datas|);
    }
  }

  /** A section that holds one number. */
  method EmitNumberSection(w: Writer, id: Byte, n: nat)
    requires n < U32 && w.Room(1 + OBJ_SIZE + |Unsigned(n)|)
    modifies w, w.buffer
    ensures w.Room(0) && Wrote(w.counting, old(w.Now()), SectionsBytes([Section(id, Unsigned(n))]), w.Now())
  {
    ghost var t0 := w.Now();
    var patch := OpenSection(w, id);
    ghost var t1 := w.Now();
    w.WriteUnsigned(n);
    CloseSection(w, patch, t0, id, Unsigned(n), t1);
  }
}
