/** Reading modules back, after the binary format of the WebAssembly Core Specification: sections
    (5.5.2), code entries (5.5.13), instructions (5.4). */
module WasmReader {
  import opened Leb128
  import opened WasmSyntax

  // ---------- sections and sized entries ----------

  datatype Split = NoSplit | Split(front: seq<Byte>, rest: seq<Byte>)

  /** A size field and as many bytes as it says. */
  function ReadSized(s: seq<Byte>): (r: Split)
    ensures r.Split? ==> |r.rest| < |s|
  {
    match ReadUnsigned(s)
    case Truncated => NoSplit
    case Reading(n, k) =>
      if k >= 1 && 0 <= n && k + n <= |s| then Split(s[k..k + n], s[k + n..]) else NoSplit
  }

  function ReadSections(s: seq<Byte>): Option<seq<Section>>
    decreases |s|
  {
    if s == [] then Some([])
    else match ReadSized(s[1..])
      case NoSplit => None
      case Split(content, rest) =>
        match ReadSections(rest)
        case None => None
        case Some(ss) => Some([Section(s[0], content)] + ss)
  }

  /** `n` sized entries. */
  function ReadEntries(s: seq<Byte>, n: nat): Option<seq<seq<Byte>>> {
    if n == 0 then (if s == [] then Some([]) else None)
    else match ReadSized(s)
      case NoSplit => None
      case Split(entry, rest) =>
        match ReadEntries(rest, n - 1)
        case None => None
        case Some(es) => Some([entry] + es)
  }

  lemma Rejoined(a: seq<Byte>, b: seq<Byte>, c: seq<Byte>)
    ensures (a + b) + c == a + (b + c)
  {
  }

  lemma SizedReadsBack(s: seq<Byte>, rest: seq<Byte>)
    requires |s| < U32
    ensures ReadSized(Sized(s) + rest) == Split(s, rest)
  {
    Widths();
    var size := Padded(|s|, OBJ_SIZE);
    PaddedReadsBack(|s|, OBJ_SIZE, s + rest);
    var tail := s + rest;
    var all := size + tail;
    assert Sized(s) + rest == all by { Rejoined(size, s, rest); }
    hide Padded, Sized;
    assert tail[..|s|] == s && tail[|s|..] == rest;
    assert all[OBJ_SIZE..OBJ_SIZE + |s|] == tail[..|s|] && all[OBJ_SIZE + |s|..] == tail[|s|..];
  }

  /** Every size field counts exactly the content that follows it, so the sections can be told apart again. */
  lemma {:induction false} SectionsReadBack(ss: seq<Section>)
    requires forall i :: 0 <= i < |ss| ==> |ss[i].content| < U32
    ensures ReadSections(SectionsBytes(ss)) == Some(ss)
  {
    if ss != [] {
      var s, rest := SectionsBytes(ss), SectionsBytes(ss[1..]);
      assert s == [ss[0].id] + (Sized(ss[0].content) + rest);
      SizedReadsBack(ss[0].content, rest);
      SectionsReadBack(ss[1..]);
      assert ss == [Section(ss[0].id, ss[0].content)] + ss[1..];
    }
  }

  /** The function bodies, each as its bytes. */
  function EntriesOf(bodies: seq<Body>): seq<seq<Byte>> {
    if bodies == [] then [] else [BodyBytes(bodies[0])] + EntriesOf(bodies[1..])
  }

  lemma {:induction false} EntriesReadBack(bodies: seq<Body>)
    requires forall i :: 0 <= i < |bodies| ==> |BodyBytes(bodies[i])| < U32
    ensures ReadEntries(BodiesBytes(bodies), |bodies|) == Some(EntriesOf(bodies))
  {
    if bodies == [] {
      assert BodiesBytes(bodies) == [];
    } else {
      hide BodyBytes, ReadSized, Sized;
      assert BodiesBytes(bodies) == Sized(BodyBytes(bodies[0])) + BodiesBytes(bodies[1..]);
      SizedReadsBack(BodyBytes(bodies[0]), BodiesBytes(bodies[1..]));
      EntriesReadBack(bodies[1..]);
    }
  }

  lemma {:induction false} ContentIsShorter(ss: seq<Section>, i: nat)
    requires i < |ss|
    ensures |ss[i].content| <= |SectionsBytes(ss)|
  {
    if i > 0 {
      ContentIsShorter(ss[1..], i - 1);
    }
  }

  lemma {:induction false} BodyIsShorter(bodies: seq<Body>, i: nat)
    requires i < |bodies|
    ensures |BodyBytes(bodies[i])| <= |BodiesBytes(bodies)|
  {
    hide BodyBytes;
    if i > 0 {
      assert BodiesBytes(bodies) == SizedBody(bodies[0]) + BodiesBytes(bodies[1..]);
      BodyIsShorter(bodies[1..], i - 1);
    } else {
      assert BodiesBytes(bodies) == SizedBody(bodies[0]) + BodiesBytes(bodies[1..]);
    }
  }

  /** After the magic number and the version, a module of less than 4 GiB reads back as its sections, and its code
      section as its function bodies. */
  lemma ModuleReadsBack(m: Module, c: Contents)
    requires |ModuleBytes(m, c)| < U32
    ensures ModuleBytes(m, c)[..8] == [0x00, 0x61, 0x73, 0x6D, 0x01, 0x00, 0x00, 0x00]
    ensures ReadSections(ModuleBytes(m, c)[8..]) == Some(SectionsOf(m, c))
    ensures c.bodies != [] ==>
              exists i :: 0 <= i < |SectionsOf(m, c)| && SectionsOf(m, c)[i].id == 10
                          && CodeReadsBack(SectionsOf(m, c)[i].content, c.bodies)
  {
    hide SectionsOf, CodeReadsBack;
    var ss := SectionsOf(m, c);
    assert ModuleBytes(m, c)[8..] == SectionsBytes(ss);
    forall i | 0 <= i < |ss| ensures |ss[i].content| < U32 {
      ContentIsShorter(ss, i);
    }
    SectionsReadBack(ss);
    if c.bodies != [] {
      var i := CodeIsThere(m, c);
      CodeSectionReadsBack(c);
    }
  }

  lemma CodeIsThere(m: Module, c: Contents) returns (i: nat)
    requires c.bodies != []
    ensures i < |SectionsOf(m, c)| && SectionsOf(m, c)[i] == Section(10, Counted(|c.bodies|, BodiesBytes(c.bodies)))
  {
    var front := TypeSection(m) + ImportSection(m) + FuncSection(m) + MemSection(m) + ExportSection(m) + StartSection(m)
                 + DataCountSection(m);
    assert SectionsOf(m, c) == front + CodeSection(c) + DataSection(c);
    i := |front|;
  }

  /** The content of a code section: a count, and that many entries behind their sizes. */
  ghost predicate CodeReadsBack(content: seq<Byte>, bodies: seq<Body>) {
    match ReadUnsigned(content)
    case Truncated => false
    case Reading(n, k) =>
      && n == |bodies| && k <= |content|
      && ReadEntries(content[k..], |bodies|) == Some(EntriesOf(bodies))
  }

  lemma CodeSectionReadsBack(c: Contents)
    requires |BodiesBytes(c.bodies)| < U32
    ensures CodeReadsBack(Counted(|c.bodies|, BodiesBytes(c.bodies)), c.bodies)
  {
    var content := Counted(|c.bodies|, BodiesBytes(c.bodies));
    UnsignedReadsBack(|c.bodies|, BodiesBytes(c.bodies));
    assert content[|Unsigned(|c.bodies|)|..] == BodiesBytes(c.bodies);
    forall i | 0 <= i < |c.bodies| ensures |BodyBytes(c.bodies[i])| < U32 {
      BodyIsShorter(c.bodies, i);
    }
    EntriesReadBack(c.bodies);
  }
}
