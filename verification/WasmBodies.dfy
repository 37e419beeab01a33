/** Reading function bodies back from their bytes alone, after section 5.5.13 of the WebAssembly Core Specification. */
module WasmBodies {
  import opened Leb128
  import opened WasmSyntax
  import opened WasmCode
  import opened WasmReader
  import opened WasmParts

  /** What the bytes of a body tell of it. */
  datatype Parsed = Parsed(locals: seq<ValType>, code: seq<Item>)

  /** A number, and the type of as many locals. */
  function ReadGroup(s: seq<Byte>): Read<seq<ValType>> {
    match ReadIndex(s)
    case Malformed => Malformed
    case Read(n, rest) =>
      if rest == [] || ReadValType(rest[0]).None? then Malformed
      else Read(seq(n, _ => ReadValType(rest[0]).value), rest[1..])
  }

  function ReadGroups(s: seq<Byte>, n: nat): Read<seq<ValType>>
    decreases n
  {
    if n == 0 then Read([], s)
    else match ReadGroup(s)
      case Malformed => Malformed
      case Read(ts, rest) =>
        match ReadGroups(rest, n - 1)
        case Malformed => Malformed
        case Read(more, rest') => Read(ts + more, rest')
  }

  /** Groups of locals behind their number, then instructions up to an `end`, and nothing behind it. */
  function ReadBody(s: seq<Byte>): Option<Parsed> {
    match ReadIndex(s)
    case Malformed => None
    case Read(n, s') =>
      match ReadGroups(s', n)
      case Malformed => None
      case Read(locals, s'') =>
        match ReadItems(s'')
        case Malformed => None
        case Read(code, rest) => if rest == [0x0B] then Some(Parsed(locals, code)) else None
  }

  /** A body behind its size. */
  function ReadEntry(s: seq<Byte>): Read<Parsed> {
    match ReadSized(s)
    case NoSplit => Malformed
    case Split(entry, rest) =>
      match ReadBody(entry)
      case None => Malformed
      case Some(x) => Read(x, rest)
  }

  function ParsedOf(x: Body): Parsed {
    Parsed(x.locals, Shapes(x.code.items))
  }

  /** The number of its locals is right, and its block types can be read. */
  predicate Regular(x: Body) {
    x.fn.localsSize == |x.locals| && AllReadable(x.code.items)
  }

  lemma GroupReadsBack(t: ValType, rest: seq<Byte>)
    ensures ReadGroup(LocalBytes(t) + rest) == Read([t], rest)
  {
    var tail := [TypeByte(t)] + rest;
    assert Unsigned(1) == [0x01];
    assert LocalBytes(t) + rest == Unsigned(1) + tail;
    IndexReadsBack(1, tail);
    assert tail[1..] == rest;
    assert seq(1, _ => t) == [t];
  }

  lemma {:induction false} GroupsReadBack(ts: seq<ValType>, rest: seq<Byte>)
    ensures ReadGroups(LocalsBytes(ts) + rest, |ts|) == Read(ts, rest)
  {
    hide ReadGroup, LocalBytes;
    if ts == [] {
      assert LocalsBytes(ts) + rest == rest;
    } else {
      assert LocalsBytes(ts) + rest == LocalBytes(ts[0]) + (LocalsBytes(ts[1..]) + rest);
      GroupReadsBack(ts[0], LocalsBytes(ts[1..]) + rest);
      GroupsReadBack(ts[1..], rest);
      assert [ts[0]] + ts[1..] == ts;
    }
  }

  /** The bytes of a body give back its locals and its instructions. */
  lemma BodyIsRecovered(x: Body)
    requires Regular(x)
    ensures ReadBody(BodyBytes(x)) == Some(ParsedOf(x))
  {
    hide ReadIndex, ReadGroups, ReadItems, LocalsBytes, FormBytes, Unsigned, AllReadable, Shapes;
    var code := FormBytes(x.code.items) + [0x0B];
    var n := Unsigned(|x.locals|);
    assert BodyBytes(x) == n + (LocalsBytes(x.locals) + code);
    IndexReadsBack(|x.locals|, LocalsBytes(x.locals) + code);
    GroupsReadBack(x.locals, code);
    ItemsReadBack(x.code.items, [0x0B]);
  }

  lemma EntryIsRecovered(x: Body)
    requires Regular(x) && |BodyBytes(x)| < U32
    ensures Inverts(SizedBody, ReadEntry, x, ParsedOf(x))
  {
    hide ReadBody, BodyBytes, ReadSized, Sized;
    BodyIsRecovered(x);
    forall rest ensures ReadEntry(SizedBody(x) + rest) == Read(ParsedOf(x), rest) {
      SizedReadsBack(BodyBytes(x), rest);
    }
  }

  function AllParsed(bodies: seq<Body>): (xs: seq<Parsed>)
    ensures |xs| == |bodies| && forall i :: 0 <= i < |bodies| ==> xs[i] == ParsedOf(bodies[i])
  {
    seq(|bodies|, i requires 0 <= i < |bodies| => ParsedOf(bodies[i]))
  }

  /** The bytes of a module below 4 GiB give back all of its function bodies, locals and instructions. */
  lemma CodeIsRecovered(m: Module, c: Contents)
    requires |ModuleBytes(m, c)| < U32 && forall i :: 0 <= i < |c.bodies| ==> Regular(c.bodies[i])
    ensures var r := ReadSections(ModuleBytes(m, c)[8..]);
            r.Some? && ReadPart(ReadEntry, r.value, 10) == Some(AllParsed(c.bodies))
  {
    hide SectionsOf, Find, ReadSections, ModuleBytes, ReadEntry, Counted, Joined, SizedBody, Regular, BodyBytes;
    ModuleReadsBack(m, c);
    FindsEach(m, c, 10);
    if c.bodies != [] {
      BodiesAreShorter(m, c);
      forall i | 0 <= i < |c.bodies| ensures Inverts(SizedBody, ReadEntry, c.bodies[i], AllParsed(c.bodies)[i]) {
        BodyIsShorter(c.bodies, i);
        EntryIsRecovered(c.bodies[i]);
      }
      VectorReadsBack(SizedBody, ReadEntry, c.bodies, AllParsed(c.bodies));
    }
  }

  lemma BodiesAreShorter(m: Module, c: Contents)
    requires c.bodies != [] && |ModuleBytes(m, c)| < U32
    ensures |BodiesBytes(c.bodies)| < U32
  {
    hide SectionsOf, BodiesBytes;
    var i := CodeIsThere(m, c);
    ContentIsShorter(SectionsOf(m, c), i);
  }
}
