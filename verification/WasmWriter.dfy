/** The two writers of the emitter: one counts bytes, the other stores them in a buffer. */
module WasmWriter {
  import opened Leb128
  import opened WasmSyntax

  /** How far a writer has come, and what it has stored so far; a counting writer stores nothing. */
  datatype Trace = Trace(pos: nat, stored: seq<Byte>)

  /** Writing `s` counts its length, and stores it in a writing pass. */
  ghost predicate Wrote(counting: bool, before: Trace, s: seq<Byte>, after: Trace) {
    after.pos == before.pos + |s| && (!counting ==> after.stored == before.stored + s)
  }

  class Writer {
    const counting: bool
    const buffer: array<Byte>
    var pos: nat

    ghost predicate Room(n: nat)
      reads this
    {
      counting || pos + n <= buffer.Length
    }

    ghost function Now(): (t: Trace)
      requires Room(0)
      reads this, buffer
    {
      Trace(pos, if counting then [] else buffer[..pos])
    }

    constructor (counting: bool, buffer: array<Byte>)
      ensures this.counting == counting && this.buffer == buffer && pos == 0
    {
      this.counting, this.buffer, pos := counting, buffer, 0;
    }

    method Write(byte: Byte)
      requires Room(1)
      modifies this, buffer
      ensures Room(0) && Wrote(counting, old(Now()), [byte], Now())
    {
      if !counting {
        buffer[pos] := byte;
      }
      pos := pos + 1;
    }

    method WriteAll(data: seq<Byte>)
      requires Room(|data|)
      modifies this, buffer
      ensures Room(0) && Wrote(counting, old(Now()), data, Now())
      ensures forall i :: pos <= i < buffer.Length ==> buffer[i] == old(buffer[i])
    {
      if !counting {
        forall i | 0 <= i < |data| {
          buffer[pos + i] := data[i];
        }
      }
      pos := pos + |data|;
    }

    method WriteUnsigned(value: nat)
      requires value < U64 && Room(|Unsigned(value)|)
      modifies this, buffer
      ensures Room(0) && Wrote(counting, old(Now()), Unsigned(value), Now())
    {
      var leb := MakeUnsigned(value, false);
      WriteAll(leb);
    }

    method WriteSigned(value: int)
      requires -(U64 / 2) <= value < U64 / 2 && Room(|Signed(value)|)
      modifies this, buffer
      ensures Room(0) && Wrote(counting, old(Now()), Signed(value), Now())
    {
      var leb := MakeSigned(value);
      WriteAll(leb);
    }

    /** How far this writer is ahead of another one, in 32 bits; counting writers do not know. */
    function Diff(other: Writer): nat
      requires other.pos <= pos
      reads this, other
    {
      if counting then 0 else (pos - other.pos) % U32
    }

    /** A copy of the writer, which keeps writing into the same buffer. */
    method Copy() returns (w: Writer)
      ensures fresh(w) && w.counting == counting && w.buffer == buffer && w.pos == pos
    {
      w := new Writer(counting, buffer);
      w.pos := pos;
    }

    /** Leaves five bytes for a size that is not known yet. */
    method OpenSize() returns (patch: Writer)
      requires Room(OBJ_SIZE)
      modifies this, buffer
      ensures Room(0) && Wrote(counting, old(Now()), Padded(0, OBJ_SIZE), Now())
      ensures fresh(patch) && patch.counting == counting && patch.buffer == buffer && patch.pos == old(pos)
    {
      patch := Copy();
      Widths();
      var leb := MakeUnsigned(0, true);
      WriteAll(leb);
    }

    /** Goes back to those five bytes and stores the number of bytes written since. */
    method CloseSize(patch: Writer, ghost before: Trace, ghost body: seq<Byte>)
      requires Room(0) && patch != this && patch.counting == counting && patch.buffer == buffer
               && patch.pos == before.pos
      requires Wrote(counting, before, Padded(0, OBJ_SIZE) + body, Now())
      requires counting || |before.stored| == before.pos
      modifies patch, buffer
      ensures Room(0) && Wrote(counting, before, Sized(body), Now())
    {
      hide Padded, Sized;
      var size := (Diff(patch) - OBJ_SIZE) % U32;
      Widths();
      var leb := MakeUnsigned(size, true);
      ghost var was := buffer[..];
      patch.WriteAll(leb);
      if !counting {
        Patched(was, buffer[..], before.stored, body, pos, leb);
        RemainderShift(|body|);
      }
      Closed(counting, before, body, leb, Now());
    }
  }

  lemma Closed(counting: bool, before: Trace, body: seq<Byte>, leb: seq<Byte>, now: Trace)
    requires now.pos == before.pos + OBJ_SIZE + |body|
    requires !counting ==> now.stored == before.stored + (leb + body)
    requires |body| % U32 < Pow128(OBJ_SIZE) && (!counting ==> leb == Padded(|body| % U32, OBJ_SIZE))
    ensures Wrote(counting, before, Sized(body), now)
  {
  }

  lemma RemainderShift(n: nat)
    ensures ((n + OBJ_SIZE) % U32 - OBJ_SIZE) % U32 == n % U32
  {
  }

  /** Only the placeholder changes. */
  lemma Patched(was: seq<Byte>, now: seq<Byte>, prefix: seq<Byte>, body: seq<Byte>, pos: nat, leb: seq<Byte>)
    requires |leb| == OBJ_SIZE && |was| == |now| && pos == |prefix| + OBJ_SIZE + |body| <= |was|
    requires was[..pos] == prefix + (Padded(0, OBJ_SIZE) + body)
    requires now[..|prefix| + OBJ_SIZE] == was[..|prefix|] + leb
    requires forall i :: |prefix| + OBJ_SIZE <= i < |now| ==> now[i] == was[i]
    ensures now[..pos] == prefix + (leb + body)
  {
    var n := |prefix| + OBJ_SIZE;
    assert was[..|prefix|] == was[..pos][..|prefix|] == prefix;
    assert now[n..pos] == was[n..pos] == was[..pos][n..] == body;
    assert now[..pos] == now[..n] + now[n..pos];
  }

  lemma WroteMore(counting: bool, a: Trace, s: seq<Byte>, b: Trace, t: seq<Byte>, c: Trace)
    requires Wrote(counting, a, s, b) && Wrote(counting, b, t, c)
    ensures Wrote(counting, a, s + t, c)
  {
    assert a.stored + s + t == a.stored + (s + t);
  }

  lemma NowPos(w: Writer)
    requires w.Room(0)
    ensures w.Now().pos == w.pos
  {
  }

  lemma WroteNothing(counting: bool, a: Trace)
    ensures Wrote(counting, a, [], a)
  {
  }

  /** In a counting pass only the length matters. */
  lemma WroteSame(counting: bool, a: Trace, s: seq<Byte>, t: seq<Byte>, b: Trace)
    requires Wrote(counting, a, s, b) && |s| == |t| && (!counting ==> s == t)
    ensures Wrote(counting, a, t, b)
  {
  }

  lemma WroteRoom(counting: bool, a: Trace, s: seq<Byte>, b: Trace)
    requires Wrote(counting, a, s, b)
    ensures b.pos == a.pos + |s|
  {
  }
}
