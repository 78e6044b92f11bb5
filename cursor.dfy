/** A positioned reader over one byte stream: the part of the archive file interface
    (`seek`, `skip`, `pos`, `size`, `read8/16/32`, `readStringASCII`) the decoder uses.
    Integers are little-endian. */
module Cursors {
  import opened Wrappers

  /** Unsigned byte at `p`. */
  function U8(data: seq<bv8>, p: nat): (v: nat)
    requires p < |data|
    ensures v < 0x100
  {
    data[p] as nat
  }

  /** Little-endian unsigned 16-bit value at `p`. */
  function U16(data: seq<bv8>, p: nat): (v: nat)
    requires p + 2 <= |data|
    ensures v < 0x1_0000
  {
    U8(data, p) + 0x100 * U8(data, p + 1)
  }

  /** Little-endian unsigned 32-bit value at `p`. */
  function U32(data: seq<bv8>, p: nat): (v: nat)
    requires p + 4 <= |data|
    ensures v < 0x1_0000_0000
  {
    U16(data, p) + 0x1_0000 * U16(data, p + 2)
  }

  /** The characters of a fixed-length ASCII field up to its first NUL byte. */
  function AsciiZ(field: seq<bv8>): (s: string)
    ensures |s| <= |field|
    ensures s == "" <==> (field == [] || field[0] == 0)
    ensures forall i :: 0 <= i < |s| ==> field[i] != 0 && s[i] as int == field[i] as int
    ensures |s| == |field| || field[|s|] == 0
  {
    if field == [] || field[0] == 0 then "" else [(field[0] as int) as char] + AsciiZ(field[1..])
  }

  /** Unsigned 32-bit wrap-around of an offset computed as `quint32 + int`. */
  function Wrap32(x: int): nat
  {
    x % 0x1_0000_0000
  }

  class Cursor {
    const data: seq<bv8>
    var pos: nat

    ghost predicate Valid()
      reads this
    {
      pos <= |data|
    }

    constructor (bytes: seq<bv8>)
      ensures Valid() && data == bytes && pos == 0
    {
      data := bytes;
      pos := 0;
    }

    /** Moves to an absolute offset; an offset past the end of the stream fails. */
    method Seek(offset: int) returns (o: Outcome)
      requires Valid()
      modifies this
      ensures Valid()
      ensures o == if 0 <= offset <= |data| then Pass else Fail(TruncatedRead)
      ensures pos == if o.Pass? then offset else old(pos)
    {
      if 0 <= offset <= |data| {
        pos := offset;
        o := Pass;
      } else {
        o := Fail(TruncatedRead);
      }
    }

    /** Moves forward by `n` bytes; moving past the end of the stream fails. */
    method Skip(n: nat) returns (o: Outcome)
      requires Valid()
      modifies this
      ensures Valid()
      ensures o == if old(pos) + n <= |data| then Pass else Fail(TruncatedRead)
      ensures pos == if o.Pass? then old(pos) + n else old(pos)
    {
      o := Seek(pos + n);
    }

    method Read8() returns (r: Result<nat>)
      requires Valid()
      modifies this
      ensures Valid()
      ensures old(pos) + 1 <= |data| ==> r == Ok(U8(data, old(pos))) && pos == old(pos) + 1
      ensures old(pos) + 1 > |data| ==> r == Err(TruncatedRead) && pos == old(pos)
    {
      if pos + 1 > |data| {
        return Err(TruncatedRead);
      }
      r := Ok(U8(data, pos));
      pos := pos + 1;
    }

    method Read16() returns (r: Result<nat>)
      requires Valid()
      modifies this
      ensures Valid()
      ensures old(pos) + 2 <= |data| ==> r == Ok(U16(data, old(pos))) && pos == old(pos) + 2
      ensures old(pos) + 2 > |data| ==> r == Err(TruncatedRead) && pos == old(pos)
    {
      if pos + 2 > |data| {
        return Err(TruncatedRead);
      }
      r := Ok(U16(data, pos));
      pos := pos + 2;
    }

    method Read32() returns (r: Result<nat>)
      requires Valid()
      modifies this
      ensures Valid()
      ensures old(pos) + 4 <= |data| ==> r == Ok(U32(data, old(pos))) && pos == old(pos) + 4
      ensures old(pos) + 4 > |data| ==> r == Err(TruncatedRead) && pos == old(pos)
    {
      if pos + 4 > |data| {
        return Err(TruncatedRead);
      }
      r := Ok(U32(data, pos));
      pos := pos + 4;
    }

    /** Reads a fixed-length field of `n` bytes as an ASCII string ending at its first NUL. */
    method ReadStringAscii(n: nat) returns (r: Result<string>)
      requires Valid()
      modifies this
      ensures Valid()
      ensures old(pos) + n <= |data| ==> r == Ok(AsciiZ(data[old(pos)..old(pos) + n])) && pos == old(pos) + n
      ensures old(pos) + n > |data| ==> r == Err(TruncatedRead) && pos == old(pos)
    {
      if pos + n > |data| {
        return Err(TruncatedRead);
      }
      r := Ok(AsciiZ(data[pos..pos + n]));
      pos := pos + n;
    }
  }
}
