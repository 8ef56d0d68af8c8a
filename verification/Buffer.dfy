/** src/Buffer.cc: one growing array with a read and a write offset, used as a byte queue. */
module Buffers {
  import opened Text

  const BUFFER_DEFAULT_SIZE: nat := 1024

  /** The first line of a byte string, newline included; empty when there is no newline yet. */
  function FirstLine(s: string): (line: string)
    ensures line <= s
    ensures line == [] <==> '\n' !in s
    ensures line != [] ==> line[|line| - 1] == '\n' && '\n' !in line[..|line| - 1]
  {
    var i := IndexOf(s, '\n');
    if i == |s| then
      assert s[..i] == s;
      []
    else
      assert s[..i + 1][..i] == s[..i];
      s[..i + 1]
  }

  function Max(a: nat, b: nat): nat {
    if a < b then b else a
  }

  class Buffer {
    var readIdx: nat
    var writeIdx: nat
    var data: array<char>
    /** The largest `readable + len` any write has asked for. */
    ghost var peak: nat

    ghost predicate Valid()
      reads this
    {
      && readIdx <= writeIdx <= data.Length
      && data.Length <= Max(BUFFER_DEFAULT_SIZE, 2 * peak)
    }

    /** The queue of bytes that were written and not read yet. */
    ghost function Contents(): (s: string)
      requires Valid()
      reads this, data
      ensures |s| == writeIdx - readIdx
    {
      data[readIdx..writeIdx]
    }

    constructor ()
      ensures Valid() && fresh(data) && peak == 0
      ensures Contents() == [] && data.Length == BUFFER_DEFAULT_SIZE
    {
      readIdx, writeIdx, peak := 0, 0, 0;
      data := new char[BUFFER_DEFAULT_SIZE];
    }

    method HeadIdleSize() returns (n: nat)
      requires Valid()
      ensures n == readIdx
    {
      n := readIdx;
    }

    method TailIdleSize() returns (n: nat)
      requires Valid()
      ensures n == data.Length - writeIdx
    {
      n := data.Length - writeIdx;
    }

    method ReadableBytes() returns (n: nat)
      requires Valid()
      ensures n == |Contents()|
    {
      n := writeIdx - readIdx;
    }

    method MoveReadoffset(len: nat)
      requires Valid() && len <= |Contents()|
      modifies this`readIdx
      ensures Valid()
      ensures Contents() == old(Contents())[len..]
    {
      readIdx := readIdx + len;
    }

    method MoveWriteoffset(len: nat)
      requires Valid() && len <= data.Length - writeIdx
      modifies this`writeIdx
      ensures Valid()
      ensures writeIdx == old(writeIdx) + len
      ensures Contents() == old(Contents()) + data[old(writeIdx)..old(writeIdx) + len]
    {
      writeIdx := writeIdx + len;
    }

    /** std::copy(first, last, d) front to back inside one array; defined only when the target is not
        inside the source range, which the moves of this class never violate. */
    method CopyLeft(src: nat, len: nat)
      requires 0 < src && src + len <= data.Length
      modifies data
      ensures data[..len] == old(data[src..src + len])
    {
      var i := 0;
      while i < len
        invariant 0 <= i <= len
        invariant forall k :: 0 <= k < i ==> data[k] == old(data[src + k])
        invariant forall k :: i <= k < data.Length ==> data[k] == old(data[k])
      {
        data[i] := data[src + i];
        i := i + 1;
      }
    }

    /** Makes room for `len` bytes: nothing to do, compaction to the left, or growth to exactly
        `writeIdx + len`.  The queue is untouched, and the array is replaced only when compaction
        could not have been enough. */
    method EnsureWritableBytes(len: nat)
      requires Valid()
      modifies this, data
      ensures Valid() && len <= data.Length - writeIdx
      ensures peak == Max(old(peak), old(|Contents()|) + len)
      ensures Contents() == old(Contents())
      ensures data == old(data) || fresh(data)
      ensures data == old(data) <==> old(|Contents()|) + len <= old(data.Length)
      ensures old(data.Length) <= data.Length
    {
      var tail := TailIdleSize();
      var readable := ReadableBytes();
      peak := Max(peak, readable + len);
      if tail >= len {
        return;
      }
      var head := HeadIdleSize();
      if head + tail >= len {
        CopyLeft(readIdx, readable);
        readIdx := 0;
        writeIdx := readable;
      } else {
        var grown := new char[writeIdx + len];
        var i := 0;
        while i < data.Length
          invariant 0 <= i <= data.Length <= grown.Length
          invariant forall k :: 0 <= k < i ==> grown[k] == data[k]
          modifies grown
        {
          grown[i] := data[i];
          i := i + 1;
        }
        assert grown[readIdx..writeIdx] == data[readIdx..writeIdx];
        data := grown;
      }
    }

    /** Copies `bytes` behind the queue without moving the write offset. */
    method Write(bytes: string)
      requires Valid()
      modifies this, data
      ensures Valid() && |bytes| <= data.Length - writeIdx
      ensures Contents() == old(Contents())
      ensures data[writeIdx..writeIdx + |bytes|] == bytes
      ensures data == old(data) || fresh(data)
      ensures bytes == [] ==> peak == old(peak)
      ensures bytes != [] ==> peak == Max(old(peak), old(|Contents()|) + |bytes|)
    {
      if |bytes| == 0 {
        return;
      }
      EnsureWritableBytes(|bytes|);
      var i := 0;
      while i < |bytes|
        invariant 0 <= i <= |bytes|
        invariant forall k :: 0 <= k < i ==> data[writeIdx + k] == bytes[k]
        invariant Contents() == old(Contents())
        modifies data
      {
        data[writeIdx + i] := bytes[i];
        i := i + 1;
      }
    }

    method WriteAndpush(bytes: string)
      requires Valid()
      modifies this, data
      ensures Valid()
      ensures Contents() == old(Contents()) + bytes
      ensures data == old(data) || fresh(data)
      ensures bytes != [] ==> peak == Max(old(peak), |Contents()|)
    {
      Write(bytes);
      MoveWriteoffset(|bytes|);
    }

    /** Appends what another buffer holds; the other buffer keeps its bytes. */
    method WriteBufferAndpush(other: Buffer)
      requires Valid() && other.Valid() && other != this && other.data != data
      modifies this, data
      ensures Valid() && other.Valid()
      ensures Contents() == old(Contents()) + other.Contents()
      ensures other.Contents() == old(other.Contents())
      ensures data == old(data) || fresh(data)
    {
      var bytes := other.data[other.readIdx..other.writeIdx];
      WriteAndpush(bytes);
    }

    method ReadAsstring(len: nat) returns (s: string)
      requires Valid() && len <= |Contents()|
      ensures s == Contents()[..len]
    {
      s := data[readIdx..readIdx + len];
    }

    method ReadAsstringandpop(len: nat) returns (s: string)
      requires Valid() && len <= |Contents()|
      modifies this`readIdx
      ensures Valid()
      ensures s + Contents() == old(Contents()) && |s| == len
    {
      s := ReadAsstring(len);
      MoveReadoffset(len);
    }

    /** memchr over the queue: the distance to the first newline, or -1 for a null result. */
    method FindcrLf() returns (pos: int)
      requires Valid()
      ensures pos == -1 <==> '\n' !in Contents()
      ensures pos != -1 ==> 0 <= pos < |Contents()| && Contents()[pos] == '\n'
      ensures pos != -1 ==> '\n' !in Contents()[..pos]
    {
      pos := 0;
      while readIdx + pos < writeIdx
        invariant 0 <= pos <= writeIdx - readIdx
        invariant '\n' !in Contents()[..pos]
      {
        if data[readIdx + pos] == '\n' {
          return;
        }
        assert Contents()[..pos + 1] == Contents()[..pos] + [data[readIdx + pos]];
        pos := pos + 1;
      }
      assert Contents()[..pos] == Contents();
      pos := -1;
    }

    method GetLine() returns (line: string)
      requires Valid()
      ensures line == FirstLine(Contents())
    {
      var pos := FindcrLf();
      if pos == -1 {
        return "";
      }
      IndexOfIs(Contents(), '\n', pos);
      line := ReadAsstring(pos + 1);
    }

    method GetLineAndPop() returns (line: string)
      requires Valid()
      modifies this`readIdx
      ensures Valid()
      ensures line == FirstLine(old(Contents()))
      ensures Contents() == old(Contents())[|line|..]
    {
      line := GetLine();
      MoveReadoffset(|line|);
    }
  }
}
