/** include/log_system/buffer.hpp: the growing linear buffer of the asynchronous logger. */
module LogBuffers {

  const DEFAULT_BUFFER_SIZE: nat := 1024 * 1024
  const THRESHOLD_BUFFER_SIZE: nat := 3 * 1024 * 1024
  const INCREMENT_BUF_SIZE: nat := 1024 * 1024

  /** The capacity for `len` more bytes behind `used` ones.  A record that would exactly fill the
      buffer makes it grow as well. */
  function Grown(capacity: nat, used: nat, len: nat): nat
    requires used <= capacity
  {
    if len < capacity - used then capacity
    else if capacity < THRESHOLD_BUFFER_SIZE then capacity * 2 + len
    else capacity + INCREMENT_BUF_SIZE + len
  }

  /** A push never fills the buffer, so begin() and writepos() always point at an element; the
      buffer grows exactly when the record would fill or exceed it, in proportion to its use: it at
      least doubles below the threshold, and gets an increment more than it needs above it. */
  lemma GrownLeavesRoom(capacity: nat, used: nat, len: nat)
    requires used < capacity
    ensures used + len < Grown(capacity, used, len)
    ensures Grown(capacity, used, len) != capacity <==> capacity <= used + len
    ensures Grown(capacity, used, len) != capacity ==>
      Grown(capacity, used, len) <= 3 * (used + len) + INCREMENT_BUF_SIZE
    ensures Grown(capacity, used, len) != capacity && capacity < THRESHOLD_BUFFER_SIZE ==>
      2 * capacity + len <= Grown(capacity, used, len) <= 3 * (used + len)
    ensures Grown(capacity, used, len) != capacity && THRESHOLD_BUFFER_SIZE <= capacity ==>
      used + len + INCREMENT_BUF_SIZE < Grown(capacity, used, len) <= capacity + len + INCREMENT_BUF_SIZE
  {
  }

  class Buffer {
    var buf: array<char>
    var writePos: nat
    var readPos: nat

    /** There is always room for one more byte. */
    ghost predicate Valid()
      reads this
    {
      readPos <= writePos < buf.Length
    }

    ghost function Contents(): string
      reads this, buf
      requires Valid()
    {
      buf[readPos..writePos]
    }

    constructor ()
      ensures Valid() && fresh(buf) && Contents() == "" && readPos == 0 && buf.Length == DEFAULT_BUFFER_SIZE
    {
      buf := new char[DEFAULT_BUFFER_SIZE];
      writePos, readPos := 0, 0;
    }

    method push(data: string)
      requires Valid()
      modifies this, buf
      ensures Valid() && Contents() == old(Contents()) + data && readPos == old(readPos)
      ensures buf.Length == Grown(old(buf.Length), old(writePos), |data|)
      ensures buf == old(buf) || fresh(buf)
    {
      getenoughsize(|data|);
      forall i | 0 <= i < |data| {
        buf[writePos + i] := data[i];
      }
      movewriter(|data|);
      assert buf[readPos..writePos] == old(Contents()) + data;
    }

    method abletowritelen() returns (n: nat)
      requires Valid()
      ensures n == buf.Length - writePos && n > 0
    {
      n := buf.Length - writePos;
    }

    /** The assertion of movereader leaves the last byte alone. */
    method movereader(len: nat)
      requires Valid() && len < |Contents()|
      modifies this`readPos
      ensures Valid() && Contents() == old(Contents())[len..]
    {
      readPos := readPos + len;
    }

    method reset()
      requires Valid()
      modifies this`readPos, this`writePos
      ensures Valid() && Contents() == "" && readPos == 0
    {
      writePos := 0;
      readPos := 0;
    }

    method swap(other: Buffer)
      requires Valid() && other.Valid() && this != other && buf != other.buf
      modifies this, other
      ensures Valid() && other.Valid()
      ensures buf == old(other.buf) && other.buf == old(buf)
      ensures readPos == old(other.readPos) && other.readPos == old(readPos)
      ensures Contents() == old(other.Contents()) && other.Contents() == old(Contents())
    {
      var b, r, w := buf, readPos, writePos;
      buf, readPos, writePos := other.buf, other.readPos, other.writePos;
      other.buf, other.readPos, other.writePos := b, r, w;
    }

    method empty() returns (r: bool)
      requires Valid()
      ensures r <==> Contents() == ""
    {
      r := writePos == readPos;
    }

    method movewriter(len: nat)
      requires Valid() && writePos + len < buf.Length
      modifies this`writePos
      ensures Valid() && writePos == old(writePos) + len
    {
      writePos := writePos + len;
    }

    /** vector::resize keeps what is there. */
    method getenoughsize(len: nat)
      requires Valid()
      modifies this`buf
      ensures Valid() && writePos + len < buf.Length && Contents() == old(Contents())
      ensures buf.Length == Grown(old(buf.Length), writePos, len)
      ensures buf == old(buf) || fresh(buf)
    {
      if len < buf.Length - writePos {
        return;
      }
      var size: nat;
      if buf.Length < THRESHOLD_BUFFER_SIZE {
        size := buf.Length * 2 + len;
      } else {
        size := buf.Length + INCREMENT_BUF_SIZE + len;
      }
      var larger := new char[size];
      forall i | 0 <= i < buf.Length {
        larger[i] := buf[i];
      }
      buf := larger;
    }
  }
}
