/** The growable byte buffer in front of a socket. */
module NetBuffer {
  import opened Bytes

  /** The first k bytes of s, and zeros in place of the others. */
  function Zeroed(s: seq<byte>, k: nat): (z: seq<byte>)
    ensures |z| == |s|
    ensures k >= |s| ==> z == s
  {
    seq(|s|, i requires 0 <= i < |s| => if i < k then s[i] else 0)
  }

  /**
    * The memory of a vector: `mem.Length` is its capacity and `size` its size. The bytes between the read and the
    * write position are the contents.
    */
  class Buffer {
    var mem: array<byte>
    var size: nat
    var readPos: nat
    var writePos: nat

    ghost predicate Valid()
      reads this
    {
      readPos <= writePos <= mem.Length && size <= mem.Length
    }

    /** No byte of the contents lies behind the vector's size, where the next resize would overwrite it. */
    ghost predicate Intact()
      reads this
    {
      Valid() && writePos <= size
    }

    ghost function Contents(): seq<byte>
      requires Valid()
      reads this, mem
    {
      mem[readPos..writePos]
    }

    /** Appending has to move the contents to the front to find room. */
    ghost predicate Compacts(n: nat)
      requires Valid()
      reads this
    {
      writePos + n > size && readPos > 0 && writePos - readPos + n <= mem.Length
    }

    /** Appending has to make the vector longer. */
    ghost predicate Resizes(n: nat)
      requires Valid()
      reads this
    {
      writePos + n > size && !Compacts(n)
    }

    constructor ()
      ensures Intact() && fresh(mem) && readPos == 0 && size == 0 && Contents() == []
    {
      mem := new byte[0];
      size, readPos, writePos := 0, 0, 0;
    }

    function Readable(): (s: seq<byte>)
      requires Valid()
      reads this, mem
      ensures s == Contents()
    {
      mem[readPos..writePos]
    }

    function Empty(): (b: bool)
      requires Valid()
      reads this, mem
      ensures b <==> Contents() == []
    {
      readPos == writePos
    }

    /** The vector grows to n bytes; the new ones are zero. A reallocation keeps only the bytes below the old size. */
    method Resize(n: nat)
      requires Valid() && n > size && n >= writePos
      modifies this`mem, this`size, mem
      ensures mem == old(mem) || fresh(mem)
      ensures size == n <= mem.Length && Valid()
      ensures forall i :: 0 <= i < n ==> mem[i] == if i < old(size) then old(mem[i]) else 0
    {
      if n > mem.Length {
        var capacity: nat :| capacity >= n;
        var bigger := new byte[capacity];
        forall i | 0 <= i < capacity {
          bigger[i] := if i < size then mem[i] else 0;
        }
        mem := bigger;
      } else {
        forall i | size <= i < n {
          mem[i] := 0;
        }
      }
      size := n;
    }

    /** Moves the contents to the front. */
    method Compact()
      requires Valid()
      modifies this`readPos, this`writePos, mem
      ensures Valid() && readPos == 0 && Contents() == old(Contents())
    {
      if readPos > 0 {
        var n := writePos - readPos;
        forall i | 0 <= i < n {
          mem[i] := mem[readPos + i];
        }
        readPos := 0;
        writePos := n;
      }
    }

    /** How many bytes of the contents lie below the vector's size. */
    ghost function Live(): nat
      requires Valid()
      reads this
    {
      if size > readPos then size - readPos else 0
    }

    /** Makes room for n more bytes behind the write position. */
    method MakeRoom(n: nat)
      requires Valid()
      modifies this, mem
      ensures Valid() && writePos + n <= mem.Length && (mem == old(mem) || fresh(mem))
      ensures Contents() == if old(Resizes(n)) then Zeroed(old(Contents()), old(Live())) else old(Contents())
      ensures old(Compacts(n)) ==> readPos == 0 && size == old(size)
      ensures !old(Compacts(n)) ==> readPos == old(readPos) && size == Max(old(size), old(writePos) + n)
    {
      if writePos + n > size {
        if readPos > 0 && writePos - readPos + n <= mem.Length {
          Compact();
        } else {
          Resize(writePos + n);
          assert Contents() == Zeroed(old(Contents()), old(Live()));
        }
      }
    }

    /** Copies the data behind the contents. */
    method Copy(data: seq<byte>)
      requires Valid() && writePos + |data| <= mem.Length
      modifies this`writePos, mem
      ensures Valid() && writePos == old(writePos) + |data|
      ensures Contents() == old(Contents()) + data
    {
      ghost var before := mem[..];
      forall i | 0 <= i < |data| {
        mem[writePos + i] := data[i];
      }
      CopiedBehind(before, mem[..], readPos, writePos, data);
      writePos := writePos + |data|;
      assert Contents() == mem[..][readPos..writePos];
    }

    /**
      * The bytes are added at the end. The older contents survive unless the vector is made longer while some of
      * them lie behind its size: those are overwritten with zeros.
      */
    method Append(data: seq<byte>)
      requires Valid()
      modifies this, mem
      ensures Valid() && (mem == old(mem) || fresh(mem))
      ensures Contents()
           == (if old(Resizes(|data|)) then Zeroed(old(Contents()), old(Live())) else old(Contents())) + data
      ensures old(Intact()) ==> Contents() == old(Contents()) + data
      ensures old(Intact()) ==> (Intact() <==> !old(Compacts(|data|)) || |Contents()| <= size)
      ensures old(Compacts(|data|)) ==> readPos == 0 && size == old(size)
      ensures !old(Compacts(|data|)) ==> readPos == old(readPos) && size == Max(old(size), old(writePos) + |data|)
    {
      MakeRoom(|data|);
      Copy(data);
    }

    method Consume(n: nat)
      requires Valid()
      modifies this`readPos, this`writePos
      ensures Valid() && Contents() == old(Contents())[Min(n, |old(Contents())|)..]
      ensures if n < |old(Contents())| then readPos == old(readPos) + n && writePos == old(writePos)
              else readPos == writePos == 0
      ensures old(Intact()) ==> Intact()
    {
      readPos := readPos + Min(n, writePos - readPos);
      if readPos == writePos {
        readPos := 0;
        writePos := 0;
      }
    }

    method Clear()
      requires Valid()
      modifies this`readPos, this`writePos
      ensures Intact() && readPos == 0 && Contents() == []
    {
      readPos := 0;
      writePos := 0;
    }
  }

  lemma CopiedBehind(before: seq<byte>, after: seq<byte>, i: nat, j: nat, data: seq<byte>)
    requires i <= j && j + |data| <= |before| == |after|
    requires forall k :: 0 <= k < j ==> after[k] == before[k]
    requires forall k :: 0 <= k < |data| ==> after[j + k] == data[k]
    ensures after[i..j + |data|] == before[i..j] + data
  {
    assert after[i..j] == before[i..j];
    assert after[j..j + |data|] == data;
    assert after[i..j + |data|] == after[i..j] + after[j..j + |data|];
  }

  /** A vector of five bytes in memory for eight, whose only contents are the last of the five. */
  method WipeOut(b: Buffer)
    requires b.Valid() && b.mem.Length == 8 && b.size == 5 && b.readPos == 4 && b.writePos == 5
    modifies b, b.mem
    ensures b.Valid() && b.Contents() == old(b.Contents()) + [6, 7, 8, 9, 0] + [11, 12, 13]
  {
    b.Append([6, 7, 8, 9, 10]);
    ghost var six := b.Contents();
    assert !b.Intact() && |six| == 6;
    b.Append([11, 12, 13]);
    assert Zeroed(six, 5) == six[..5] + [0];
  }

  /**
    * Four bytes, one byte, and four consumed: when capacities double, that is a vector of five bytes in memory for
    * eight. The next five bytes compact it past its size, and the three bytes behind them wipe the last of them out.
    */
  method LastByteIsWiped() returns (b: Buffer, capacity: nat)
    ensures b.Valid()
    ensures capacity == 8 ==> b.Contents() == [5, 6, 7, 8, 9, 0, 11, 12, 13]
  {
    b := new Buffer();
    b.Append([1, 2, 3, 4]);
    b.Append([5]);
    b.Consume(4);
    capacity := b.mem.Length;
    assert b.Contents() == [5];
    if capacity == 8 {
      WipeOut(b);
    }
  }
}
