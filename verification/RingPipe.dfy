/** The bounded output pipe that drops its oldest bytes. */
module RingPipe {
  import opened Sequences

  type Byte = x: int | 0 <= x < 256

  /** The last `n` bytes, or all of them when there are fewer. */
  function LastBytes(s: seq<Byte>, n: nat): (r: seq<Byte>)
    ensures |r| == if |s| < n then |s| else n
    ensures exists k :: 0 <= k <= |s| && r == s[k..]
  {
    if |s| <= n then
      assert s == s[0..];
      s
    else s[|s| - n..]
  }

  class RingPipe {
    const capacity: nat
    const buffer: array<Byte>
    var len: nat

    ghost predicate Valid()
      reads this
    {
      buffer.Length == capacity && len <= capacity
    }

    ghost function Contents(): seq<Byte>
      requires Valid()
      reads this, buffer
    {
      buffer[..len]
    }

    constructor (capacity: nat)
      ensures Valid() && this.capacity == capacity && fresh(buffer) && Contents() == []
    {
      this.capacity, buffer, len := capacity, new Byte[capacity], 0;
    }

    method Append(bytes: seq<Byte>)
      requires Valid()
      modifies this, buffer
      ensures Valid() && Contents() == LastBytes(old(Contents()) + bytes, capacity)
    {
      ghost var before := Contents();
      var total := len + |bytes|;
      var dropped := 0;
      if total > capacity {
        dropped := if total - capacity < len then total - capacity else len;
        ShiftDown(dropped);
      }
      var tail := if |bytes| > capacity then bytes[|bytes| - capacity..] else bytes;
      Extend(tail);
      KeptIsLast(before, bytes, dropped, capacity);
    }

    /** Copy what is kept to the front, then cut the length. */
    method ShiftDown(dropped: nat)
      requires Valid() && dropped <= len
      modifies this, buffer
      ensures Valid() && Contents() == old(Contents())[dropped..]
    {
      var keep := len - dropped;
      for k := 0 to keep
        invariant Valid() && len == old(len)
        invariant forall j | 0 <= j < k :: buffer[j] == old(buffer[dropped + j])
        invariant forall j | k <= j < buffer.Length :: buffer[j] == old(buffer[j])
      {
        buffer[k] := buffer[dropped + k];
      }
      len := keep;
    }

    method Extend(bytes: seq<Byte>)
      requires Valid() && len + |bytes| <= capacity
      modifies this, buffer
      ensures Valid() && Contents() == old(Contents()) + bytes
    {
      for k := 0 to |bytes|
        invariant Valid() && len == old(len)
        invariant forall j | 0 <= j < len :: buffer[j] == old(buffer[j])
        invariant forall j | 0 <= j < k :: buffer[len + j] == bytes[j]
      {
        buffer[len + k] := bytes[k];
      }
      len := len + |bytes|;
    }

    /** Any sequence of writes, of any sizes. */
    method AppendAll(writes: seq<seq<Byte>>)
      requires Valid()
      modifies this, buffer
      ensures Valid() && Contents() == After(old(Contents()), writes, |writes|, capacity)
    {
      for i := 0 to |writes|
        invariant Valid() && Contents() == After(old(Contents()), writes, i, capacity)
      {
        Append(writes[i]);
      }
    }
  }

  /** What one append keeps of the old contents and the new bytes. */
  lemma KeptIsLast(before: seq<Byte>, bytes: seq<Byte>, dropped: nat, capacity: nat)
    requires |before| <= capacity
    requires
      var total := |before| + |bytes|;
      dropped == if total <= capacity then 0 else if total - capacity < |before| then total - capacity else |before|
    ensures before[dropped..] + LastBytes(bytes, capacity) == LastBytes(before + bytes, capacity)
  {
  }

  /** The contents after the first `n` writes. */
  function After(start: seq<Byte>, writes: seq<seq<Byte>>, n: nat, capacity: nat): seq<Byte>
    requires n <= |writes|
  {
    if n == 0 then start else LastBytes(After(start, writes, n - 1, capacity) + writes[n - 1], capacity)
  }

  /** The first `n` writes, concatenated. */
  function Written(writes: seq<seq<Byte>>, n: nat): seq<Byte>
    requires n <= |writes|
  {
    if n == 0 then [] else Written(writes, n - 1) + writes[n - 1]
  }

  lemma LastOfLast(s: seq<Byte>, t: seq<Byte>, n: nat)
    ensures LastBytes(LastBytes(s, n) + t, n) == LastBytes(s + t, n)
  {
    if |s| > n {
      LastOfLong(s, t, n);
    }
  }

  lemma LastOfLong(s: seq<Byte>, t: seq<Byte>, n: nat)
    requires |s| > n
    ensures LastBytes(LastBytes(s, n) + t, n) == LastBytes(s + t, n)
  {
    var k := |s| - n;
    DropConcat(s, t, k);
    var whole := s + t;
    DropTwice(whole, k, |t|);
    assert LastBytes(whole, n) == whole[k + |t|..];
    assert LastBytes(whole[k..], n) == whole[k..][|t|..];
  }

  lemma DropConcat(s: seq<Byte>, t: seq<Byte>, k: nat)
    requires k <= |s|
    ensures s[k..] + t == (s + t)[k..]
  {
  }

  lemma DropTwice(s: seq<Byte>, j: nat, k: nat)
    requires j + k <= |s|
    ensures s[j..][k..] == s[j + k..]
  {
  }

  /** After any writes the pipe holds the last bytes of everything written. */
  lemma {:induction false} WritesKeepTheTail(start: seq<Byte>, writes: seq<seq<Byte>>, n: nat, capacity: nat)
    requires n <= |writes| && |start| <= capacity
    ensures After(start, writes, n, capacity) == LastBytes(start + Written(writes, n), capacity)
  {
    if n == 0 {
      assert start + Written(writes, 0) == start;
    } else {
      var w, before := writes[n - 1], Written(writes, n - 1);
      WritesKeepTheTail(start, writes, n - 1, capacity);
      LastOfLast(start + before, w, capacity);
      Associate(start, before, w);
    }
  }
}
