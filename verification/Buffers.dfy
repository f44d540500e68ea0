/** A fixed-size byte buffer written at an advancing index, as coinb1, coinb2 and cb are. One byte
    here is two hex characters there; uchar_to_hex and hex2bin_uchar translate between the two. */
module Buffers {
  import opened Bytes

  class Buffer {
    ghost var Contents: seq<byte>  // what has been written
    const data: array<byte>
    var len: nat

    ghost predicate Valid()
      reads this, data
    {
      len <= data.Length && Contents == data[..len]
    }

    constructor (capacity: nat)
      ensures Valid() && fresh(data) && data.Length == capacity && Contents == []
    {
      data := new byte[capacity];
      len, Contents := 0, [];
    }

    method Put(b: byte)
      requires Valid() && len < data.Length
      modifies this, data
      ensures Valid() && Contents == old(Contents) + [b]
    {
      data[len] := b;
      len := len + 1;
      Contents := Contents + [b];
    }

    /** Overwrite a byte already written. */
    method Set(at: nat, b: byte)
      requires Valid() && at < len
      modifies this, data
      ensures Valid() && len == old(len) && Contents == old(Contents)[at := b]
    {
      data[at] := b;
      Contents := Contents[at := b];
    }

    method PutAll(s: seq<byte>)
      requires Valid() && len + |s| <= data.Length
      modifies this, data
      ensures Valid() && Contents == old(Contents) + s
    {
      var i := 0;
      while i < |s|
        invariant i <= |s| && Valid() && len == old(len) + i
        invariant Contents == old(Contents) + s[..i]
      {
        Put(s[i]);
        i := i + 1;
      }
    }

    /** The byte-swapped "%016llx" and friends: n bytes, least significant first. */
    method PutLE(v: nat, n: nat)
      requires Valid() && len + n <= data.Length
      modifies this, data
      ensures Valid() && Contents == old(Contents) + LE(v, n)
    {
      var i: nat, rest: nat := 0, v;
      while i < n
        invariant i <= n && Valid() && len == old(len) + i
        invariant old(Contents) + LE(v, n) == Contents + LE(rest, n - i)
      {
        LEUnfold(rest, n - i);
        Put(rest % 256);
        rest := rest / 256;
        i := i + 1;
      }
    }

    method PutMarked(marker: byte, v: nat, n: nat)
      requires Valid() && len + 1 + n <= data.Length
      modifies this, data
      ensures Valid() && Contents == old(Contents) + ([marker] + LE(v, n))
    {
      Put(marker);
      PutLE(v, n);
    }

    /** append_bitcoin_varint_hex. */
    method PutVarint(n: nat)
      requires Valid() && n < TWO_64 && len + |Varint(n)| <= data.Length
      modifies this, data
      ensures Valid() && Contents == old(Contents) + Varint(n)
    {
      var w := VarintWidth(n);
      if w == 0 {
        Put(n);
      } else {
        PutMarked(VarintMarker(w), n, w);
      }
    }
  }
}
