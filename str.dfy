/** The bounded string view of str.h: a borrowed pointer to character data
    plus an explicit length, compared against NUL-terminated C strings.

    A Str is a value: its two fields are fixed when it is built and no
    operation changes them. It holds an address, not bytes, so every
    comparison reads the memory as it is at the time of the comparison. */
module StrView {
  import opened CString

  /** The byte at offset i from address p is readable. */
  predicate ByteReadable(mem: Memory, p: nat, i: nat)
  {
    p + i < |mem|
  }

  /** A view of len bytes starting at address ptr. The datatype constructor
      Str(ptr, len) is the C++ constructor: it stores both arguments as they
      are, copies nothing and checks nothing. */
  datatype Str = Str(ptr: nat, len: nat)
  {
    /** The caller's obligation for the whole life of the view: ptr is a
        valid pointer (inside readable memory or one past its end) and every
        one of the len bytes at ptr is readable. The pointer must be valid even
        for an empty view, since section 7.24.1 of ISO C11 asks it of strncmp
        when the count is zero. No view needs a terminator at ptr + len. */
    predicate Readable(mem: Memory): (b: bool)
      ensures b <==> ptr <= |mem| && forall i :: 0 <= i < len ==> ByteReadable(mem, ptr, i)
    {
      assert len > 0 ==> ByteReadable(mem, ptr, len - 1) ==> ptr + len <= |mem|;
      ptr + len <= |mem|
    }

    /** The bytes the view stands for, as memory holds them now. */
    function Contents(mem: Memory): (s: seq<byte>)
      requires Readable(mem)
      ensures |s| == len && forall i :: 0 <= i < len ==> s[i] == mem[ptr + i]
    {
      mem[ptr..ptr + len]
    }

    /** operator==(const char* str): first the length of the C string at str
        is computed; a length different from len means "not equal" at once,
        otherwise strncmp over len bytes must find no difference. The view
        equals the C string exactly when the string is len bytes long and
        those bytes are the view's bytes. */
    function Equals(mem: Memory, str: nat): (r: bool)
      requires Readable(mem) && IsCString(mem, str)
      ensures Strlen(mem, str) != len ==> !r
      ensures r <==> Strlen(mem, str) == len && Contents(mem) == mem[str..str + len]
    {
      var rlen := Strlen(mem, str);
      if rlen != len then false
      else
        StrncmpIsZeroIffPrefixesEqual(mem, ptr, str, len);
        StrncmpIsZero(mem, ptr, str, len)
    }
  }

  /** strlen is determined by the position of the first NUL: any k with a NUL
      at str + k and none before it is the length. */
  lemma StrlenUnique(mem: Memory, str: nat, k: nat)
    requires str + k < |mem| && mem[str + k] == NUL && NulFree(mem, str, k)
    ensures IsCString(mem, str) && Strlen(mem, str) == k
  {
    assert IsCString(mem, str);
    var n := Strlen(mem, str);
    assert mem[str + n] == NUL;
  }

  /** The comparison in other words: the view equals the C string at str iff
      the view's bytes hold no NUL and, followed by a NUL, are the bytes at
      str. */
  lemma EqualsIffTerminatedCopy(mem: Memory, v: Str, str: nat)
    requires v.Readable(mem) && IsCString(mem, str)
    ensures v.Equals(mem, str) <==>
              NUL !in v.Contents(mem) && str + v.len < |mem| &&
              mem[str..str + v.len + 1] == v.Contents(mem) + [NUL]
  {
    var c := v.Contents(mem);
    if NUL !in c && str + v.len < |mem| && mem[str..str + v.len + 1] == c + [NUL] {
      assert mem[str + v.len] == mem[str..str + v.len + 1][v.len];
      assert mem[str..str + v.len] == mem[str..str + v.len + 1][..v.len];
      forall j | str <= j < str + v.len ensures mem[j] != NUL {
        assert mem[j] == c[j - str];
      }
      StrlenUnique(mem, str, v.len);
      assert c == mem[str..str + v.len];
    }
    if v.Equals(mem, str) {
      var t := mem[str..str + v.len + 1];
      assert t[..v.len] == c;
      assert t == t[..v.len] + [t[v.len]];
      forall k | 0 <= k < v.len ensures c[k] != NUL {
        assert c[k] == mem[str + k];
      }
    }
  }

  /** An empty view equals "" and no non-empty C string, wherever in memory
      it points. */
  lemma EmptyViewEqualsOnlyEmpty(mem: Memory, ptr: nat, str: nat)
    requires ptr <= |mem| && IsCString(mem, str)
    ensures Str(ptr, 0).Equals(mem, str) <==> mem[str] == NUL
  {
    if mem[str] != NUL {
      assert Strlen(mem, str) != 0;
    }
  }

  /** A single differing byte inside the first len positions makes the view
      unequal to the C string: the comparison is byte-exact and
      case-sensitive. */
  lemma DifferingByteNeverEqual(mem: Memory, v: Str, str: nat, i: nat)
    requires v.Readable(mem) && IsCString(mem, str)
    requires i < v.len && str + i < |mem| && mem[v.ptr + i] != mem[str + i]
    ensures !v.Equals(mem, str)
  {
    if Strlen(mem, str) == v.len {
      assert v.Contents(mem)[i] != mem[str..str + v.len][i];
    }
  }

  /** A view whose own bytes contain a NUL equals no C string at all: a
      string of length len has no NUL in its first len bytes. */
  lemma NulInViewNeverEqual(mem: Memory, v: Str, str: nat, i: nat)
    requires v.Readable(mem) && IsCString(mem, str)
    requires i < v.len && mem[v.ptr + i] == NUL
    ensures !v.Equals(mem, str)
  {
    if Strlen(mem, str) == v.len {
      assert str <= str + i < str + Strlen(mem, str);
      DifferingByteNeverEqual(mem, v, str, i);
    }
  }

  /** A view over a NUL-free region that is followed by a NUL equals the C
      string that starts at its own address. */
  lemma EqualsOwnTerminatedString(mem: Memory, v: Str)
    requires v.ptr + v.len < |mem| && mem[v.ptr + v.len] == NUL && NulFree(mem, v.ptr, v.len)
    ensures v.Readable(mem) && IsCString(mem, v.ptr) && v.Equals(mem, v.ptr)
  {
    StrlenUnique(mem, v.ptr, v.len);
  }

  /** strlen reads only the string and its terminator: a write elsewhere
      leaves it unchanged. */
  lemma StrlenIgnoresOtherWrites(mem: Memory, str: nat, a: nat, b: byte)
    requires IsCString(mem, str) && a < |mem|
    requires !(str <= a <= str + Strlen(mem, str))
    ensures IsCString(mem[a := b], str) && Strlen(mem[a := b], str) == Strlen(mem, str)
  {
    var n := Strlen(mem, str);
    var m := mem[a := b];
    assert m[str + n] == NUL;
    assert NulFree(m, str, n) by {
      forall j | str <= j < str + n ensures m[j] != NUL {
        assert mem[j] != NUL;
      }
    }
    StrlenUnique(m, str, n);
  }

  /** The view copies no bytes: a write into the viewed bytes after the view
      was built (and outside the C string it is compared with) is seen by the
      next comparison, which then fails where it succeeded before. */
  lemma ViewSeesLaterWrites(mem: Memory, data: nat, length: nat, str: nat, a: nat, b: byte)
    requires Str(data, length).Readable(mem) && IsCString(mem, str)
    requires Str(data, length).Equals(mem, str)
    requires data <= a < data + length && mem[a] != b
    requires !(str <= a <= str + length)
    ensures Str(data, length).Readable(mem[a := b]) && IsCString(mem[a := b], str)
    ensures !Str(data, length).Equals(mem[a := b], str)
  {
    var v := Str(data, length);
    StrlenIgnoresOtherWrites(mem, str, a, b);
    var m := mem[a := b];
    var i := a - v.ptr;
    assert v.Contents(mem)[i] == mem[str..str + v.len][i];
    DifferingByteNeverEqual(m, v, str, i);
  }
}
