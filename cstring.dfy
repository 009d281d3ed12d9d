/** The two functions of the C library's <string.h> that a Str comparison calls,
    modelled over an explicit byte memory: strlen (section 7.24.6.3 of ISO C11)
    and the "no difference" outcome of strncmp (section 7.24.4.4 of ISO C11).

    Memory is the sequence of readable bytes; a pointer is an index into it.
    Reading at an address is defined only below |mem|, so every requires clause
    below says which bytes a library function reads and which pointers must
    be valid. */
module CString {

  /** An unsigned char: strncmp compares bytes as unsigned char values. */
  newtype byte = b: int | 0 <= b < 256

  /** The null character that terminates a C string. */
  const NUL: byte := 0

  /** The readable memory; an address is an index into it. */
  type Memory = seq<byte>

  /** A C string starts at p: some null character lies at or after p, inside
      readable memory. */
  predicate IsCString(mem: Memory, p: nat)
  {
    exists i :: p <= i < |mem| && mem[i] == NUL
  }

  /** A C string at p is a run of bytes from p on that holds a null character
      before readable memory ends. */
  lemma IsCStringIffNulInTail(mem: Memory, p: nat)
    ensures IsCString(mem, p) <==> p <= |mem| && NUL in mem[p..]
  {
    if p <= |mem| && NUL in mem[p..] {
      var k :| 0 <= k < |mem[p..]| && mem[p..][k] == NUL;
      assert mem[p + k] == NUL;
    }
    if IsCString(mem, p) {
      var i :| p <= i < |mem| && mem[i] == NUL;
      assert mem[p..][i - p] == NUL;
    }
  }

  /** No null character among the k bytes starting at p, and all of them are
      readable. */
  predicate NulFree(mem: Memory, p: nat, k: nat)
  {
    p + k <= |mem| && forall j :: p <= j < p + k ==> mem[j] != NUL
  }

  /** strlen: the number of characters that precede the terminating null
      character of the string that starts at p. */
  function Strlen(mem: Memory, p: nat): (n: nat)
    requires IsCString(mem, p)
    ensures p + n < |mem| && mem[p + n] == NUL
    ensures NulFree(mem, p, n)
    decreases |mem| - p
  {
    var i :| p <= i < |mem| && mem[i] == NUL;
    if mem[p] == NUL then 0
    else
      assert IsCString(mem, p + 1) by { assert p + 1 <= i; }
      1 + Strlen(mem, p + 1)
  }

  /** Every pair of bytes strncmp reads when it compares at most n characters
      of the strings at s1 and s2 lies in readable memory: it reads pairs
      until the count runs out, the pair differs, or both are the null
      character. */
  predicate StrncmpReadable(mem: Memory, s1: nat, s2: nat, n: nat)
    decreases n
  {
    n == 0 ||
    (s1 < |mem| && s2 < |mem| &&
     (mem[s1] != mem[s2] || mem[s1] == NUL || StrncmpReadable(mem, s1 + 1, s2 + 1, n - 1)))
  }

  /** The pair at offset j was compared and the scan went on past it: both
      bytes readable, equal, and not the null character. */
  predicate PassedPair(mem: Memory, s1: nat, s2: nat, j: nat)
  {
    s1 + j < |mem| && s2 + j < |mem| && mem[s1 + j] == mem[s2 + j] && mem[s1 + j] != NUL
  }

  /** The pair at offset i is readable at both addresses. */
  predicate PairReadable(mem: Memory, s1: nat, s2: nat, i: nat)
  {
    s1 + i < |mem| && s2 + i < |mem|
  }

  /** strncmp reaches offset i: the scan went on past every pair below i. */
  predicate Reaches(mem: Memory, s1: nat, s2: nat, i: nat)
  {
    forall j :: 0 <= j < i ==> PassedPair(mem, s1, s2, j)
  }

  /** Reaching offset i + 1 from s1, s2 is passing the first pair and then
      reaching offset i from s1 + 1, s2 + 1. */
  lemma ReachesShift(mem: Memory, s1: nat, s2: nat, i: nat)
    ensures Reaches(mem, s1, s2, i + 1) <==>
              PassedPair(mem, s1, s2, 0) && Reaches(mem, s1 + 1, s2 + 1, i)
  {
    var t1, t2 := s1 + 1, s2 + 1;
    if PassedPair(mem, s1, s2, 0) && Reaches(mem, t1, t2, i) {
      forall j | 0 <= j < i + 1 ensures PassedPair(mem, s1, s2, j) {
        if j > 0 { assert PassedPair(mem, t1, t2, j - 1); }
      }
    }
    if Reaches(mem, s1, s2, i + 1) {
      forall j | 0 <= j < i ensures PassedPair(mem, t1, t2, j) {
        assert PassedPair(mem, s1, s2, j + 1);
      }
    }
  }

  /** The read footprint of strncmp position by position: the comparison of
      at most n characters reads only readable memory iff the pair at every
      offset i < n that the scan reaches is readable. (Whether the call is
      defined also needs valid pointers: see StrncmpIsZero.) */
  lemma {:induction false} StrncmpReadableIff(mem: Memory, s1: nat, s2: nat, n: nat)
    ensures StrncmpReadable(mem, s1, s2, n) <==>
              forall i :: 0 <= i < n && Reaches(mem, s1, s2, i) ==> PairReadable(mem, s1, s2, i)
    decreases n
  {
    if n > 0 {
      StrncmpReadableIff(mem, s1 + 1, s2 + 1, n - 1);
      assert Reaches(mem, s1, s2, 0);
      if PassedPair(mem, s1, s2, 0) {
        if StrncmpReadable(mem, s1, s2, n) {
          forall i | 0 <= i < n && Reaches(mem, s1, s2, i) ensures PairReadable(mem, s1, s2, i) {
            if i > 0 {
              ReachesShift(mem, s1, s2, i - 1);
              assert PairReadable(mem, s1 + 1, s2 + 1, i - 1);
            }
          }
        } else {
          var i :| 0 <= i < n - 1 && Reaches(mem, s1 + 1, s2 + 1, i) &&
                   !PairReadable(mem, s1 + 1, s2 + 1, i);
          ReachesShift(mem, s1, s2, i);
          assert !PairReadable(mem, s1, s2, i + 1);
        }
      } else if PairReadable(mem, s1, s2, 0) {
        forall i | 1 <= i < n ensures !Reaches(mem, s1, s2, i) {
          assert !PassedPair(mem, s1, s2, 0);
        }
      }
    }
  }

  /** Whether strncmp(s1, s2, n) returns zero: no difference among the first n
      characters, where characters after a null character are not compared.
      The result is true exactly when, at every position i < n up to and
      including the first null character of s1, the two strings hold the same
      byte. Both pointers must be valid (inside readable memory or one past
      its end) even when n is zero, as section 7.24.1 of ISO C11 requires. */
  function StrncmpIsZero(mem: Memory, s1: nat, s2: nat, n: nat): (r: bool)
    requires s1 <= |mem| && s2 <= |mem|
    requires StrncmpReadable(mem, s1, s2, n)
    ensures r <==> forall i :: 0 <= i < n && NulFree(mem, s1, i) ==>
                               s1 + i < |mem| && s2 + i < |mem| && mem[s1 + i] == mem[s2 + i]
    decreases n
  {
    if n == 0 then true
    else if mem[s1] != mem[s2] then
      assert NulFree(mem, s1, 0);
      false
    else if mem[s1] == NUL then
      assert forall i :: 0 < i < n ==> !NulFree(mem, s1, i) by {
        forall i | 0 < i < n ensures !NulFree(mem, s1, i) {
          assert s1 <= s1 < s1 + i;
        }
      }
      true
    else
      var rest := StrncmpIsZero(mem, s1 + 1, s2 + 1, n - 1);
      if rest then
        assert forall i :: 0 <= i < n && NulFree(mem, s1, i) ==>
                 s1 + i < |mem| && s2 + i < |mem| && mem[s1 + i] == mem[s2 + i] by {
          forall i | 0 <= i < n && NulFree(mem, s1, i)
            ensures s1 + i < |mem| && s2 + i < |mem| && mem[s1 + i] == mem[s2 + i]
          {
            if i > 0 {
              ShiftNulFree(mem, s1, i - 1);
              assert NulFree(mem, s1 + 1, i - 1);
              assert (s1 + 1) + (i - 1) == s1 + i;
            }
          }
        }
        true
      else
        var i :| 0 <= i < n - 1 && NulFree(mem, s1 + 1, i) &&
                 !(s1 + 1 + i < |mem| && s2 + 1 + i < |mem| && mem[s1 + 1 + i] == mem[s2 + 1 + i]);
        ShiftNulFree(mem, s1, i);
        false
  }

  /** When the first byte at s1 is not null, "no null among k + 1 bytes at s1"
      is "no null among k bytes at s1 + 1". */
  lemma ShiftNulFree(mem: Memory, s1: nat, k: nat)
    requires s1 < |mem| && mem[s1] != NUL
    ensures NulFree(mem, s1, k + 1) <==> NulFree(mem, s1 + 1, k)
  {
    if NulFree(mem, s1 + 1, k) {
      forall j | s1 <= j < s1 + k + 1 ensures mem[j] != NUL {
        if j > s1 { assert s1 + 1 <= j < s1 + 1 + k; }
      }
    }
  }

  /** strncmp never reads past n bytes: if n bytes are readable at both
      addresses, the comparison is defined whatever the bytes are. */
  lemma {:induction false} StrncmpReadableWithin(mem: Memory, s1: nat, s2: nat, n: nat)
    requires s1 + n <= |mem| && s2 + n <= |mem|
    ensures StrncmpReadable(mem, s1, s2, n)
    decreases n
  {
    if n > 0 {
      StrncmpReadableWithin(mem, s1 + 1, s2 + 1, n - 1);
    }
  }

  /** When the second string has no null character among its first n bytes,
      strncmp cannot stop early on a shared null, so "no difference" is exactly
      equality of the two n-byte prefixes. */
  lemma StrncmpIsZeroIffPrefixesEqual(mem: Memory, s1: nat, s2: nat, n: nat)
    requires s1 + n <= |mem| && NulFree(mem, s2, n)
    ensures StrncmpReadable(mem, s1, s2, n)
    ensures StrncmpIsZero(mem, s1, s2, n) <==> mem[s1..s1 + n] == mem[s2..s2 + n]
  {
    StrncmpReadableWithin(mem, s1, s2, n);
    if StrncmpIsZero(mem, s1, s2, n) {
      var a, b := mem[s1..s1 + n], mem[s2..s2 + n];
      forall i | 0 <= i < n ensures a[i] == b[i] {
        NoNulBeforeMatch(mem, s1, s2, n, i);
      }
      assert a == b;
    } else {
      var i :| 0 <= i < n && NulFree(mem, s1, i) &&
               !(s1 + i < |mem| && s2 + i < |mem| && mem[s1 + i] == mem[s2 + i]);
      assert mem[s1..s1 + n][i] != mem[s2..s2 + n][i];
    }
  }

  /** Induction step behind StrncmpIsZeroIffPrefixesEqual: while both strings
      agree and the second has no null, neither has one, so every position
      below n is compared. */
  lemma {:induction false} NoNulBeforeMatch(mem: Memory, s1: nat, s2: nat, n: nat, i: nat)
    requires s1 + n <= |mem| && NulFree(mem, s2, n)
    requires StrncmpReadable(mem, s1, s2, n) && StrncmpIsZero(mem, s1, s2, n)
    requires i < n
    ensures NulFree(mem, s1, i) && mem[s1 + i] == mem[s2 + i]
    decreases i
  {
    if i > 0 {
      NoNulBeforeMatch(mem, s1, s2, n, i - 1);
      assert mem[s2 + (i - 1)] != NUL;
      assert NulFree(mem, s1, i) by {
        forall j | s1 <= j < s1 + i ensures mem[j] != NUL {
          if j == s1 + (i - 1) {
          } else {
            assert s1 <= j < s1 + (i - 1);
          }
        }
      }
    }
  }
}
