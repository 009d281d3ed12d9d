# Str: a bounded string view compared with C strings

`str.h` defines `Str`, a borrowed, non-owning view of character data made of
a pointer `ptr` and an explicit length `len`. It has one constructor, which
stores both verbatim, and one operation, `operator==(const char*)`. That
operation computes `strlen` of its argument, answers "not equal" when that
differs from `len`, and otherwise answers whether `strncmp` finds no
difference among the first `len` bytes.

The model has three modules:

- `CString` (`cstring.dfy`) holds the two C library functions the operator
  calls, over an explicit memory. Memory is a `seq<byte>` of readable bytes
  and a pointer is an index into it. `Strlen` follows section 7.24.6.3 of ISO
  C11: the number of characters before the terminating null character.
  `StrncmpIsZero` follows section 7.24.4.4 of ISO C11: whether `strncmp`
  returns zero, comparing at most `n` characters and none after a null
  character. `StrncmpReadable` holds exactly when every pair `strncmp` reads
  lies in readable memory.
  `IsCString` is the obligation on `operator==`'s argument: a NUL lies at or
  after it inside readable memory.
- `StrView` (`str.dfy`) holds the view. `Str(ptr, len)` is a datatype
  value, and the datatype constructor plays the part of the C++
  constructor (`str.h:7-10`): it stores both arguments unchanged, copies no
  bytes and checks nothing. `Str.Readable` is the caller's obligation for
  the view's lifetime: `ptr` is a valid pointer, inside readable memory or
  one past its end, and each of the `len` bytes from it is readable.
  `Str.Equals` is `operator==`. The lemmas state what the comparison means.
- `StrCases` (`str_cases.dfy`) holds concrete comparisons: equal text
  (`"hello"`), one differing byte (`"hellp"`), case (`"ABC"` against
  `"abc"`), a length mismatch (3 bytes of `"abcd"` against `"abcd"`) and the
  empty view.

A view stores an address, not bytes. So `Equals` takes the memory as it is
at the time of the comparison. `ViewSeesLaterWrites` shows that the view
copied nothing: a later write into its bytes changes the answer.

`Str` is immutable, as its `const` fields and `const` operator make it in
`str.h:11` and `str.h:18-19`. In the model it is a datatype value, and
`Equals` is a function, so no operation can change a view.

## Model

| member | source | states |
|---|---|---|
| `CString.Strlen` | str.h:12 | the result n has a NUL at str + n and no NUL in the n bytes before it, all inside readable memory |
| `CString.IsCStringIffNulInTail` | str.h:11-12 | the argument is a C string iff the bytes from its address to the end of readable memory contain a NUL, which is what strlen needs |
| `CString.StrncmpReadableIff` | str.h:15 | strncmp over at most n characters reads only readable memory iff the pair at every offset below n that the scan reaches (all earlier pairs equal and not NUL) is readable at both addresses; valid pointers are a separate requirement of StrncmpIsZero |
| `CString.StrncmpIsZero` | str.h:15 | strncmp reports no difference iff the two strings hold the same byte at every position below n up to and including the first NUL of the first string |
| `CString.StrncmpReadableWithin` | str.h:15 | when n bytes are readable at both addresses, strncmp over n bytes reads only readable memory, whatever the bytes are |
| `CString.StrncmpIsZeroIffPrefixesEqual` | str.h:15 | when the second string has no NUL in its first n bytes, strncmp reports no difference iff the two n-byte prefixes are equal |
| `StrView.Str.Readable` | str.h:7-10 | the view's obligation holds iff ptr is a valid pointer (inside readable memory or one past its end, even for an empty view) and each of the len bytes from ptr is readable |
| `StrView.Str.Equals` | str.h:11-16 | a length mismatch gives false; overall, the view equals the C string iff strlen of the string is len and the string's first len bytes are the view's bytes |
| `StrView.StrlenUnique` | str.h:12 | any k with a NUL at str + k and none before it is strlen of str |
| `StrView.EqualsIffTerminatedCopy` | str.h:11-16 | the view equals the C string iff the view holds no NUL and the string's bytes are the view's bytes followed by a NUL |
| `StrView.EmptyViewEqualsOnlyEmpty` | str.h:12-15 | a view of length 0, wherever in memory it points, equals exactly the empty C string |
| `StrView.DifferingByteNeverEqual` | str.h:15 | one differing byte below len makes the comparison false |
| `StrView.NulInViewNeverEqual` | str.h:12-15 | a view with a NUL among its len bytes equals no C string |
| `StrView.EqualsOwnTerminatedString` | str.h:11-16 | a NUL-free view followed by a NUL equals the C string at its own address |
| `StrView.StrlenIgnoresOtherWrites` | str.h:12 | a write outside a C string and its terminator leaves its strlen unchanged |
| `StrView.ViewSeesLaterWrites` | str.h:7-10 | the constructor Str(data, length) copies no bytes: after a write into the viewed bytes, away from the compared string, a comparison that held no longer holds (that it stores its two arguments unchanged follows from the datatype itself) |
| `StrCases.HelloEqualsHello` | str.h:11-16 | a view of "hello" with length 5 equals "hello" |
| `StrCases.HellpIsNotHello` | str.h:15 | a view of "hellp" with length 5 does not equal "hello" |
| `StrCases.UpperIsNotLower` | str.h:15 | a view of "ABC" with length 3 does not equal "abc": no case folding |
| `StrCases.ShortViewIsNotLongerString` | str.h:12-14 | a view of the first 3 bytes of "abcd" does not equal "abcd", whose strlen is 4 |
| `StrCases.EmptyViewCases` | str.h:12-15 | an empty view equals "" and does not equal "x" |

## Left out

- Pointer lifetime and borrowing. They become preconditions: the view's
  pointer is valid and each of its `len` bytes is readable (`Str.Readable`),
  and the compared string is NUL-terminated inside readable memory
  (`IsCString`). Section 7.24.1 of ISO C11 asks for valid pointers even
  when `strncmp`'s count is zero, so an empty view must point inside
  readable memory or one past its end too. What happens when
  either fails is undefined behaviour in C and is not modelled.
- The sign and ordering of `strncmp`'s result. The source only tests it for
  zero, so `StrncmpIsZero` returns a boolean.
- The width of `size_t`. Lengths are `nat`. The source does no arithmetic on
  them, and `strlen` of a string inside memory is below the memory's size.
- `#pragma once` and `#include <string.h>` (`str.h:1-3`): build plumbing.
- A `const char* == Str` operator, `!=`, and conversions: `str.h` defines
  none of them, so the model has none.
- Running time, the short-circuit as a timing claim, and thread safety.
  Nothing is concurrent, and cost is not modelled.
