/** Concrete comparisons of str.h's view: equal text, one differing byte,
    case, a length mismatch and the empty view, each stated over a small
    memory image in which the view's bytes and the C string lie side by
    side. */
module StrCases {
  import opened CString
  import opened StrView

  /** The bytes of an ASCII text, one byte per character. */
  function Ascii(s: string): (b: seq<byte>)
    requires forall i :: 0 <= i < |s| ==> s[i] as int < 256
    ensures |b| == |s| && forall i :: 0 <= i < |s| ==> b[i] as int == s[i] as int
  {
    if s == [] then [] else [s[0] as int as byte] + Ascii(s[1..])
  }

  /** Str("hello", 5) == "hello" holds. */
  lemma HelloEqualsHello()
    ensures var mem := Ascii("hello") + Ascii("hello") + [NUL];
            Str(0, 5).Readable(mem) && IsCString(mem, 5) && Str(0, 5).Equals(mem, 5)
  {
    var mem := Ascii("hello") + Ascii("hello") + [NUL];
    assert mem[10] == NUL;
    StrlenUnique(mem, 5, 5);
    assert mem[0..5] == mem[5..10];
  }

  /** Str("hellp", 5) == "hello" fails on the last byte. */
  lemma HellpIsNotHello()
    ensures var mem := Ascii("hellp") + Ascii("hello") + [NUL];
            Str(0, 5).Readable(mem) && IsCString(mem, 5) && !Str(0, 5).Equals(mem, 5)
  {
    var mem := Ascii("hellp") + Ascii("hello") + [NUL];
    assert mem[10] == NUL;
    DifferingByteNeverEqual(mem, Str(0, 5), 5, 4);
  }

  /** Str("ABC", 3) == "abc" fails: upper and lower case are different bytes. */
  lemma UpperIsNotLower()
    ensures var mem := Ascii("ABC") + Ascii("abc") + [NUL];
            Str(0, 3).Readable(mem) && IsCString(mem, 3) && !Str(0, 3).Equals(mem, 3)
  {
    var mem := Ascii("ABC") + Ascii("abc") + [NUL];
    assert mem[6] == NUL;
    DifferingByteNeverEqual(mem, Str(0, 3), 3, 0);
  }

  /** A view of the first 3 bytes of "abcd" compared with "abcd" fails on the
      length alone, although its 3 bytes agree with the string's first 3. */
  lemma ShortViewIsNotLongerString()
    ensures var mem := Ascii("abcd") + [NUL];
            Str(0, 3).Readable(mem) && IsCString(mem, 0) &&
            Strlen(mem, 0) == 4 && !Str(0, 3).Equals(mem, 0)
  {
    var mem := Ascii("abcd") + [NUL];
    assert mem[4] == NUL;
    StrlenUnique(mem, 0, 4);
  }

  /** An empty view equals "" and not "x". */
  lemma EmptyViewCases()
    ensures var mem := Ascii("x") + [NUL];
            IsCString(mem, 0) && IsCString(mem, 1) &&
            Str(0, 0).Equals(mem, 1) && !Str(0, 0).Equals(mem, 0)
  {
    var mem := Ascii("x") + [NUL];
    assert mem[1] == NUL;
    EmptyViewEqualsOnlyEmpty(mem, 0, 1);
    EmptyViewEqualsOnlyEmpty(mem, 0, 0);
  }
}
