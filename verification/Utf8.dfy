/** The text of a printed object name: rows are bytes, and the analyser reads them as UTF-8
    (section 3 of RFC 3629). */
module Utf8 {
  import opened Words
  import ObjectNames

  type Bytes = ObjectNames.Bytes

  function CharBytes(c: char): (bs: Bytes)
    ensures bs != []
    ensures if c < '\U{80}' then bs == [c as int] else forall i | 0 <= i < |bs| :: bs[i] >= 0x80
    ensures bs[|bs| - 1] < 0xC0
  {
    var n := c as int;
    if n < 0x80 then [n]
    else if n < 0x800 then [0xC0 + n / 64, 0x80 + n % 64]
    else if n < 0x1_0000 then [0xE0 + n / 4096, 0x80 + n / 64 % 64, 0x80 + n % 64]
    else [0xF0 + n / 262144, 0x80 + n / 4096 % 64, 0x80 + n / 64 % 64, 0x80 + n % 64]
  }

  function Encoded(t: string): Bytes {
    if t == "" then [] else CharBytes(t[0]) + Encoded(t[1..])
  }

  /** A character of each length. */
  lemma EncodingHappens()
    ensures CharBytes('A') == [0x41] && CharBytes('\U{e9}') == [0xC3, 0xA9]
    ensures CharBytes('\U{20ac}') == [0xE2, 0x82, 0xAC] && CharBytes('\U{1f600}') == [0xF0, 0x9F, 0x98, 0x80]
  {
  }

  // ================= a text is determined by its bytes =================

  /** How many bytes a character takes, told by the first. */
  function Length(first: U8): nat {
    if first < 0x80 then 1 else if first < 0xE0 then 2 else if first < 0xF0 then 3 else 4
  }

  lemma FirstTellsLength(c: char)
    ensures |CharBytes(c)| == Length(CharBytes(c)[0])
  {
  }

  lemma SameChar(a: char, b: char)
    requires CharBytes(a) == CharBytes(b)
    ensures a == b
  {
    var n, m := a as int, b as int;
    FirstTellsLength(a);
    FirstTellsLength(b);
    Digits64(n);
    Digits64(m);
  }

  /** A number is made of its last three digits to the base 64 and what is left. */
  lemma Digits64(n: nat)
    ensures n == n / 64 * 64 + n % 64
    ensures n / 64 == n / 4096 * 64 + n / 64 % 64
    ensures n / 4096 == n / 262144 * 64 + n / 4096 % 64
  {
  }

  lemma {:induction false} EncodedInjective(a: string, b: string)
    requires Encoded(a) == Encoded(b)
    ensures a == b
  {
    if a != "" && b != "" {
      FirstTellsLength(a[0]);
      FirstTellsLength(b[0]);
      assert CharBytes(a[0])[0] == Encoded(a)[0] && CharBytes(b[0])[0] == Encoded(b)[0];
      var n := |CharBytes(a[0])|;
      assert Encoded(a)[..n] == CharBytes(a[0]) && Encoded(b)[..n] == CharBytes(b[0]);
      assert Encoded(a)[n..] == Encoded(a[1..]) && Encoded(b)[n..] == Encoded(b[1..]);
      SameChar(a[0], b[0]);
      EncodedInjective(a[1..], b[1..]);
      assert a == [a[0]] + a[1..] && b == [b[0]] + b[1..];
    }
  }

  // ================= bytes that are no text =================

  lemma {:induction false} EndsWithin(t: string)
    requires t != ""
    ensures Encoded(t) != [] && Encoded(t)[|Encoded(t)| - 1] < 0xC0
  {
    if t[1..] != "" { EndsWithin(t[1..]); }
  }

  /** A name cut off inside a character, behind its first byte, prints a row that is no UTF-8. */
  lemma CutNameIsNoText(oid: Bytes, t: string)
    requires oid != [] && oid[|oid| - 1] >= 0xC0
    ensures Encoded(t) != ObjectNames.Encode(oid)
  {
    var printed := ObjectNames.Encode(oid);
    assert printed[|printed| - 1] == oid[|oid| - 1];
    if t != "" { EndsWithin(t); }
  }

  // ================= the printed name as a text =================

  function AsText(bs: Bytes): (t: string)
    ensures |t| == |bs|
  {
    seq(|bs|, i requires 0 <= i < |bs| => bs[i] as char)
  }

  function Escaped(t: string, size: nat): string {
    if t == "" then ""
    else (if t[0] < '\U{80}' then AsText(ObjectNames.CodeOf(t[0] as int, size)) else [t[0]]) + Escaped(t[1..], size)
  }

  /** What the analyser sees of an object whose name is this text. */
  function Printed(t: string): string {
    if t == "" then "-" else Escaped(t, |Encoded(t)|)
  }

  lemma {:induction false} EncodedConcat(a: string, b: string)
    ensures Encoded(a + b) == Encoded(a) + Encoded(b)
  {
    if a == "" {
      assert a + b == b;
    } else {
      assert (a + b)[0] == a[0] && (a + b)[1..] == a[1..] + b;
      EncodedConcat(a[1..], b);
    }
  }

  lemma {:induction false} AsciiEncoded(bs: Bytes)
    requires forall i | 0 <= i < |bs| :: bs[i] < 0x80
    ensures Encoded(AsText(bs)) == bs
  {
    if bs != [] {
      assert AsText(bs)[1..] == AsText(bs[1..]);
      AsciiEncoded(bs[1..]);
      assert bs == [bs[0]] + bs[1..];
    }
  }

  lemma {:induction false} EscapeConcat(a: Bytes, b: Bytes, size: nat)
    ensures ObjectNames.EncodeFrom(a + b, size) == ObjectNames.EncodeFrom(a, size) + ObjectNames.EncodeFrom(b, size)
  {
    if b == [] {
      assert a + b == a;
    } else {
      assert (a + b)[..|a + b| - 1] == a + b[..|b| - 1];
      EscapeConcat(a, b[..|b| - 1], size);
    }
  }

  lemma {:induction false} HighBytesBare(bs: Bytes, size: nat)
    requires forall i | 0 <= i < |bs| :: bs[i] >= 0x80
    ensures ObjectNames.EncodeFrom(bs, size) == bs
  {
    if bs != [] {
      HighBytesBare(bs[..|bs| - 1], size);
      assert bs == bs[..|bs| - 1] + [bs[|bs| - 1]];
    }
  }

  lemma CharPrinted(c: char, size: nat)
    ensures var text := if c < '\U{80}' then AsText(ObjectNames.CodeOf(c as int, size)) else [c];
            Encoded(text) == ObjectNames.EncodeFrom(CharBytes(c), size)
  {
    if c < '\U{80}' {
      var bs := CharBytes(c);
      assert bs[..0] == [];
      assert ObjectNames.EncodeFrom(bs, size) == ObjectNames.CodeOf(c as int, size);
      AsciiEncoded(ObjectNames.CodeOf(c as int, size));
    } else {
      HighBytesBare(CharBytes(c), size);
      assert [c][1..] == "";
    }
  }

  lemma {:induction false} EscapedIs(t: string, size: nat)
    ensures Encoded(Escaped(t, size)) == ObjectNames.EncodeFrom(Encoded(t), size)
  {
    if t != "" {
      var first := if t[0] < '\U{80}' then AsText(ObjectNames.CodeOf(t[0] as int, size)) else [t[0]];
      CharPrinted(t[0], size);
      EscapedIs(t[1..], size);
      EncodedConcat(first, Escaped(t[1..], size));
      EscapeConcat(CharBytes(t[0]), Encoded(t[1..]), size);
    }
  }

  /** The bytes format_object_name prints for a name are those of the printed text. */
  lemma PrintedIs(t: string)
    ensures Encoded(Printed(t)) == ObjectNames.Encode(Encoded(t))
  {
    if t == "" {
      AsciiEncoded([ObjectNames.DASH]);
      assert AsText([ObjectNames.DASH]) == "-";
    } else {
      EscapedIs(t, |Encoded(t)|);
    }
  }
}
