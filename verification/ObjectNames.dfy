/** Percent-encoding of object names in osdtrace's rows. */
module ObjectNames {
  import opened Words

  type Bytes = seq<U8>

  const DASH: U8 := 0x2d
  const PERCENT: U8 := 0x25

  /** '0' to '9', then 'A' to 'F'. */
  function HexDigit(n: nat): U8
    requires n < 16
  {
    if n < 10 then 0x30 + n else 0x41 + (n - 10)
  }

  /** Bytes printed as they are, in a name of the given size. */
  predicate Bare(c: U8, size: nat) {
    c > 0x20 && c != 0x7f && c != PERCENT && (c != DASH || size != 1)
  }

  function Escape(c: U8): Bytes {
    [PERCENT, HexDigit(c / 16), HexDigit(c % 16)]
  }

  function CodeOf(c: U8, size: nat): Bytes {
    if Bare(c, size) then [c] else Escape(c)
  }

  function EncodeFrom(name: Bytes, size: nat): Bytes {
    if name == [] then []
    else
      var last := name[|name| - 1];
      EncodeFrom(name[..|name| - 1], size) + CodeOf(last, size)
  }

  function Encode(name: Bytes): Bytes {
    if name == [] then [DASH] else EncodeFrom(name, |name|)
  }

  /** format_object_name */
  method FormatObjectName(name: Bytes) returns (result: Bytes)
    ensures result == Encode(name)
  {
    if name == [] { return [DASH]; }
    result := [];
    var i := 0;
    while i < |name|
      invariant 0 <= i <= |name| && result == EncodeFrom(name[..i], |name|)
    {
      assert name[..i + 1][..i] == name[..i];
      var c := name[i];
      if c > 0x20 && c != 0x7f && c != PERCENT && (c != DASH || |name| != 1) {
        result := result + [c];
      } else {
        result := result + [PERCENT];
        result := result + [HexDigit(c / 16)];
        result := result + [HexDigit(c % 16)];
      }
      i := i + 1;
    }
    assert name[..i] == name;
  }

  // ================= a printed name is one word =================

  /** No ASCII blank, no control byte. */
  predicate Printable(s: Bytes) {
    forall i | 0 <= i < |s| :: s[i] > 0x20 && s[i] != 0x7f
  }

  lemma {:induction false} EncodeFromPrintable(name: Bytes, size: nat)
    ensures Printable(EncodeFrom(name, size)) && |EncodeFrom(name, size)| >= |name|
  {
    if name != [] { EncodeFromPrintable(name[..|name| - 1], size); }
  }

  /** Every printed name, the empty one included, is a non-empty word of its own. */
  lemma EncodedIsWord(name: Bytes)
    ensures Encode(name) != [] && Printable(Encode(name))
  {
    if name != [] { EncodeFromPrintable(name, |name|); }
  }

  // ================= what is printed =================

  lemma {:induction false} BareStays(name: Bytes, size: nat)
    requires forall i | 0 <= i < |name| :: Bare(name[i], size)
    ensures EncodeFrom(name, size) == name
  {
    if name != [] {
      BareStays(name[..|name| - 1], size);
      assert name == name[..|name| - 1] + [name[|name| - 1]];
    }
  }

  lemma {:induction false} EscapedGrows(name: Bytes, size: nat, i: nat)
    requires i < |name| && !Bare(name[i], size)
    ensures |EncodeFrom(name, size)| > |name|
  {
    var front := name[..|name| - 1];
    if i < |front| { EscapedGrows(front, size, i); } else { EncodeFromPrintable(front, size); }
  }

  /** Not a blank, not a control byte, not a percent sign. */
  predicate Harmless(c: U8) {
    c > 0x20 && c != 0x7f && c != 0x25
  }

  /** A name is printed as it is exactly when it is not empty, not a dash, and without blanks, control
      bytes and percent signs. */
  lemma PrintedAsIsIff(name: Bytes)
    ensures Encode(name) == name <==> name != [] && name != [0x2d] && forall i | 0 <= i < |name| :: Harmless(name[i])
  {
    if i :| 0 <= i < |name| && !Bare(name[i], |name|) {
      EscapedGrows(name, |name|, i);
    } else {
      BareStays(name, |name|);
      forall i | 0 <= i < |name| ensures Harmless(name[i]) {
        assert Bare(name[i], |name|);
      }
    }
  }

  /** Anything else is a percent sign and two digits, the letters among them large. */
  lemma EscapeIs(c: U8, size: nat)
    requires c <= 0x20 || c == 0x7f || c == 0x25 || (c == 0x2d && size == 1)
    ensures Encode([]) == [0x2d]
    ensures CodeOf(c, size) == [0x25, "0123456789ABCDEF"[c / 16] as U8, "0123456789ABCDEF"[c % 16] as U8]
  {
  }

  // ================= and it can be read back =================

  function HexValue(d: U8): Option<nat> {
    if 0x30 <= d <= 0x39 then Some(d - 0x30)
    else if 0x41 <= d <= 0x46 then Some(d - 0x41 + 10)
    else None
  }

  function Push(c: U8, rest: Option<Bytes>): Option<Bytes> {
    if rest.Some? then Some([c] + rest.value) else None
  }

  function DecodeFrom(s: Bytes): Option<Bytes> {
    if s == [] then Some([])
    else if s[0] != PERCENT then Push(s[0], DecodeFrom(s[1..]))
    else if |s| < 3 || HexValue(s[1]).None? || HexValue(s[2]).None? then None
    else Push(HexValue(s[1]).value * 16 + HexValue(s[2]).value, DecodeFrom(s[3..]))
  }

  function Decode(s: Bytes): Option<Bytes> {
    if s == [DASH] then Some([]) else DecodeFrom(s)
  }

  lemma HexReads(c: U8)
    ensures HexValue(HexDigit(c / 16)) == Some(c / 16) && HexValue(HexDigit(c % 16)) == Some(c % 16)
    ensures (c / 16) * 16 + c % 16 == c
  {
  }

  function Append(front: Option<Bytes>, rest: Option<Bytes>): Option<Bytes> {
    if front.Some? && rest.Some? then Some(front.value + rest.value) else None
  }

  /** The encoding of one byte, in front of anything, is read as that byte. */
  lemma ByteReads(c: U8, size: nat, tail: Bytes)
    ensures DecodeFrom(CodeOf(c, size) + tail) == Push(c, DecodeFrom(tail))
  {
    if Bare(c, size) {
      assert ([c] + tail)[1..] == tail;
    } else {
      HexReads(c);
      assert (Escape(c) + tail)[3..] == tail;
    }
  }

  lemma AppendOne(front: Bytes, c: U8, rest: Option<Bytes>)
    ensures Append(Some(front), Push(c, rest)) == Append(Some(front + [c]), rest)
    ensures Append(Some([]), rest) == rest
  {
    if rest.Some? {
      assert front + ([c] + rest.value) == (front + [c]) + rest.value;
      assert [] + rest.value == rest.value;
    }
  }

  lemma {:induction false} NameReads(name: Bytes, size: nat, tail: Bytes)
    ensures DecodeFrom(EncodeFrom(name, size) + tail) == Append(Some(name), DecodeFrom(tail))
  {
    if name == [] {
      assert EncodeFrom(name, size) + tail == tail;
      AppendOne([], 0, DecodeFrom(tail));
    } else {
      var front, last := name[..|name| - 1], name[|name| - 1];
      var code := CodeOf(last, size);
      assert EncodeFrom(name, size) + tail == EncodeFrom(front, size) + (code + tail) by {
        Reassociate(EncodeFrom(front, size), code, tail);
      }
      assert DecodeFrom(code + tail) == Push(last, DecodeFrom(tail)) by { ByteReads(last, size, tail); }
      assert DecodeFrom(EncodeFrom(front, size) + (code + tail)) == Append(Some(front), DecodeFrom(code + tail)) by {
        NameReads(front, size, code + tail);
      }
      AppendOne(front, last, DecodeFrom(tail));
      assert front + [last] == name;
    }
  }

  lemma NotDash(name: Bytes)
    requires name != []
    ensures EncodeFrom(name, |name|) != [DASH]
  {
    EncodeFromPrintable(name, |name|);
    if |name| == 1 {
      assert name[..0] == [];
      assert EncodeFrom(name, 1) == CodeOf(name[0], 1);
    }
  }

  /** Decoding gives every name back, of any bytes. */
  lemma DecodeEncode(name: Bytes)
    ensures Decode(Encode(name)) == Some(name)
  {
    if name != [] {
      NotDash(name);
      NameReads(name, |name|, []);
      assert EncodeFrom(name, |name|) + [] == EncodeFrom(name, |name|);
      assert name + [] == name;
    }
  }

  /** Two names never print alike. */
  lemma EncodeInjective(a: Bytes, b: Bytes)
    requires Encode(a) == Encode(b)
    ensures a == b
  {
    DecodeEncode(a);
    DecodeEncode(b);
  }
}
