/** The class and method names of CEPH_OSD_OP_CALL, the way both tracers copy them. */
module ClassCalls {
  import opened Words

  const CALL: U16 := 0x1401
  const CLASS_LEN: nat := 16
  const METHOD_LEN: nat := 32

  /** struct cls_op: two C strings in buffers of 16 and 32 bytes. */
  datatype Buffers = Buffers(cls: seq<U8>, call: seq<U8>)

  type ClsOp = c: Buffers | |c.cls| == CLASS_LEN && |c.call| == METHOD_LEN
    witness Buffers(seq(CLASS_LEN, _ => 0), seq(METHOD_LEN, _ => 0))

  const NO_CALL: ClsOp := Buffers(Padded([], 0, CLASS_LEN), Padded([], 0, METHOD_LEN))

  /** What an op says of its call: the two lengths, and user memory from the class name on. */
  datatype CallRead = CallRead(classLen: U8, methodLen: U8, text: seq<U8>)

  const NO_READ: CallRead := CallRead(0, 0, [])

  /** n bytes of user memory in a zeroed buffer. */
  function Padded(memory: seq<U8>, n: nat, size: nat): (buffer: seq<U8>)
    ensures |buffer| == size
  {
    seq(size, i requires 0 <= i < size => if i < n then Peek(memory, i, 0) else 0)
  }

  function From(memory: seq<U8>, at: nat): seq<U8> {
    if at <= |memory| then memory[at..] else []
  }

  /** osdtrace cuts both lengths to what the buffers hold; the method name is looked for behind the
      uncut class name. */
  function OsdNames(r: CallRead): ClsOp {
    Buffers(Padded(r.text, r.classLen % 16, CLASS_LEN), Padded(From(r.text, r.classLen), r.methodLen % 32, METHOD_LEN))
  }

  /** radostrace looks for it behind the cut one. */
  function RadosNames(r: CallRead): ClsOp {
    Buffers(Padded(r.text, r.classLen % 16, CLASS_LEN), Padded(From(r.text, r.classLen % 16), r.methodLen % 32, METHOD_LEN))
  }

  /** The call a record names. */
  predicate Names(c: ClsOp, cls: seq<U8>, call: seq<U8>) {
    UpToNul(c.cls) == cls && UpToNul(c.call) == call
  }

  lemma {:induction false} UpToFirst(s: seq<U8>, n: nat)
    requires n < |s| && s[n] == 0 && 0 !in s[..n]
    ensures UpToNul(s) == s[..n]
  {
    if n > 0 {
      assert s[0] in s[..n];
      assert s[1..][..n - 1] == s[..n][1..];
      UpToFirst(s[1..], n - 1);
      assert s[..n] == [s[0]] + s[1..][..n - 1];
    }
  }

  /** Of a name cut to n bytes the whole comes back exactly when nothing was cut. */
  lemma PaddedIff(name: seq<U8>, rest: seq<U8>, n: nat, size: nat)
    requires 0 !in name && n <= |name| && n < size
    ensures UpToNul(Padded(name + rest, n, size)) == name <==> n == |name|
  {
    var buffer := Padded(name + rest, n, size);
    assert buffer[..n] == name[..n] && buffer[n] == 0;
    assert forall b <- name[..n] :: b in name;
    UpToFirst(buffer, n);
    assert n == |name| ==> name[..n] == name;
  }

  lemma CutClassIff(cls: seq<U8>, rest: seq<U8>)
    requires 0 !in cls
    ensures UpToNul(Padded(cls + rest, |cls| % 16, CLASS_LEN)) == cls <==> |cls| < CLASS_LEN
  {
    PaddedIff(cls, rest, |cls| % 16, CLASS_LEN);
  }

  lemma CutMethodIff(call: seq<U8>, rest: seq<U8>)
    requires 0 !in call
    ensures UpToNul(Padded(call + rest, |call| % 32, METHOD_LEN)) == call <==> |call| < METHOD_LEN
  {
    PaddedIff(call, rest, |call| % 32, METHOD_LEN);
  }

  lemma Behind(a: seq<U8>, b: seq<U8>)
    ensures From(a + b, |a|) == b
  {
  }

  /** osdtrace records a call's names exactly when both fit their buffers. */
  lemma OsdNamesIff(cls: seq<U8>, call: seq<U8>, rest: seq<U8>)
    requires |cls| < 0x100 && |call| < 0x100 && 0 !in cls && 0 !in call
    ensures Names(OsdNames(CallRead(|cls|, |call|, cls + (call + rest))), cls, call)
            <==> |cls| < 16 && |call| < 32
  {
    Behind(cls, call + rest);
    CutClassIff(cls, call + rest);
    CutMethodIff(call, rest);
  }

  lemma SameClass(cls: seq<U8>, text: seq<U8>)
    requires |cls| < 16
    ensures From(cls + text, |cls| % 16) == text
  {
    Behind(cls, text);
  }

  /** So does radostrace. */
  lemma RadosNamesIff(cls: seq<U8>, call: seq<U8>, rest: seq<U8>)
    requires |cls| < 0x100 && |call| < 0x100 && 0 !in cls && 0 !in call
    ensures Names(RadosNames(CallRead(|cls|, |call|, cls + (call + rest))), cls, call)
            <==> |cls| < 16 && |call| < 32
  {
    CutClassIff(cls, call + rest);
    if |cls| < CLASS_LEN {
      SameClass(cls, call + rest);
      CutMethodIff(call, rest);
    }
  }

  /** Byte i of a stretch that starts at `at`, if it belongs to the first n and to the text. */
  function ByteOf(text: seq<U8>, at: nat, i: nat, n: nat): U8 {
    if i < n && at + i < |text| then text[at + i] else 0
  }

  /** Of longer names, both tracers take the first bytes, in buffers of zeros; they differ in where
      they look for the method. */
  lemma NamesAre(r: CallRead)
    ensures |OsdNames(r).cls| == |RadosNames(r).cls| == 16 && |OsdNames(r).call| == |RadosNames(r).call| == 32
    ensures forall i | 0 <= i < 16 :: OsdNames(r).cls[i] == RadosNames(r).cls[i] == ByteOf(r.text, 0, i, r.classLen % 16)
    ensures forall i | 0 <= i < 32 :: OsdNames(r).call[i] == ByteOf(r.text, r.classLen, i, r.methodLen % 32)
    ensures forall i | 0 <= i < 32 :: RadosNames(r).call[i] == ByteOf(r.text, r.classLen % 16, i, r.methodLen % 32)
  {
  }
}
