/** Machine words, partial reads and the few arithmetic facts shared by every tracer. */
module Words {
  const TWO32: int := 0x1_0000_0000
  const TWO64: int := 0x1_0000_0000_0000_0000

  type U8 = x: int | 0 <= x < 0x100
  type U16 = x: int | 0 <= x < 0x1_0000
  type U32 = x: int | 0 <= x < 0x1_0000_0000
  type U64 = x: int | 0 <= x < 0x1_0000_0000_0000_0000

  datatype Option<+T> = None | Some(value: T) {
    function GetOr(default: T): T {
      if Some? then value else default
    }
  }

  /** What a probe gets for one DWARF variable: nothing when the variable has no entry in the
      field table (the read helper returns -1), otherwise whatever user memory held. */
  datatype Read<+T> = Missing | Got(value: T) {
    function Or(default: T): T {
      if Got? then value else default
    }
  }

  /** Unsigned 64-bit subtraction, with wrap-around. */
  function Sub64(a: U64, b: U64): U64 {
    if a >= b then a - b else a - b + TWO64
  }

  /** Unsigned 64-bit addition of a sign-extended offset. */
  function Add64(a: U64, offset: int): U64 {
    (a + offset) % TWO64
  }

  function Low32(x: nat): U32 {
    x % TWO32
  }

  /** Stored into a C int. */
  function Int32(x: nat): (r: int)
    ensures -0x8000_0000 <= r <= x && (r == x <==> x < 0x8000_0000)
  {
    var low := Low32(x);
    if low < 0x8000_0000 then low else low - TWO32
  }

  function Min(a: int, b: int): int {
    if a <= b then a else b
  }

  /** Element i of a stretch of user memory; unreadable memory reads as zero. */
  function Peek<T>(memory: seq<T>, i: nat, zero: T): T {
    if i < |memory| then memory[i] else zero
  }

  /** The first n elements of that stretch. */
  function PeekAll<T>(memory: seq<T>, n: nat, zero: T): seq<T> {
    seq(n, i requires 0 <= i => Peek(memory, i, zero))
  }

  function UpToNul(name: seq<U8>): (r: seq<U8>)
    ensures r <= name && 0 !in r
    ensures |r| < |name| ==> name[|r|] == 0
  {
    if name == [] || name[0] == 0 then []
    else
      var rest := UpToNul(name[1..]);
      assert name == [name[0]] + name[1..];
      [name[0]] + rest
  }

  /** What a bounded copy of a C string leaves in a buffer of that many bytes. */
  function CString(memory: seq<U8>, size: nat): seq<U8>
    requires size > 0
  {
    UpToNul(memory)[..Min(|UpToNul(memory)|, size - 1)]
  }

  /** It is the name up to the first NUL, as much of it as leaves room for one more byte. */
  lemma CStringIs(memory: seq<U8>, size: nat)
    requires size > 0
    ensures var r := CString(memory, size);
            && r <= memory && |r| < size && 0 !in r
            && (|r| == size - 1 || |r| == |memory| || memory[|r|] == 0)
  {
    assert forall b <- CString(memory, size) :: b in UpToNul(memory);
  }

  lemma KeysChange<K, V>(m: map<K, V>, k: K, v: V)
    ensures |m[k := v]| == |m| + if k in m then 0 else 1
    ensures |m - {k}| == |m| - if k in m then 1 else 0
  {
    assert m[k := v].Keys == m.Keys + {k} && (m - {k}).Keys == m.Keys - {k};
    assert |m.Keys| == |m| && |m[k := v].Keys| == |m[k := v]| && |(m - {k}).Keys| == |m - {k}|;
  }

  lemma Reassociate<T>(a: seq<T>, b: seq<T>, c: seq<T>)
    ensures a + (b + c) == (a + b) + c
  {
  }
}
