/** kfstrace's MDS half: requests waiting for a safe reply, possibly past an unsafe one. */
module MdsTracer {
  import opened Words

  const MAX_REQUESTS: nat := 1024
  const CLIENT_REPLY: U16 := 26

  /** struct mds_request_key */
  datatype Key = Key(client: U64, tid: U64)

  const PATH_MAX: nat := 64

  /** struct mds_trace_event */
  datatype Request = Request(
    key: Key, submit: U64, unsafeTime: U64, safeTime: U64, unsafeLatency: U64, safeLatency: U64,
    op: U32, pid: U32, rank: U32, result: U32, attempts: U32,
    gotUnsafe: bool, gotSafe: bool, isWrite: bool, comm: seq<U8>, opName: string, path: seq<U8>)

  function ZeroRequest(): Request {
    Request(Key(0, 0), 0, 0, 0, 0, 0, 0, 0, 0, 0, 0, false, false, false, [], "", [])
  }

  /** One probe hit with all it reads.  The length of the directory entry's name is missing when no
      pointer leads to it. */
  datatype Event =
    | Prepare(present: bool, tid: Read<U64>, op: Read<U32>, client: U64, rank: U32, pid: U32, now: U64,
              comm: seq<U8>, nameLen: Read<U32>, name: seq<U8>)
    | Dispatch(msgType: Read<U16>, tid: Read<U64>, session: bool, client: U64,
               head: bool, isSafe: Read<U8>, result: Read<U32>, now: U64, ringFree: bool)

  datatype State = State(pending: map<Key, Request>, ring: seq<Request>)

  const INIT: State := State(map[], [])

  // ================= the two probes, by the key they reach =================

  /** The request an event is about, if the probe gets that far. */
  function KeyOf(e: Event): Option<Key> {
    if e.tid.Missing? then None
    else if e.Prepare? && (!e.present || e.op.Missing?) then None
    else if e.Dispatch? && (e.msgType != Got(CLIENT_REPLY) || !e.session) then None
    else Some(Key(e.client, e.tid.value))
  }

  predicate Readable(e: Event)
    requires e.Dispatch?
  {
    e.head && e.isSafe.Got? && e.result.Got?
  }

  predicate IsSafe(e: Event) {
    e.Dispatch? && Readable(e) && e.isSafe.value != 0
  }

  predicate IsUnsafe(e: Event) {
    e.Dispatch? && Readable(e) && e.isSafe.value == 0
  }

  /** A plain hash map: a full one refuses new keys. */
  predicate Admits(s: State, k: Key) {
    k in s.pending || |s.pending| < MAX_REQUESTS
  }

  predicate IsWriteOp(op: U32) {
    (op / 0x1000) % 2 == 1
  }

  // ---- names ----

  const KNOWN: map<U32, string> := map[
    0x00100 := "LOOKUP", 0x00101 := "GETATTR", 0x00305 := "READDIR", 0x01301 := "CREATE", 0x01203 := "UNLINK",
    0x01204 := "RENAME", 0x01220 := "MKDIR", 0x01221 := "RMDIR", 0x01108 := "SETATTR", 0x00302 := "OPEN"]

  function HexChar(n: nat): char
    requires n < 16
  {
    if n < 10 then '0' + n as char else 'A' + (n - 10) as char
  }

  /** The last n hexadecimal digits. */
  function HexDigits(op: nat, n: nat): (s: string)
    ensures |s| == n
  {
    if n == 0 then "" else HexDigits(op / 16, n - 1) + [HexChar(op % 16)]
  }

  function OpName(op: U32): string {
    if op in KNOWN then KNOWN[op] else "OP_" + HexDigits(op, 5)
  }

  /** get_mds_op_name: an unknown operation is written digit by digit from the right. */
  method GetMdsOpName(op: U32) returns (name: string)
    ensures name == OpName(op)
  {
    if op in KNOWN { return KNOWN[op]; }
    var digits := "";
    var val := op;
    var i := 5;
    while i > 0
      invariant 0 <= i <= 5 && HexDigits(op, 5) == HexDigits(val, i) + digits
    {
      digits := [HexChar(val % 16)] + digits;
      val := val / 16;
      i := i - 1;
    }
    name := "OP_" + digits;
  }

  /** The last component only, cut to the buffer. */
  function PathOf(nameLen: Read<U32>, name: seq<U8>): seq<U8> {
    var path := if nameLen.Or(0) == 0 then [] else CString(name, Min(nameLen.value, PATH_MAX - 1) + 1);
    if path == [] then [0x3f] else path
  }

  /** The part of the probe that reads the directory entry. */
  method ReadPath(nameLen: Read<U32>, name: seq<U8>) returns (path: seq<U8>)
    ensures path == PathOf(nameLen, name)
  {
    path := [];
    if nameLen.Got? && nameLen.value > 0 {
      var filenameLen := nameLen.value;
      if filenameLen >= PATH_MAX { filenameLen := PATH_MAX - 1; }
      path := CString(name, filenameLen + 1);
    }
    if path == [] { path := [0x3f]; }
  }

  /** The five digits shown are those of the number cut to twenty bits. */
  lemma FiveDigits(op: nat)
    ensures op % 0x10_0000
            == op % 16 + 16 * (op / 16 % 16) + 0x100 * (op / 16 / 16 % 16) + 0x1000 * (op / 16 / 16 / 16 % 16)
               + 0x1_0000 * (op / 16 / 16 / 16 / 16 % 16)
  {
  }

  lemma {:induction false} HexDigitAt(op: nat, n: nat)
    requires n > 0
    ensures HexDigits(op, n)[n - 1] == HexChar(op % 16) && HexDigits(op, n)[..n - 1] == HexDigits(op / 16, n - 1)
  {
  }

  lemma SameDigit(a: nat, b: nat)
    requires a < 16 && b < 16 && HexChar(a) == HexChar(b)
    ensures a == b
  {
  }

  lemma {:induction false} SameDigits(a: nat, b: nat, n: nat)
    requires n > 0
    ensures HexDigits(a, n) == HexDigits(b, n) <==> a % 16 == b % 16 && HexDigits(a / 16, n - 1) == HexDigits(b / 16, n - 1)
  {
    HexDigitAt(a, n);
    HexDigitAt(b, n);
    if HexDigits(a, n) == HexDigits(b, n) { SameDigit(a % 16, b % 16); }
  }

  lemma HexDigitsIff(a: nat, b: nat)
    ensures HexDigits(a, 5) == HexDigits(b, 5) <==> a % 0x10_0000 == b % 0x10_0000
  {
    SameDigits(a, b, 5);
    SameDigits(a / 16, b / 16, 4);
    SameDigits(a / 16 / 16, b / 16 / 16, 3);
    SameDigits(a / 16 / 16 / 16, b / 16 / 16 / 16, 2);
    SameDigits(a / 16 / 16 / 16 / 16, b / 16 / 16 / 16 / 16, 1);
    FiveDigits(a);
    FiveDigits(b);
  }

  lemma KnownAreOther(a: U32, b: U32)
    requires a in KNOWN
    ensures OpName(a) == OpName(b) <==> a == b
  {
    assert KNOWN[a][2] != '_';
    if b in KNOWN && a != b { assert |KNOWN[a]| != |KNOWN[b]| || KNOWN[a][0] != KNOWN[b][0] || KNOWN[a][1] != KNOWN[b][1]
                                     || KNOWN[a][2] != KNOWN[b][2]; }
  }

  /** Two operations are named alike exactly when they are the same, or both unknown and alike in
      their last five hexadecimal digits. */
  lemma OpNameIff(a: U32, b: U32)
    ensures OpName(a) == OpName(b) <==> a == b || (a !in KNOWN && b !in KNOWN && a % 0x10_0000 == b % 0x10_0000)
  {
    if a in KNOWN {
      KnownAreOther(a, b);
    } else if b in KNOWN {
      KnownAreOther(b, a);
    } else {
      HexDigitsIff(a, b);
      assert OpName(a)[3..] == HexDigits(a, 5) && OpName(b)[3..] == HexDigits(b, 5);
    }
  }

  /** The number a string of hexadecimal digits is. */
  function HexValue(s: string): int {
    if s == "" then 0
    else
      var c := s[|s| - 1];
      16 * HexValue(s[..|s| - 1])
      + if '0' <= c <= '9' then c as int - '0' as int else if 'A' <= c <= 'F' then c as int - 'A' as int + 10 else 0
  }

  lemma HexReads(op: nat, n: nat)
    requires n > 0
    ensures HexValue(HexDigits(op, n)) == 16 * HexValue(HexDigits(op / 16, n - 1)) + op % 16
  {
    HexDigitAt(op, n);
  }

  lemma FiveRead(op: nat)
    ensures HexValue(HexDigits(op, 5)) == op % 0x10_0000
  {
    HexReads(op, 5);
    HexReads(op / 16, 4);
    HexReads(op / 16 / 16, 3);
    HexReads(op / 16 / 16 / 16, 2);
    HexReads(op / 16 / 16 / 16 / 16, 1);
    FiveDigits(op);
  }

  /** The names: those of the protocol, and for any other operation its last five digits. */
  lemma OpNameIs(op: U32)
    ensures OpName(0x00100) == "LOOKUP" && OpName(0x00101) == "GETATTR" && OpName(0x00305) == "READDIR"
    ensures OpName(0x01301) == "CREATE" && OpName(0x01203) == "UNLINK" && OpName(0x01204) == "RENAME"
    ensures OpName(0x01220) == "MKDIR" && OpName(0x01221) == "RMDIR" && OpName(0x01108) == "SETATTR" && OpName(0x00302) == "OPEN"
    ensures op !in {0x00100, 0x00101, 0x00305, 0x01301, 0x01203, 0x01204, 0x01220, 0x01221, 0x01108, 0x00302} ==>
              |OpName(op)| == 8 && OpName(op)[..3] == "OP_" && HexValue(OpName(op)[3..]) == op % 0x10_0000
  {
    FiveRead(op);
    assert ("OP_" + HexDigits(op, 5))[3..] == HexDigits(op, 5);
  }

  function NewRequest(k: Key, e: Event): Request
    requires e.Prepare? && e.op.Got?
  {
    Request(k, e.now, 0, 0, 0, 0, e.op.value, e.pid, e.rank, 0, 1, false, false, IsWriteOp(e.op.value),
            e.comm, OpName(e.op.value), PathOf(e.nameLen, e.name))
  }

  function Us(later: U64, earlier: U64): U64 {
    Sub64(later, earlier) / 1000
  }

  function Replied(r: Request, e: Event): Request
    requires IsSafe(e) || IsUnsafe(e)
  {
    if IsSafe(e)
    then r.(result := e.result.value, gotSafe := true, safeTime := e.now, safeLatency := Us(e.now, r.submit))
    else r.(result := e.result.value, gotUnsafe := true, unsafeTime := e.now, unsafeLatency := Us(e.now, r.submit))
  }

  function Step(s: State, e: Event): State {
    var key := KeyOf(e);
    if key.None? then s
    else
      var k := key.value;
      if k !in s.pending then
        if e.Prepare? && Admits(s, k) then s.(pending := s.pending[k := NewRequest(k, e)]) else s
      else
        var r := s.pending[k];
        if e.Prepare? then s.(pending := s.pending[k := r.(attempts := Low32(r.attempts + 1))])
        else if IsUnsafe(e) then s.(pending := s.pending[k := Replied(r, e)])
        else if IsSafe(e) then State(s.pending - {k}, if e.ringFree then s.ring + [Replied(r, e)] else s.ring)
        else s
  }

  class Tracer {
    var pending: map<Key, Request>      // pending_mds_requests
    var ring: seq<Request>              // every event ever submitted to mds_rb

    constructor ()
      ensures Snapshot() == INIT
    {
      pending, ring := map[], [];
    }

    ghost function Snapshot(): State
      reads this
    {
      State(pending, ring)
    }

    /** initialize_mds_trace_event */
    method InitializeMdsTraceEvent(key: Key)
      modifies this
      ensures pending == if Admits(old(Snapshot()), key) then old(pending)[key := ZeroRequest()] else old(pending)
      ensures ring == old(ring)
    {
      if key in pending || |pending| < MAX_REQUESTS {
        pending := pending[key := ZeroRequest()];
      }
    }

    /** trace_prepare_send_request */
    method PrepareSendRequest(present: bool, tid: Read<U64>, op: Read<U32>, client: U64, rank: U32, pid: U32, now: U64,
                              comm: seq<U8>, nameLen: Read<U32>, name: seq<U8>)
      modifies this
      ensures Snapshot() == Step(old(Snapshot()), Prepare(present, tid, op, client, rank, pid, now, comm, nameLen, name))
    {
      if !present { return; }
      if tid.Missing? { return; }
      if op.Missing? { return; }
      var key := Key(client, tid.value);
      if key in pending {
        pending := pending[key := pending[key].(attempts := Low32(pending[key].attempts + 1))];
        return;
      }
      InitializeMdsTraceEvent(key);
      if key !in pending { return; }
      var e := pending[key];
      e := e.(key := key, submit := now, unsafeTime := 0, safeTime := 0, unsafeLatency := 0, safeLatency := 0);
      e := e.(op := op.value, pid := pid, comm := comm, rank := rank, result := 0, attempts := 1);
      e := e.(gotUnsafe := false, gotSafe := false, isWrite := IsWriteOp(op.value));
      var opName := GetMdsOpName(op.value);
      var path := ReadPath(nameLen, name);
      e := e.(opName := opName, path := path);
      pending := pending[key := e];
    }

    /** trace_mds_dispatch */
    method MdsDispatch(msgType: Read<U16>, tid: Read<U64>, session: bool, client: U64, head: bool,
                       isSafe: Read<U8>, result: Read<U32>, now: U64, ringFree: bool)
      modifies this
      ensures Snapshot() == Step(old(Snapshot()),
                                 Dispatch(msgType, tid, session, client, head, isSafe, result, now, ringFree))
    {
      if msgType.Missing? { return; }
      if msgType.value != CLIENT_REPLY { return; }
      if tid.Missing? { return; }
      if !session { return; }
      var key := Key(client, tid.value);
      if key !in pending { return; }
      if !head { return; }
      if isSafe.Missing? || result.Missing? { return; }
      pending := pending[key := pending[key].(result := result.value)];
      var e := pending[key];
      if isSafe.value != 0 {
        e := e.(gotSafe := true, safeTime := now, safeLatency := Sub64(now, e.submit) / 1000);
        pending := pending[key := e];
        if ringFree { ring := ring + [e]; }
        pending := pending - {key};
      } else {
        e := e.(gotUnsafe := true, unsafeTime := now, unsafeLatency := Sub64(now, e.submit) / 1000);
        pending := pending[key := e];
      }
    }
  }
}
