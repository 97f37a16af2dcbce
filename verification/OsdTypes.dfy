/** The data osdtrace keeps in its BPF maps, and the events that drive it. */
module OsdTypes {
  import opened Words
  import opened ClassCalls

  const MSG_OSD_OP: U16 := 42
  const MSG_OSD_REPOP: U16 := 112
  const MAX_DETAIL_OPS: nat := 8
  const OBJECT_NAME_LEN: nat := 64
  const RETRY_WINDOW_NS: U64 := 5_000_000_000
  const MAX_DELAYS: nat := 5
  const DELAY_LEN: nat := 32

  /** A traced thread: process id and thread id, the two halves of pid_tgid. */
  datatype Thread = Thread(pid: U32, tid: U32)

  /** struct op_k */
  datatype OpKey = OpKey(pid: U32, owner: U64, tid: U64)

  /** struct ctx_k: one BlueStore transaction */
  datatype CtxKey = CtxKey(pid: U32, seqid: U32, start: U64)

  type DetailOps = s: seq<U32> | |s| == MAX_DETAIL_OPS witness seq(MAX_DETAIL_OPS, _ => 0)
  type DetailCalls = s: seq<ClsOp> | |s| == MAX_DETAIL_OPS witness seq(MAX_DETAIL_OPS, _ => NO_CALL)
  type NameBytes = s: seq<U8> | |s| == OBJECT_NAME_LEN witness seq(OBJECT_NAME_LEN, _ => 0)

  /** Messenger stamps: wall-clock nanoseconds, as the OSD recorded them. */
  datatype Messenger = Messenger(recv: U64, throttle: U64, recvComplete: U64, dispatch: U64)

  /** Boot-clock stamps taken by the probes; 0 when not reached. */
  datatype Stamps = Stamps(enqueue: U64, dequeue: U64, executeCtx: U64, submitTxn: U64, queueTxn: U64,
                           aioSubmit: U64, aioDone: U64, kvSubmit: U64, kvCommitted: U64)

  /** struct peers_info */
  datatype Peers = Peers(peer1: int, peer2: int, sent: U64, recv1: U64, recv2: U64)

  /** The captured op list; a call's names are in the slot of its opcode. */
  datatype Detail = Detail(codes: DetailOps, calls: DetailCalls, captured: U32, total: U32, unavailable: bool)

  const NO_DETAIL: Detail := Detail(seq(MAX_DETAIL_OPS, _ => 0), seq(MAX_DETAIL_OPS, _ => NO_CALL), 0, 0, false)

  /** struct op_v.  A delay list stands for di.delays[..di.cnt]. */
  datatype OpRecord = OpRecord(
    pid: U32, owner: U64, tid: U64, opType: U16,
    msgr: Messenger, at: Stamps, aioSize: int, pi: Peers, delays: seq<seq<U8>>,
    reply: U64, wb: U64, rb: U64, pool: U64, seed: U32,
    objectName: NameBytes, detail: Detail)

  function ZeroRecord(): OpRecord {
    OpRecord(0, 0, 0, 0, Messenger(0, 0, 0, 0), Stamps(0, 0, 0, 0, 0, 0, 0, 0, 0), 0, Peers(0, 0, 0, 0, 0), [],
             0, 0, 0, 0, 0, seq(OBJECT_NAME_LEN, _ => 0), NO_DETAIL)
  }

  /** The op a probe says it works on.  The owner read is unchecked by most probes. */
  datatype Ident = Ident(owner: Read<U64>, tid: Read<U64>)

  /** One probe hit with everything it reads from registers and user memory.  ringFree says
      whether the ring buffer had room for the event. */
  datatype Probe =
    | EnqueueOp(opType: Read<U16>, id: Ident,
                recv: Read<U64>, throttle: Read<U64>, recvComplete: Read<U64>, dispatch: Read<U64>)
    | DequeueOp(opType: Read<U16>, id: Ident, pool: Read<U64>, seed: Read<U32>)
    | ExecuteCtx(id: Ident, opsStart: Read<U64>, opsFinish: Read<U64>, codes: seq<U16>, calls: seq<CallRead>,
                 nameLen: Read<U64>, strAddr: Read<U64>, name: seq<U8>)
    | SubmitTransaction(id: Ident)
    | EcSubmitTransaction(id: Ident)
    | QueueTransactions
    | TxcCalcCost(seqid: Read<U32>, start: Read<U64>)
    | TxcStateProc(seqid: Read<U32>, start: Read<U64>, state: Read<U32>, pending: Read<int>)
    | TxcAddTransaction(txnOps: Read<U64>, numBuffers: Read<U32>, carriage: Read<U64>,
                        raw: U64, rawData: U64, txnCodes: seq<U32>)
    | GenerateSubop(id: Ident, peer: Read<int>)
    | DoRepopReply(id: Ident, osd: Read<int>)
    | MarkFlagPointString(flag: U8, id: Ident, len: Read<U32>, strAddr: Read<U64>, text: seq<U8>)
    | MarkFlagPoint(flag: U8, id: Ident, text: seq<U8>)
    | LogOpStats(id: Ident, inb: U64, outb: U64, ringFree: bool)
    | RepopCommit(id: Ident, dataLen: Read<U64>, nameLen: Read<U64>, strAddr: Read<U64>,
                  name: seq<U8>, ringFree: bool)

  /** Probe hits, and the removals an LRU map may make at any moment. */
  datatype Event =
    | Hit(th: Thread, now: U64, probe: Probe)
    | EvictOp(key: OpKey)
    | EvictThread(thread: Thread)
    | EvictCtx(ctx: CtxKey)

  /** The three maps, the events written to the ring buffer, and the drop counter. */
  datatype State = State(ops: map<OpKey, OpRecord>, threads: map<Thread, OpKey>, ctxs: map<CtxKey, OpKey>,
                         ring: seq<OpRecord>, drops: nat)

  const INIT: State := State(map[], map[], map[], [], 0)

  predicate TracedType(opType: U16) {
    opType == MSG_OSD_OP || opType == MSG_OSD_REPOP
  }

  predicate Delayed(flag: U8) {
    (flag / 4) % 2 == 1
  }

  function NameOf(was: NameBytes, memory: seq<U8>, n: nat): NameBytes {
    seq(OBJECT_NAME_LEN, i requires 0 <= i < OBJECT_NAME_LEN => if i < n then Peek(memory, i, 0) else was[i])
  }

  /** How many name bytes a probe copies: the low 32 bits of the length, cut to 63. */
  function NameCopyLen(len: U64): nat {
    Min(Low32(len), OBJECT_NAME_LEN - 1)
  }
}
