/** The osdtrace BPF programs: each attached probe as a method that looks up, updates, inserts and
    deletes map entries in the order the program does.  Every method is proved against
    OsdSpec.Step, whose results over whole runs are in OsdRuns. */
module OsdTracer {
  import opened Words
  import opened ClassCalls
  import opened OsdTypes
  import opened OsdSpec

  lemma OverlayIs(was: DetailOps, codes: seq<U32>, n: nat, slots: DetailOps)
    requires n <= MAX_DETAIL_OPS
    requires forall j | 0 <= j < MAX_DETAIL_OPS :: slots[j] == if j < n then Peek(codes, j, 0) else was[j]
    ensures slots == OverlayAt(was, 0, codes, n)
  {
  }

  /** An event that reaches a tracked op and leaves it in the map. */
  lemma StepStays(opSize: U32, s: State, th: Thread, now: U64, p: Probe, k: OpKey)
    requires Target(s, th, p) == Some(k) && k in s.ops && !p.EnqueueOp? && FateOf(p).Stay?
    ensures Step(opSize, s, Hit(th, now, p))
            == State(s.ops[k := Apply(opSize, s.ops[k], now, p)], Bind(s.threads, th, BindingAfter(s, th, p)),
                     CtxsAfter(s, th, p), s.ring, s.drops)
  {
  }

  lemma ApplyExecuteCtx(opSize: U32, r: OpRecord, now: U64, p: Probe)
    requires p.ExecuteCtx?
    ensures Apply(opSize, r, now, p)
            == r.(at := r.at.(executeCtx := now), detail := DetailAfter(opSize, r.opType, r.detail, p),
                  objectName := NameAfter(r.objectName, p))
  {
  }

  lemma ApplyDequeue(opSize: U32, r: OpRecord, now: U64, p: Probe)
    requires p.DequeueOp?
    ensures Apply(opSize, r, now, p)
            == r.(at := StampsAfter(r.at, now, p), pool := p.pool.Or(r.pool),
                  seed := if p.pool.Got? then p.seed.Or(r.seed) else r.seed)
  {
  }

  lemma ApplyStateProc(opSize: U32, r: OpRecord, now: U64, p: Probe)
    requires p.TxcStateProc?
    ensures Apply(opSize, r, now, p)
            == r.(at := StampsAfter(r.at, now, p), aioSize := if StateChange(p, 0) then p.pending.value else r.aioSize)
  {
  }

  lemma ApplyAddTransaction(opSize: U32, r: OpRecord, now: U64, p: Probe)
    requires p.TxcAddTransaction? && r.opType == MSG_OSD_REPOP
    ensures Apply(opSize, r, now, p) == r.(detail := AddTransaction(r.detail, p))
  {
  }

  class Tracer {
    const opSize: U32                       // sizeof(OSDOp), set before load; 0 when unknown
    var ops: map<OpKey, OpRecord>           // ops
    var threads: map<Thread, OpKey>         // ptid_opk
    var ctxs: map<CtxKey, OpKey>            // ctx_opk
    var ring: seq<OpRecord>                 // every event ever submitted to rb
    var drops: nat                          // rb_drops

    constructor (opSize: U32)
      ensures this.opSize == opSize && Snapshot() == INIT
    {
      this.opSize := opSize;
      ops, threads, ctxs, ring, drops := map[], map[], map[], [], 0;
    }

    ghost function Snapshot(): State
      reads this
    {
      State(ops, threads, ctxs, ring, drops)
    }

    method EnqueueOp(th: Thread, now: U64, opType: Read<U16>, id: Ident, recv: Read<U64>, throttle: Read<U64>,
                     recvComplete: Read<U64>, dispatch: Read<U64>)
      modifies this
      ensures Snapshot() == Step(opSize, old(Snapshot()),
                                 Hit(th, now, Probe.EnqueueOp(opType, id, recv, throttle, recvComplete, dispatch)))
    {
      if !TracedType(opType.Or(0)) { return; }
      if id.owner.Missing? { return; }
      if id.tid.Missing? { return; }
      var key := OpKey(th.pid, id.owner.value, id.tid.value);
      if key in ops {
        var age := Sub64(now, ops[key].at.enqueue);
        if age < RETRY_WINDOW_NS { return; }
      }
      var value := ZeroRecord();
      value := value.(at := value.at.(enqueue := now), pid := key.pid, tid := key.tid, owner := key.owner,
                      opType := opType.Or(0), pi := value.pi.(peer1 := -1, peer2 := -1));
      ops := ops[key := value];
      if recv.Missing? || throttle.Missing? || recvComplete.Missing? || dispatch.Missing? {
        ops := ops - {key};
      } else {
        value := value.(msgr := Messenger(recv.value, throttle.value, recvComplete.value, dispatch.value));
        ops := ops[key := value];
      }
    }

    method DequeueOp(th: Thread, now: U64, opType: Read<U16>, id: Ident, pool: Read<U64>, seed: Read<U32>)
      modifies this
      ensures Snapshot() == Step(opSize, old(Snapshot()), Hit(th, now, Probe.DequeueOp(opType, id, pool, seed)))
    {
      threads := threads - {th};
      if !TracedType(opType.Or(0)) { return; }
      if id.tid.Missing? { return; }
      var key := OpKey(th.pid, id.owner.Or(0), id.tid.value);
      if key !in ops { return; }
      ghost var p := Probe.DequeueOp(opType, id, pool, seed);
      StepStays(opSize, old(Snapshot()), th, now, p, key);
      ApplyDequeue(opSize, ops[key], now, p);
      var vp := ops[key];
      if vp.at.dequeue == 0 { vp := vp.(at := vp.at.(dequeue := now)); }
      if pool.Missing? {
        ops := ops[key := vp];
        return;
      }
      vp := vp.(pool := pool.value);
      if seed.Missing? {
        ops := ops[key := vp];
        return;
      }
      vp := vp.(seed := seed.value);
      ops := ops[key := vp];
      if opType.Or(0) == MSG_OSD_REPOP && vp.at.queueTxn == 0 {
        threads := threads[th := key];
      }
    }

    /** capture_decoded_osd_ops: sample the opcodes of the decoded op vector. */
    method CaptureDecodedOsdOps(d: Detail, start: U64, finish: U64, codes: seq<U16>, found: seq<CallRead>)
      returns (out: Detail)
      ensures out == CaptureClientOps(opSize, d, start, finish, codes, found)
    {
      if opSize == 0 || start == 0 || finish < start { return d; }
      var total := Low32((finish - start) / opSize);
      var slots, calls, captured := CopyOpcodes(d, total, codes, found);
      out := Detail(slots, calls, captured, total, d.unavailable);
    }

    /** The capture loop: one opcode, the names of a call, and one increment of the captured count
        per op. */
    method CopyOpcodes(d: Detail, total: U32, codes: seq<U16>, found: seq<CallRead>)
      returns (slots: DetailOps, calls: DetailCalls, captured: U32)
      ensures slots == OverlayAt(d.codes, 0, codes, Min(MAX_DETAIL_OPS, total))
      ensures calls == CallsOver(d.calls, codes, found, Min(MAX_DETAIL_OPS, total))
      ensures captured == Low32(d.captured + Min(MAX_DETAIL_OPS, total))
    {
      slots, calls, captured := d.codes, d.calls, d.captured;
      var i := 0;
      while i < MAX_DETAIL_OPS && i < total
        invariant 0 <= i <= Min(MAX_DETAIL_OPS, total)
        invariant forall j | 0 <= j < MAX_DETAIL_OPS :: slots[j] == if j < i then Peek(codes, j, 0) else d.codes[j]
        invariant forall j | 0 <= j < MAX_DETAIL_OPS ::
                    calls[j] == if j < i && Peek(codes, j, 0) == CALL then OsdNames(Peek(found, j, NO_READ)) else d.calls[j]
        invariant captured == Low32(d.captured + i)
      {
        var opcode := Peek(codes, i, 0);
        slots, captured := slots[i := opcode], Low32(captured + 1);
        if opcode == CALL { calls := calls[i := OsdNames(Peek(found, i, NO_READ))]; }
        i := i + 1;
      }
      OverlayIs(d.codes, codes, i, slots);
    }

    method ExecuteCtx(th: Thread, now: U64, id: Ident, opsStart: Read<U64>, opsFinish: Read<U64>, codes: seq<U16>,
                      calls: seq<CallRead>, nameLen: Read<U64>, strAddr: Read<U64>, name: seq<U8>)
      modifies this
      ensures Snapshot() == Step(opSize, old(Snapshot()),
                                 Hit(th, now, Probe.ExecuteCtx(id, opsStart, opsFinish, codes, calls, nameLen, strAddr, name)))
    {
      if id.tid.Missing? { return; }
      var key := OpKey(th.pid, id.owner.Or(0), id.tid.value);
      if key !in ops { return; }
      ghost var p := Probe.ExecuteCtx(id, opsStart, opsFinish, codes, calls, nameLen, strAddr, name);
      ApplyExecuteCtx(opSize, ops[key], now, p);
      StepStays(opSize, Snapshot(), th, now, p, key);
      var vp := ops[key];
      vp := vp.(at := vp.at.(executeCtx := now));
      if opSize != 0 {
        if opsStart.Got? && opsStart.value != 0 {
          if opsFinish.Got? {
            var d := CaptureDecodedOsdOps(vp.detail, opsStart.value, opsFinish.value, codes, calls);
            vp := vp.(detail := d);
          }
        }
      }
      ops := ops[key := vp];
      if nameLen.Missing? { return; }
      if strAddr.Missing? { return; }
      if strAddr.value == 0 || nameLen.value == 0 { return; }
      vp := vp.(objectName := NameOf(vp.objectName, name, NameCopyLen(nameLen.value)));
      ops := ops[key := vp];
    }

    method SubmitTransaction(th: Thread, now: U64, id: Ident)
      modifies this
      ensures Snapshot() == Step(opSize, old(Snapshot()), Hit(th, now, Probe.SubmitTransaction(id)))
    {
      if id.tid.Missing? {
        threads := threads - {th};
        return;
      }
      var key := OpKey(th.pid, id.owner.Or(0), id.tid.value);
      if key in ops {
        ops := ops[key := ops[key].(at := ops[key].at.(submitTxn := now))];
        threads := threads[th := key];
      } else {
        threads := threads - {th};
      }
    }

    method EcSubmitTransaction(th: Thread, now: U64, id: Ident)
      modifies this
      ensures Snapshot() == Step(opSize, old(Snapshot()), Hit(th, now, Probe.EcSubmitTransaction(id)))
    {
      if id.tid.Missing? { return; }
      var key := OpKey(th.pid, id.owner.Or(0), id.tid.value);
      if key in ops { ops := ops - {key}; }
    }

    method QueueTransactions(th: Thread, now: U64)
      modifies this
      ensures Snapshot() == Step(opSize, old(Snapshot()), Hit(th, now, Probe.QueueTransactions))
    {
      if th in threads {
        var key := threads[th];
        if key in ops {
          var vp := ops[key];
          if vp.at.queueTxn == 0 && vp.at.aioSubmit == 0 && vp.at.kvCommitted == 0 {
            ops := ops[key := vp.(at := vp.at.(queueTxn := now))];
          } else {
            threads := threads - {th};
          }
        } else {
          threads := threads - {th};
        }
      }
    }

    method TxcCalcCost(th: Thread, now: U64, seqid: Read<U32>, start: Read<U64>)
      modifies this
      ensures Snapshot() == Step(opSize, old(Snapshot()), Hit(th, now, Probe.TxcCalcCost(seqid, start)))
    {
      if th in threads {
        var key := threads[th];
        threads := threads - {th};
        if key in ops {
          var vp := ops[key];
          if vp.at.aioSubmit != 0 || vp.at.kvCommitted != 0 { return; }
          if seqid.Missing? { return; }
          if start.Missing? { return; }
          ctxs := ctxs[CtxKey(th.pid, seqid.value, start.value) := key];
        }
      }
    }

    method TxcStateProc(th: Thread, now: U64, seqid: Read<U32>, start: Read<U64>, state: Read<U32>, pending: Read<int>)
      modifies this
      ensures Snapshot() == Step(opSize, old(Snapshot()), Hit(th, now, Probe.TxcStateProc(seqid, start, state, pending)))
    {
      if seqid.Missing? { return; }
      if start.Missing? { return; }
      var ck := CtxKey(th.pid, seqid.value, start.value);
      if ck !in ctxs { return; }
      var key := ctxs[ck];
      if state.Missing? { return; }
      if key !in ops { return; }
      ghost var p := Probe.TxcStateProc(seqid, start, state, pending);
      StepStays(opSize, Snapshot(), th, now, p, key);
      ApplyStateProc(opSize, ops[key], now, p);
      if pending.Missing? { return; }
      var vp := ops[key];
      if state.value == 0 {
        vp := vp.(at := vp.at.(aioSubmit := now));
        vp := vp.(aioSize := pending.value);
        if pending.value == 0 { vp := vp.(at := vp.at.(aioDone := vp.at.aioSubmit)); }
        ops := ops[key := vp];
      } else if state.value == 1 {
        vp := vp.(at := vp.at.(aioDone := now));
        ops := ops[key := vp];
      } else if state.value == 2 {
        vp := vp.(at := vp.at.(kvSubmit := now));
        ops := ops[key := vp];
      } else if state.value == 4 {
        vp := vp.(at := vp.at.(kvCommitted := now));
        ops := ops[key := vp];
        ctxs := ctxs - {ck};
      }
    }

    /** The capture loop of txc_add_transaction. */
    method CaptureTxnOps(d: Detail, txnOps: U64, codes: seq<U32>) returns (out: Detail)
      ensures out == AppendTxnOps(d, txnOps, codes)
    {
      out := d;
      var i := 0;
      while i < MAX_DETAIL_OPS && i < txnOps && out.captured < MAX_DETAIL_OPS
        invariant 0 <= i <= Room(d.captured, txnOps)
        invariant out.captured == d.captured + i
        invariant i == 0 ==> out == d
        invariant i > 0 ==> out == d.(captured := d.captured + i, codes := OverlayAt(d.codes, d.captured, codes, i))
      {
        var captured := out.captured;
        out := out.(codes := out.codes[captured := Peek(codes, i, 0)], captured := captured + 1);
        i := i + 1;
        assert out.codes == OverlayAt(d.codes, d.captured, codes, i);
      }
    }

    /** What txc_add_transaction makes of the op list. */
    method AddedTransaction(was: Detail, txnOps: Read<U64>, numBuffers: Read<U32>, carriage: Read<U64>,
                            raw: U64, rawData: U64, codes: seq<U32>) returns (d: Detail)
      ensures d == AddTransaction(was, Probe.TxcAddTransaction(txnOps, numBuffers, carriage, raw, rawData, codes))
    {
      if txnOps.Missing? { return was; }
      if txnOps.value == 0 { return was; }
      d := was.(total := Low32(was.total + txnOps.value));
      if numBuffers.Missing? { return; }
      if numBuffers.value != 1 {
        d := d.(captured := 0, unavailable := true);
        return;
      }
      if d.unavailable { return; }
      if carriage.Missing? { return; }
      if carriage.value == 0 { return; }
      if raw == 0 { return; }
      if rawData == 0 { return; }
      d := CaptureTxnOps(d, txnOps.value, codes);
    }

    method TxcAddTransaction(th: Thread, now: U64, txnOps: Read<U64>, numBuffers: Read<U32>, carriage: Read<U64>,
                             raw: U64, rawData: U64, codes: seq<U32>)
      modifies this
      ensures Snapshot() == Step(opSize, old(Snapshot()),
                                 Hit(th, now, Probe.TxcAddTransaction(txnOps, numBuffers, carriage, raw, rawData, codes)))
    {
      if th !in threads { return; }
      var key := threads[th];
      if key !in ops || ops[key].opType != MSG_OSD_REPOP { return; }
      ghost var p := Probe.TxcAddTransaction(txnOps, numBuffers, carriage, raw, rawData, codes);
      StepStays(opSize, Snapshot(), th, now, p, key);
      ApplyAddTransaction(opSize, ops[key], now, p);
      var d := AddedTransaction(ops[key].detail, txnOps, numBuffers, carriage, raw, rawData, codes);
      ops := ops[key := ops[key].(detail := d)];
    }

    method GenerateSubop(th: Thread, now: U64, id: Ident, peer: Read<int>)
      modifies this
      ensures Snapshot() == Step(opSize, old(Snapshot()), Hit(th, now, Probe.GenerateSubop(id, peer)))
    {
      if id.tid.Missing? { return; }
      var key := OpKey(th.pid, id.owner.Or(0), id.tid.value);
      if key !in ops { return; }
      if peer.Missing? { return; }
      if ops[key].pi.peer1 == -1 {
        ops := ops[key := ops[key].(pi := ops[key].pi.(peer1 := peer.value))];
      } else {
        ops := ops[key := ops[key].(pi := ops[key].pi.(peer2 := peer.value))];
      }
      ops := ops[key := ops[key].(pi := ops[key].pi.(sent := now))];
    }

    method DoRepopReply(th: Thread, now: U64, id: Ident, osd: Read<int>)
      modifies this
      ensures Snapshot() == Step(opSize, old(Snapshot()), Hit(th, now, Probe.DoRepopReply(id, osd)))
    {
      if id.tid.Missing? { return; }
      var key := OpKey(th.pid, id.owner.Or(0), id.tid.value);
      if osd.Missing? { return; }
      if key in ops {
        if osd.value == ops[key].pi.peer1 {
          ops := ops[key := ops[key].(pi := ops[key].pi.(recv1 := now))];
        } else if osd.value == ops[key].pi.peer2 {
          ops := ops[key := ops[key].(pi := ops[key].pi.(recv2 := now))];
        }
      }
    }

    method MarkFlagPointString(th: Thread, now: U64, flag: U8, id: Ident, len: Read<U32>, strAddr: Read<U64>,
                               text: seq<U8>)
      modifies this
      ensures Snapshot() == Step(opSize, old(Snapshot()),
                                 Hit(th, now, Probe.MarkFlagPointString(flag, id, len, strAddr, text)))
    {
      if !Delayed(flag) { return; }
      if id.tid.Missing? { return; }
      var key := OpKey(th.pid, id.owner.Or(0), id.tid.value);
      if key !in ops { return; }
      if len.Missing? { return; }
      var idx := |ops[key].delays|;
      if strAddr.Missing? { return; }
      if idx >= MAX_DELAYS || len.value >= DELAY_LEN { return; }
      ops := ops[key := ops[key].(delays := ops[key].delays + [PeekAll(text, len.value, 0)])];
    }

    method MarkFlagPoint(th: Thread, now: U64, flag: U8, id: Ident, text: seq<U8>)
      modifies this
      ensures Snapshot() == Step(opSize, old(Snapshot()), Hit(th, now, Probe.MarkFlagPoint(flag, id, text)))
    {
      if !Delayed(flag) { return; }
      if id.tid.Missing? { return; }
      var key := OpKey(th.pid, id.owner.Or(0), id.tid.value);
      if key !in ops { return; }
      if |ops[key].delays| >= MAX_DELAYS { return; }
      ops := ops[key := ops[key].(delays := ops[key].delays + [CString(text, DELAY_LEN)])];
    }

    method LogOpStats(th: Thread, now: U64, id: Ident, inb: U64, outb: U64, ringFree: bool)
      modifies this
      ensures Snapshot() == Step(opSize, old(Snapshot()), Hit(th, now, Probe.LogOpStats(id, inb, outb, ringFree)))
    {
      if id.tid.Missing? { return; }
      var key := OpKey(th.pid, id.owner.Or(0), id.tid.value);
      if key in ops {
        var vp := ops[key].(reply := now);
        vp := vp.(wb := inb);
        vp := vp.(rb := outb);
        ops := ops[key := vp];
        if !ringFree {
          drops := drops + 1;
          ops := ops - {key};
          return;
        }
        ring := ring + [vp];
      }
      ops := ops - {key};
    }

    method RepopCommit(th: Thread, now: U64, id: Ident, dataLen: Read<U64>, nameLen: Read<U64>, strAddr: Read<U64>,
                       name: seq<U8>, ringFree: bool)
      modifies this
      ensures Snapshot() == Step(opSize, old(Snapshot()),
                                 Hit(th, now, Probe.RepopCommit(id, dataLen, nameLen, strAddr, name, ringFree)))
    {
      if id.tid.Missing? { return; }
      var key := OpKey(th.pid, id.owner.Or(0), id.tid.value);
      if key !in ops { return; }
      if dataLen.Missing? {
        ops := ops - {key};
        return;
      }
      var vp := ops[key].(wb := dataLen.value);
      vp := vp.(reply := now);
      if nameLen.Got? && nameLen.value > 0 {
        if strAddr.Got? && strAddr.value != 0 {
          vp := vp.(objectName := NameOf(vp.objectName, name, NameCopyLen(nameLen.value)));
        }
      }
      ops := ops[key := vp];
      if !ringFree {
        drops := drops + 1;
        ops := ops - {key};
        return;
      }
      ring := ring + [vp];
      ops := ops - {key};
    }
  }
}
