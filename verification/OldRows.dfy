/** Rows from before object names and op lists were captured: the same, without those two fields. */
module OldRows {
  import opened Words
  import opened Patterns
  import opened OpRows

  function OldText(row: OpRow): string {
    HeadText(row, IdText(row, LatencyText(row)))
  }

  function OldGroups(row: OpRow): Captures {
    HeadGroups(row, IdGroups(row, [None] + ([None] + LatencyGroups(row))))
  }

  /** It starts with the first latency, like no other field. */
  lemma StartsWithThrottle(row: OpRow)
    ensures Word(LatencyText(row)) && !("object" <= LatencyText(row))
    ensures !("osd_ops" <= LatencyText(row)) && !("txn_ops" <= LatencyText(row))
  {
    var t := LatencyText(row);
    LatencyIsWord(row);
    assert t[0] == "throttle_lat"[0] == 't' && t[1] == "throttle_lat"[1] == 'h';
    assert "object"[0] == 'o' && "osd_ops"[0] == 'o' && "txn_ops"[1] == 'x';
  }

  lemma NothingBetween(row: OpRow)
    ensures Match(ObjectPattern(), LatencyText(row)) == Some(Matched([None] + ([None] + LatencyGroups(row)), "\n"))
  {
    LatenciesRead(row);
    StartsWithThrottle(row);
    FieldAbsent(["osd_ops", "txn_ops"], Enclosed('[', ']'), LatencyText(row), LatencyPattern(), Matched(LatencyGroups(row), "\n"));
    FieldAbsent(["object"], Run(NonBlank, 1), LatencyText(row),
                [Opt(Field(["osd_ops", "txn_ops"], Enclosed('[', ']'), []))] + LatencyPattern(),
                Matched([None] + LatencyGroups(row), "\n"));
  }

  lemma OldRowReads(row: OpRow)
    requires NonNegative(row)
    ensures Search(RowPattern(), OldText(row)) == Some(Matched(OldGroups(row), "\n"))
  {
    NothingBetween(row);
    StartsWithThrottle(row);
    var m := Matched([None] + ([None] + LatencyGroups(row)), "\n");
    IdsRead(row, LatencyText(row), ObjectPattern(), m);
    KeyIsWord("size", Signed(row.size), Labelled("client", Signed(row.client), Labelled("tid", Signed(row.tid), LatencyText(row))));
    HeadReads(row, IdText(row, LatencyText(row)), SubjectPattern(), Matched(IdGroups(row, m.groups), "\n"));
  }

  /** The groups are those of a row printed today, but for the two. */
  lemma OldGroupsAre(row: OpRow)
    requires NonNegative(row)
    ensures |OldGroups(row)| == |RowGroups(row)| == 18
    ensures forall i | 0 <= i < 18 && i != 6 && i != 7 :: OldGroups(row)[i] == RowGroups(row)[i]
    ensures OldGroups(row)[6].None? && OldGroups(row)[7].None?
  {
    SubjectGroupsAre(row);
  }

  /** The entry is what the row was printed from, with neither object nor op list. */
  predicate OldDescribes(e: Entry, row: OpRow) {
    DescribesRest(e, row) && e.name.None? && e.ops.None?
  }

  lemma GroupsAre(row: OpRow)
    requires NonNegative(row)
    ensures var g := OldGroups(row);
            && GroupAt(g, 0) == Some(Decimal(row.osd)) && GroupAt(g, 1) == Some(Pg(row)) && GroupAt(g, 2) == Some(OpName(row.kind))
            && GroupAt(g, 3) == Some(Decimal(row.size)) && GroupAt(g, 4) == Some(Decimal(row.client))
            && GroupAt(g, 5) == Some(Decimal(row.tid)) && GroupAt(g, 6).None? && GroupAt(g, 7).None?
            && GroupAt(g, 8) == Some(Decimal(row.throttle)) && GroupAt(g, 9) == Some(Decimal(row.recv))
            && GroupAt(g, 10) == Some(Decimal(row.dispatch)) && GroupAt(g, 11) == Some(Decimal(row.queue))
            && GroupAt(g, 12) == Some(Decimal(row.osdLat)) && GroupAt(g, 13) == PeersGroup(row)
            && GroupAt(g, 14) == Some(Decimal(row.bluestore)) && GroupAt(g, 16) == Some(LatName(row.kind))
            && GroupAt(g, 17) == Some(Decimal(row.lat))
  {
    OldGroupsAre(row);
    SubjectGroupsAre(row);
    LatencyGroupsAre(row);
  }

  /** Every such row without a negative number is read back, but for the object and the op list. */
  lemma OldRowParses(row: OpRow)
    requires NonNegative(row)
    ensures ParseLine(OldText(row)).Some? && OldDescribes(ParseLine(OldText(row)).value, row)
  {
    OldRowReads(row);
    GroupsAre(row);
    PeersAreFound(row.peers);
    PairsAre(row.peers);
    NumberIs(row.osd);
    NumberIs(row.size);
    NumberIs(row.client);
    NumberIs(row.tid);
    NumberIs(row.throttle);
    NumberIs(row.recv);
    NumberIs(row.dispatch);
    NumberIs(row.queue);
    NumberIs(row.osdLat);
    NumberIs(row.bluestore);
    NumberIs(row.lat);
  }
}
