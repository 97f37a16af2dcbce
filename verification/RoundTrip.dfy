/** What a lookup finds in loaded tables, and when exporting and importing gives a parser back. */
module RoundTrip {
  import opened Words
  import opened VarPath
  import opened Documents
  import opened TableLimits
  import opened EmbeddedTable
  import opened Loading

  // ================= the last definition wins =================

  function Func2pcOf(m: Module): Obj<U64> {
    PartOf(m.func2pc)
  }

  function Func2vfOf(m: Module): Obj<seq<VarField>> {
    PartOf(m.func2vf)
  }

  function TypeSizesOf(m: Module): Obj<U32> {
    PartOf(m.typeSizes)
  }

  function MemberOffsetsOf(m: Module): Obj<U32> {
    PartOf(m.memberOffsets)
  }

  function LoadPart<V>(doc: Document, part: Module -> Obj<V>): Nested<V> {
    if doc == [] then map[]
    else
      var before, last := LoadPart(doc[..|doc| - 1], part), doc[|doc| - 1];
      if IsModuleEntry(last.1) then PutAll(before, Basename(last.0), part(last.1.m)) else before
  }

  lemma {:induction false} LoadIsParts(doc: Document)
    ensures Load(EMPTY, doc) == Tables(LoadPart(doc, Func2pcOf), LoadPart(doc, Func2vfOf),
                                       LoadPart(doc, TypeSizesOf), LoadPart(doc, MemberOffsetsOf))
  {
    if doc != [] { LoadIsParts(doc[..|doc| - 1]); }
  }

  /** Does this entry of the document define the name in module b? */
  predicate Defines<V>(e: (string, Value), part: Module -> Obj<V>, b: string, name: string) {
    && e.1.Object? && (e.1.m.func2pc.Some? || e.1.m.func2vf.Some?)
    && Basename(e.0) == b && Lookup(part(e.1.m), name).Some?
  }

  /** The value in the last entry that defines it. */
  function LastDefinition<V>(doc: Document, part: Module -> Obj<V>, b: string, name: string): Option<V> {
    if doc == [] then None
    else
      var last := doc[|doc| - 1];
      if Defines(last, part, b, name) then Lookup(part(last.1.m), name)
      else LastDefinition(doc[..|doc| - 1], part, b, name)
  }

  lemma {:induction false} PutAllFinds<V>(t: Nested<V>, m: string, o: Obj<V>, b: string, name: string)
    ensures Find(PutAll(t, m, o), b, name) == if b == m && Lookup(o, name).Some? then Lookup(o, name) else Find(t, b, name)
  {
    if o != [] { PutAllFinds(t, m, o[..|o| - 1], b, name); }
  }

  lemma {:induction false} LoadPartFinds<V>(doc: Document, part: Module -> Obj<V>, b: string, name: string)
    ensures Find(LoadPart(doc, part), b, name) == LastDefinition(doc, part, b, name)
  {
    if doc != [] {
      var before, last := doc[..|doc| - 1], doc[|doc| - 1];
      LoadPartFinds(before, part, b, name);
      if IsModuleEntry(last.1) {
        PutAllFinds(LoadPart(before, part), Basename(last.0), part(last.1.m), b, name);
      }
    }
  }

  /** In a fresh parser every lookup finds the last definition in the document under that basename,
      and nothing else. */
  lemma LoadFindsLastDefinition(doc: Document, b: string, name: string)
    ensures var t := Load(EMPTY, doc);
            && Find(t.func2pc, b, name) == LastDefinition(doc, Func2pcOf, b, name)
            && Find(t.func2vf, b, name) == LastDefinition(doc, Func2vfOf, b, name)
            && Find(t.typeSizes, b, name) == LastDefinition(doc, TypeSizesOf, b, name)
            && Find(t.memberOffsets, b, name) == LastDefinition(doc, MemberOffsetsOf, b, name)
  {
    LoadIsParts(doc);
    LoadPartFinds(doc, Func2pcOf, b, name);
    LoadPartFinds(doc, Func2vfOf, b, name);
    LoadPartFinds(doc, TypeSizesOf, b, name);
    LoadPartFinds(doc, MemberOffsetsOf, b, name);
  }

  // ================= export, then import =================

  /** Every lookup that t answers, u answers alike, and no other. */
  ghost predicate SameAnswers<V(!new)>(t: Nested<V>, u: Nested<V>) {
    forall m, name :: Find(u, m, name) == Find(t, m, name)
  }

  ghost predicate Restores(t: Tables, u: Tables) {
    && SameAnswers(t.func2pc, u.func2pc) && SameAnswers(t.func2vf, u.func2vf)
    && SameAnswers(t.typeSizes, u.typeSizes) && SameAnswers(t.memberOffsets, u.memberOffsets)
  }

  /** Modules with entries are known by their basenames. */
  predicate KeyedByBasename<V>(t: Nested<V>) {
    forall m <- t :: t[m] != map[] ==> '/' !in m
  }

  predicate AllKeyedByBasename(t: Tables) {
    && KeyedByBasename(t.func2pc) && KeyedByBasename(t.func2vf)
    && KeyedByBasename(t.typeSizes) && KeyedByBasename(t.memberOffsets)
  }

  /** The part of a written document for one of the maps. */
  ghost predicate WritesPart<V(!new)>(doc: Document, part: Module -> Obj<V>, t: Nested<V>) {
    && (forall k <- t :: Lookup(doc, k).Some? && Lookup(doc, k).value.Object?)
    && forall k :: Lookup(doc, k).Some? && Lookup(doc, k).value.Object? ==>
         IsModuleEntry(Lookup(doc, k).value) && Lists(part(Lookup(doc, k).value.m), At(t, k))
  }

  lemma {:induction false} LookupIsEntry<V>(o: Obj<V>, i: nat)
    requires DistinctKeys(o) && i < |o|
    ensures Lookup(o, o[i].0) == Some(o[i].1)
  {
    if i < |o| - 1 { LookupIsEntry(o[..|o| - 1], i); }
  }

  /** The definition under the key b itself. */
  function OwnDefinition<V>(doc: Document, part: Module -> Obj<V>, b: string, name: string): Option<V> {
    var v := Lookup(doc, b);
    if '/' !in b && v.Some? && IsModuleEntry(v.value) then Lookup(part(v.value.m), name) else None
  }

  /** If each entry that defines the name is keyed by its basename, the definition found is the one
      under the key b itself. */
  lemma {:induction false} OnlyOwnDefinition<V>(doc: Document, part: Module -> Obj<V>, b: string, name: string)
    requires DistinctKeys(doc)
    requires forall i | 0 <= i < |doc| && Defines(doc[i], part, Basename(doc[i].0), name) :: '/' !in doc[i].0
    ensures LastDefinition(doc, part, b, name) == OwnDefinition(doc, part, b, name)
  {
    if doc != [] {
      var front, last := doc[..|doc| - 1], doc[|doc| - 1];
      assert forall i | 0 <= i < |front| :: front[i] == doc[i];
      OnlyOwnDefinition(front, part, b, name);
      if Defines(last, part, b, name) {
        assert last.0 == b;
      } else if last.0 == b {
        LookupMisses(front, b);
        assert Lookup(doc, b) == Some(last.1);
        assert OwnDefinition(doc, part, b, name).None?;
      } else {
        assert Lookup(doc, b) == Lookup(front, b);
      }
    }
  }

  lemma PartComesBack<V(!new)>(doc: Document, part: Module -> Obj<V>, t: Nested<V>, m: string, name: string)
    requires DistinctKeys(doc) && WritesPart(doc, part, t) && KeyedByBasename(t)
    ensures Find(LoadPart(doc, part), m, name) == Find(t, m, name)
  {
    forall i | 0 <= i < |doc| && Defines(doc[i], part, Basename(doc[i].0), name) ensures '/' !in doc[i].0 {
      LookupIsEntry(doc, i);
      assert name in At(t, doc[i].0);
    }
    LoadPartFinds(doc, part, m, name);
    OnlyOwnDefinition(doc, part, m, name);
    if m in t && name in t[m] {
      assert Lookup(doc, m).Some? && Lists(part(Lookup(doc, m).value.m), At(t, m));
    }
  }

  lemma PartRestored<V(!new)>(doc: Document, part: Module -> Obj<V>, t: Nested<V>)
    requires DistinctKeys(doc) && WritesPart(doc, part, t)
    ensures KeyedByBasename(t) <==> SameAnswers(t, LoadPart(doc, part))
  {
    if KeyedByBasename(t) {
      forall m, name ensures Find(LoadPart(doc, part), m, name) == Find(t, m, name) {
        PartComesBack(doc, part, t, m, name);
      }
    }
    if SameAnswers(t, LoadPart(doc, part)) {
      forall m | m in t && t[m] != map[] ensures '/' !in m {
        var name :| name in t[m];
        assert Find(t, m, name).Some? && Find(LoadPart(doc, part), m, name).Some?;
        LoadPartFinds(doc, part, m, name);
        FoundUnderBasename(doc, part, m, name);
      }
    }
  }

  lemma {:induction false} FoundUnderBasename<V>(doc: Document, part: Module -> Obj<V>, b: string, name: string)
    requires LastDefinition(doc, part, b, name).Some?
    ensures '/' !in b
  {
    if !Defines(doc[|doc| - 1], part, b, name) { FoundUnderBasename(doc[..|doc| - 1], part, b, name); }
  }

  ghost predicate WritesModules(doc: Document, t: Tables, buildIds: map<string, string>) {
    && (forall k <- ModuleNames(t) :: Lookup(doc, k).Some? && Written(Lookup(doc, k).value, t, k, buildIds))
    && (forall k :: Lookup(doc, k).Some? && Lookup(doc, k).value.Object? ==> k in ModuleNames(t))
  }

  lemma ExportWritesModules(t: Tables, doc: Document, version: string, arch: string, buildIds: map<string, string>)
    requires Exported(doc, t, version, arch, buildIds)
    ensures WritesModules(doc, t, buildIds)
  {
    forall k ensures k in ModuleNames(t) ==> Lookup(doc, k).Some? && Written(Lookup(doc, k).value, t, k, buildIds)
             ensures Lookup(doc, k).Some? && Lookup(doc, k).value.Object? ==> k in ModuleNames(t)
    {
      assert HoldsFor(Lookup(doc, k), k, t, ModuleNames(t), version, arch, buildIds);
    }
  }

  lemma WritesFunctions(doc: Document, t: Tables, buildIds: map<string, string>)
    requires WritesModules(doc, t, buildIds)
    ensures WritesPart(doc, Func2pcOf, t.func2pc) && WritesPart(doc, Func2vfOf, t.func2vf)
  {
  }

  lemma WritesLayouts(doc: Document, t: Tables, buildIds: map<string, string>)
    requires WritesModules(doc, t, buildIds)
    ensures WritesPart(doc, TypeSizesOf, t.typeSizes) && WritesPart(doc, MemberOffsetsOf, t.memberOffsets)
  {
  }

  /** Importing what a parser exported into a fresh parser restores every lookup if and only if every
      module with entries is keyed by its basename. */
  lemma ExportImportIff(t: Tables, doc: Document, version: string, arch: string, buildIds: map<string, string>)
    requires Exported(doc, t, version, arch, buildIds)
    ensures AllKeyedByBasename(t) <==> Restores(t, Load(EMPTY, doc))
  {
    LoadIsParts(doc);
    ExportWritesModules(t, doc, version, arch, buildIds);
    WritesFunctions(doc, t, buildIds);
    WritesLayouts(doc, t, buildIds);
    PartRestored(doc, Func2pcOf, t.func2pc);
    PartRestored(doc, Func2vfOf, t.func2vf);
    PartRestored(doc, TypeSizesOf, t.typeSizes);
    PartRestored(doc, MemberOffsetsOf, t.memberOffsets);
  }

  /** The version check passes on an exported document if and only if nothing is expected, or the
      exported version is and no module took its place. */
  lemma ExportPassesCheck(t: Tables, doc: Document, version: string, arch: string, buildIds: map<string, string>, expected: string)
    requires Exported(doc, t, version, arch, buildIds)
    ensures VersionPasses(doc, expected)
            <==> expected == "" || (version == expected && "version" !in ModuleNames(t))
  {
    assert HoldsFor(Lookup(doc, "version"), "version", t, ModuleNames(t), version, arch, buildIds);
  }

  /** A parser that knows a module of that name. */
  const VERSION_MODULE: Tables := Tables(map["version" := map["f" := 1]], map[], map[], map[])

  /** Whatever it exports as version v does not pass the check for v. */
  lemma VersionModuleHappens(doc: Document, v: string, arch: string, buildIds: map<string, string>)
    requires Exported(doc, VERSION_MODULE, v, arch, buildIds) && v != ""
    ensures !VersionPasses(doc, v)
  {
    assert "version" in ModuleNames(VERSION_MODULE);
    ExportPassesCheck(VERSION_MODULE, doc, v, arch, buildIds, v);
  }

  // ================= export, then the compiled table =================

  ghost predicate HasModule(ms: seq<ModuleData>, name: string, buildId: string) {
    exists x :: x in ms && x.name == name && x.buildId == buildId
  }

  predicate ModuleAt(doc: Document, i: nat, name: string, buildId: string) {
    i < |doc| && IsModuleEntry(doc[i].1) && Basename(doc[i].0) == name && doc[i].1.m.buildId.GetOr("") == buildId
  }

  lemma {:induction false} ModuleOfEntry(doc: Document, i: nat, name: string, buildId: string)
    requires ModuleAt(doc, i, name, buildId)
    ensures HasModule(ModulesOf(doc), name, buildId)
  {
    var front, last := doc[..|doc| - 1], doc[|doc| - 1];
    if i < |front| {
      ModuleOfEntry(front, i, name, buildId);
      var x :| x in ModulesOf(front) && x.name == name && x.buildId == buildId;
      assert x in ModulesOf(doc);
    } else {
      assert DataOf(Basename(last.0), last.1.m) in ModulesOf(doc);
    }
  }

  lemma {:induction false} EntryOfModule(doc: Document, x: ModuleData) returns (i: nat)
    requires x in ModulesOf(doc)
    ensures ModuleAt(doc, i, x.name, x.buildId)
  {
    var front := doc[..|doc| - 1];
    if x in ModulesOf(front) { i := EntryOfModule(front, x); } else { i := |front|; }
  }

  /** The modules of a document are its module entries, under their basenames, with their build-ids. */
  lemma ModulesAreEntries(doc: Document, name: string, buildId: string)
    ensures HasModule(ModulesOf(doc), name, buildId) <==> exists i :: ModuleAt(doc, i, name, buildId)
  {
    if i :| ModuleAt(doc, i, name, buildId) { ModuleOfEntry(doc, i, name, buildId); }
    if HasModule(ModulesOf(doc), name, buildId) {
      var x :| x in ModulesOf(doc) && x.name == name && x.buildId == buildId;
      var i := EntryOfModule(doc, x);
    }
  }

  /** A written entry carries the modules it was written from. */
  lemma EntryCarries(version: string, arch: string, ms: seq<ModuleData>, l: Limits, name: string, buildId: string)
    requires Fits(ms, l)
    ensures Carries(WriteEntry(version, arch, ms, l), name, buildId)
            <==> HasModule(ms, name, buildId)
  {
    var e := WriteEntry(version, arch, ms, l);
    EntryComesBack(version, arch, ms, l);
    assert forall i | 0 <= i < |ms| :: ReadEntry(e)[i] == ms[i] && ms[i] in ms;
    assert forall i | 0 <= i < |ms| :: e.modules[i].name == ms[i].name && e.modules[i].buildId == ms[i].buildId;
  }

  /** The parser has a module of this basename whose file has this build-id. */
  ghost predicate HasBuild(t: Tables, buildIds: map<string, string>, name: string, buildId: string) {
    exists m :: m in ModuleNames(t) && Basename(m) == name && (if m in buildIds then buildIds[m] else "") == buildId
  }

  lemma ExportedEntry(t: Tables, doc: Document, buildIds: map<string, string>, i: nat)
    requires DistinctKeys(doc) && WritesModules(doc, t, buildIds) && i < |doc| && IsModuleEntry(doc[i].1)
    ensures doc[i].0 in ModuleNames(t)
    ensures doc[i].1.m.buildId.GetOr("") == if doc[i].0 in buildIds then buildIds[doc[i].0] else ""
  {
    LookupIsEntry(doc, i);
    assert Lookup(doc, doc[i].0).value.Object?;
  }

  lemma {:induction false} LookupFinds<V>(o: Obj<V>, key: string) returns (i: nat)
    requires Lookup(o, key).Some?
    ensures i < |o| && o[i] == (key, Lookup(o, key).value)
  {
    if o[|o| - 1].0 == key { i := |o| - 1; } else { i := LookupFinds(o[..|o| - 1], key); }
  }

  lemma ExportedIff(t: Tables, doc: Document, buildIds: map<string, string>, name: string, buildId: string)
    requires DistinctKeys(doc) && WritesModules(doc, t, buildIds)
    ensures HasBuild(t, buildIds, name, buildId) <==> HasModule(ModulesOf(doc), name, buildId)
  {
    ModulesAreEntries(doc, name, buildId);
    if HasBuild(t, buildIds, name, buildId) {
      var m :| m in ModuleNames(t) && Basename(m) == name && (if m in buildIds then buildIds[m] else "") == buildId;
      assert Lookup(doc, m).Some? && Written(Lookup(doc, m).value, t, m, buildIds);
      var i := LookupFinds(doc, m);
      ExportedEntry(t, doc, buildIds, i);
      assert ModuleAt(doc, i, name, buildId);
    }
    if i :| ModuleAt(doc, i, name, buildId) {
      ExportedEntry(t, doc, buildIds, i);
    }
  }

  /** The table entry generated from an export covers exactly the requests all of whose modules the
      parser has, with the build-ids of their files. */
  lemma ExportCoversIff(t: Tables, doc: Document, version: string, arch: string, buildIds: map<string, string>, l: Limits,
                        want: Wanted)
    requires Exported(doc, t, version, arch, buildIds) && Fits(ModulesOf(doc), l)
    ensures Covers(WriteEntry(TextOr(Lookup(doc, "version"), "unknown"), TextOr(Lookup(doc, "arch"), ""), ModulesOf(doc), l), want)
            <==> forall i | 0 <= i < |want| :: HasBuild(t, buildIds, want[i].0, want[i].1)
  {
    var e := WriteEntry(TextOr(Lookup(doc, "version"), "unknown"), TextOr(Lookup(doc, "arch"), ""), ModulesOf(doc), l);
    ExportWritesModules(t, doc, version, arch, buildIds);
    forall i | 0 <= i < |want| ensures Carries(e, want[i].0, want[i].1) <==> HasBuild(t, buildIds, want[i].0, want[i].1) {
      EntryCarries(TextOr(Lookup(doc, "version"), "unknown"), TextOr(Lookup(doc, "arch"), ""), ModulesOf(doc), l,
                   want[i].0, want[i].1);
      ExportedIff(t, doc, buildIds, want[i].0, want[i].1);
    }
  }
}
