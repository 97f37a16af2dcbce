/** The parser's lookup maps and its three operations on them: import from a JSON document, import
    from the compiled table, export to a document. */
module Loading {
  import opened Words
  import opened VarPath
  import opened Documents
  import opened EmbeddedTable

  // ================= to a document =================

  predicate DistinctKeys<V>(o: Obj<V>) {
    forall i, j | 0 <= i < j < |o| :: o[i].0 != o[j].0
  }

  /** Assignment to a key of an ordered object: in place, or at the end. */
  function SetKey<V>(o: Obj<V>, key: string, v: V): Obj<V> {
    if o == [] then [(key, v)]
    else if o[|o| - 1].0 == key then o[|o| - 1 := (key, v)]
    else SetKey(o[..|o| - 1], key, v) + [o[|o| - 1]]
  }

  lemma {:induction false} SetLooksUp<V>(o: Obj<V>, key: string, v: V)
    requires DistinctKeys(o)
    ensures DistinctKeys(SetKey(o, key, v))
    ensures forall k :: Lookup(SetKey(o, key, v), k) == if k == key then Some(v) else Lookup(o, k)
  {
    var r := SetKey(o, key, v);
    if o != [] {
      var front, last := o[..|o| - 1], o[|o| - 1];
      if last.0 == key {
        assert r[..|r| - 1] == front;
      } else {
        SetLooksUp(front, key, v);
        assert r[..|r| - 1] == SetKey(front, key, v);
        forall i | 0 <= i < |r| - 1 ensures r[i].0 != last.0 {
          LookupHits(SetKey(front, key, v), i);
          LookupMisses(front, last.0);
        }
      }
    }
  }

  lemma {:induction false} LookupHits<V>(o: Obj<V>, i: nat)
    requires i < |o|
    ensures Lookup(o, o[i].0).Some?
  {
    if i < |o| - 1 { LookupHits(o[..|o| - 1], i); }
  }

  lemma {:induction false} LookupMisses<V>(o: Obj<V>, key: string)
    requires forall i | 0 <= i < |o| :: o[i].0 != key
    ensures Lookup(o, key).None?
  {
    if o != [] { LookupMisses(o[..|o| - 1], key); }
  }

  /** The object lists exactly the entries of the map. */
  ghost predicate Lists<V(!new)>(o: Obj<V>, m: map<string, V>) {
    DistinctKeys(o) && forall k :: Lookup(o, k) == if k in m then Some(m[k]) else None
  }

  /** A loop over a hash map, in whatever order it yields its entries. */
  method Listing<V(!new)>(m: map<string, V>) returns (o: Obj<V>)
    ensures Lists(o, m)
  {
    o := [];
    var todo := m.Keys;
    while todo != {}
      invariant todo <= m.Keys && DistinctKeys(o)
      invariant forall k :: Lookup(o, k) == if k in m.Keys - todo then Some(m[k]) else None
      decreases |todo|
    {
      var k :| k in todo;
      SetLooksUp(o, k, m[k]);
      o := SetKey(o, k, m[k]);
      todo := todo - {k};
    }
  }

  function ModuleNames(t: Tables): set<string> {
    t.func2pc.Keys + t.func2vf.Keys + t.typeSizes.Keys + t.memberOffsets.Keys
  }

  /** The object written for a module, with the build-id read from its file, unless that is empty. */
  ghost predicate Written(v: Value, t: Tables, name: string, buildIds: map<string, string>) {
    && v.Object?
    && (name in buildIds && buildIds[name] != "" ==> v.m.buildId == Some(buildIds[name]))
    && (name !in buildIds || buildIds[name] == "" ==> v.m.buildId == None)
    && v.m.func2pc.Some? && v.m.func2vf.Some? && v.m.typeSizes.Some? && v.m.memberOffsets.Some?
    && Lists(v.m.func2pc.value, At(t.func2pc, name)) && Lists(v.m.func2vf.value, At(t.func2vf, name))
    && Lists(v.m.typeSizes.value, At(t.typeSizes, name)) && Lists(v.m.memberOffsets.value, At(t.memberOffsets, name))
  }

  /** What a key of the document holds once these modules are written: a module shadows the
      metadata of the same name. */
  ghost predicate HoldsFor(v: Option<Value>, k: string, t: Tables, written: set<string>, version: string, arch: string,
                           buildIds: map<string, string>) {
    if k in written then v.Some? && Written(v.value, t, k, buildIds)
    else if k == "version" && version != "" then v == Some(Text(version))
    else if k == "arch" && arch != "" then v == Some(Text(arch))
    else v.None?
  }

  ghost predicate WrittenSoFar(doc: Document, t: Tables, written: set<string>, version: string, arch: string,
                               buildIds: map<string, string>) {
    DistinctKeys(doc) && forall k :: HoldsFor(Lookup(doc, k), k, t, written, version, arch, buildIds)
  }

  lemma MetadataHolds(doc: Document, t: Tables, version: string, arch: string, buildIds: map<string, string>)
    requires doc == (var d := if version != "" then SetKey([], "version", Text(version)) else [];
                     if arch != "" then SetKey(d, "arch", Text(arch)) else d)
    ensures WrittenSoFar(doc, t, {}, version, arch, buildIds)
  {
    var d: Document := if version != "" then SetKey([], "version", Text(version)) else [];
    SetLooksUp([], "version", Text(version));
    SetLooksUp(d, "arch", Text(arch));
  }

  lemma WriteHolds(doc: Document, t: Tables, written: set<string>, version: string, arch: string, buildIds: map<string, string>,
                   m: string, v: Value)
    requires WrittenSoFar(doc, t, written, version, arch, buildIds) && Written(v, t, m, buildIds)
    ensures WrittenSoFar(SetKey(doc, m, v), t, written + {m}, version, arch, buildIds)
  {
    SetLooksUp(doc, m, v);
    forall k ensures HoldsFor(Lookup(SetKey(doc, m, v), k), k, t, written + {m}, version, arch, buildIds) {
      if k != m { assert HoldsFor(Lookup(doc, k), k, t, written, version, arch, buildIds); }
    }
  }

  /** The same tables, but for empty variable fields under these names. */
  ghost predicate SameLookups(t: Tables, u: Tables, names: set<string>) {
    && u.func2pc == t.func2pc && u.typeSizes == t.typeSizes && u.memberOffsets == t.memberOffsets
    && u.func2vf.Keys == t.func2vf.Keys + names
    && forall m <- u.func2vf :: u.func2vf[m] == At(t.func2vf, m)
  }

  lemma SameSelf(t: Tables)
    ensures SameLookups(t, t, {})
  {
  }

  predicate Split(names: set<string>, done: set<string>, todo: set<string>) {
    done <= names && todo == names - done
  }

  lemma SplitStart(names: set<string>)
    ensures Split(names, {}, names)
  {
  }

  lemma SplitStep(names: set<string>, done: set<string>, todo: set<string>, m: string)
    requires Split(names, done, todo) && m in todo
    ensures Split(names, done + {m}, todo - {m})
  {
  }

  lemma SplitEnd(names: set<string>, done: set<string>)
    requires Split(names, done, {})
    ensures done == names
  {
    assert forall m <- names :: m !in names - done;
  }

  lemma WrittenEither(v: Value, t: Tables, u: Tables, names: set<string>, m: string, buildIds: map<string, string>)
    requires SameLookups(t, u, names) && Written(v, u, m, buildIds)
    ensures Written(v, t, m, buildIds)
  {
    assert At(u.func2vf, m) == At(t.func2vf, m);
  }

  lemma SameTransitive(t: Tables, u: Tables, w: Tables, names: set<string>, m: string)
    requires SameLookups(t, u, names) && SameLookups(u, w, {m})
    ensures SameLookups(t, w, names + {m})
  {
    forall k | k in w.func2vf ensures w.func2vf[k] == At(t.func2vf, k) {
      assert At(u.func2vf, k) == At(t.func2vf, k);
    }
  }

  ghost predicate Exported(doc: Document, t: Tables, version: string, arch: string, buildIds: map<string, string>) {
    WrittenSoFar(doc, t, ModuleNames(t), version, arch, buildIds)
  }

  // ================= the parser =================

  class DwarfParser {
    var modFunc2pc: Nested<U64>
    var modFunc2vf: Nested<seq<VarField>>
    var modTypeSizes: Nested<U32>
    var modMemberOffsets: Nested<U32>

    constructor ()
      ensures Snapshot() == EMPTY
    {
      modFunc2pc, modFunc2vf, modTypeSizes, modMemberOffsets := map[], map[], map[], map[];
    }

    ghost function Snapshot(): Tables
      reads this
    {
      Tables(modFunc2pc, modFunc2vf, modTypeSizes, modMemberOffsets)
    }

    /** import_from_json, given the parsed file if it could be read.  The member offsets are not
        cleared first. */
    method ImportFromJson(file: Option<Document>, expected: string) returns (ok: bool)
      modifies this
      ensures ok <==> file.Some? && VersionPasses(file.value, expected)
      ensures Snapshot() == if ok then Load(Tables(map[], map[], map[], old(modMemberOffsets)), file.value)
                            else old(Snapshot())
    {
      if file.None? { return false; }
      var doc := file.value;
      if expected != "" {
        var passes := CheckVersion(doc, expected);
        if !passes { return false; }
      }
      modFunc2pc, modFunc2vf, modTypeSizes := map[], map[], map[];
      ImportModules(doc);
      ok := true;
    }

    static method CheckVersion(doc: Document, expected: string) returns (ok: bool)
      ensures ok <==> Lookup(doc, "version") == Some(Text(expected))
    {
      var v := Lookup(doc, "version");
      if v.None? { return false; }
      if !v.value.Text? { return false; }
      ok := v.value.text == expected;
    }

    method ImportModules(doc: Document)
      modifies this
      ensures Snapshot() == Load(old(Snapshot()), doc)
    {
      ghost var start := Snapshot();
      var i := 0;
      while i < |doc|
        invariant 0 <= i <= |doc| && Snapshot() == Load(start, doc[..i])
      {
        LoadOne(start, doc, i);
        ImportEntry(doc[i].0, doc[i].1);
        i := i + 1;
      }
      assert doc[..i] == doc;
    }

    method ImportEntry(name: string, v: Value)
      modifies this
      ensures Snapshot() == LoadEntry(old(Snapshot()), name, v)
    {
      if !v.Object? { return; }
      if v.m.func2pc.None? && v.m.func2vf.None? { return; }
      ImportModule(Basename(name), v.m);
    }

    method ImportModule(key: string, m: Module)
      modifies this
      ensures Snapshot() == LoadModule(old(Snapshot()), key, m)
    {
      if m.func2pc.Some? { modFunc2pc := StoreAll(modFunc2pc, key, m.func2pc.value); }
      if m.typeSizes.Some? { modTypeSizes := StoreAll(modTypeSizes, key, m.typeSizes.value); }
      if m.memberOffsets.Some? { modMemberOffsets := StoreAll(modMemberOffsets, key, m.memberOffsets.value); }
      if m.func2vf.Some? { modFunc2vf := StoreAll(modFunc2vf, key, m.func2vf.value); }
    }

    /** export_to_json, with the build-ids read from the module files.  The modules come in some
        order (the program uses ascending order); a module that has none gets an empty func2vf map
        by being looked up. */
    method ExportToJson(version: string, arch: string, buildIds: map<string, string>) returns (doc: Document)
      modifies this
      ensures Exported(doc, old(Snapshot()), version, arch, buildIds)
      ensures SameLookups(old(Snapshot()), Snapshot(), ModuleNames(old(Snapshot())))
    {
      ghost var t := Snapshot();
      doc := Metadata(version, arch, t, buildIds);
      var names := modFunc2pc.Keys + modFunc2vf.Keys + modTypeSizes.Keys + modMemberOffsets.Keys;
      assert names == ModuleNames(t);
      var todo := names;
      ghost var written: set<string> := {};
      SameSelf(t);
      SplitStart(names);
      while todo != {}
        invariant Split(names, written, todo)
        invariant WrittenSoFar(doc, t, written, version, arch, buildIds)
        invariant SameLookups(t, Snapshot(), written)
        decreases |todo|
      {
        var m :| m in todo;
        doc := WriteNext(doc, m, buildIds, t, written, version, arch);
        SplitStep(names, written, todo, m);
        todo := todo - {m};
        written := written + {m};
      }
      SplitEnd(names, written);
    }

    /** What the document starts with. */
    method Metadata(version: string, arch: string, ghost t: Tables, ghost buildIds: map<string, string>) returns (doc: Document)
      ensures WrittenSoFar(doc, t, {}, version, arch, buildIds)
    {
      doc := [];
      if version != "" { doc := SetKey(doc, "version", Text(version)); }
      if arch != "" { doc := SetKey(doc, "arch", Text(arch)); }
      MetadataHolds(doc, t, version, arch, buildIds);
    }

    /** One module more in the document. */
    method WriteNext(before: Document, m: string, buildIds: map<string, string>,
                     ghost t: Tables, ghost written: set<string>, version: string, arch: string)
      returns (doc: Document)
      requires SameLookups(t, Snapshot(), written) && WrittenSoFar(before, t, written, version, arch, buildIds)
      modifies this
      ensures SameLookups(t, Snapshot(), written + {m}) && WrittenSoFar(doc, t, written + {m}, version, arch, buildIds)
    {
      ghost var u := Snapshot();
      var v := WriteModule(m, buildIds);
      WrittenEither(v, t, u, written, m, buildIds);
      SameTransitive(t, u, Snapshot(), written, m);
      WriteHolds(before, t, written, version, arch, buildIds, m, v);
      doc := SetKey(before, m, v);
    }

    /** The body of the loop over the modules. */
    method WriteModule(m: string, buildIds: map<string, string>) returns (v: Value)
      modifies this
      ensures Written(v, old(Snapshot()), m, buildIds)
      ensures SameLookups(old(Snapshot()), Snapshot(), {m})
    {
      var buildId := None;
      if m in buildIds {
        if buildIds[m] != "" { buildId := Some(buildIds[m]); }
      }
      var pc := Listing(At(modFunc2pc, m));
      var sizes := Listing(At(modTypeSizes, m));
      var offsets := Listing(At(modMemberOffsets, m));
      if m !in modFunc2vf { modFunc2vf := modFunc2vf[m := map[]]; }
      var vf := Listing(modFunc2vf[m]);
      v := Object(Module(buildId, Some(pc), Some(vf), Some(sizes), Some(offsets)));
    }

    /** import_from_embedded */
    method ImportFromEmbedded(versions: seq<Entry>, want: Wanted) returns (entry: Option<nat>)
      modifies this
      ensures entry.Some? ==> entry.value < |versions| && Snapshot() == LoadAll(EMPTY, ReadEntry(versions[entry.value]))
      ensures entry.None? ==> Snapshot() == old(Snapshot())
      ensures entry.Some? <==> want != [] && (forall i | 0 <= i < |want| :: want[i].1 != "")
                               && exists j :: 0 <= j < |versions| && Covers(versions[j], want)
      ensures entry.Some? ==> Covers(versions[entry.value], want) && forall j | 0 <= j < entry.value :: !Covers(versions[j], want)
    {
      entry := FindEmbeddedMatch(versions, want);
      if entry.None? { return; }
      var found := versions[entry.value];
      ghost var ms := ReadEntry(found);
      modFunc2pc, modFunc2vf, modTypeSizes, modMemberOffsets := map[], map[], map[], map[];
      var i := 0;
      while i < found.numModules
        invariant 0 <= i <= found.numModules && Snapshot() == LoadAll(EMPTY, ms[..i])
      {
        assert ms[..i + 1][..i] == ms[..i];
        ImportEmbeddedModule(found.modules[i]);
        i := i + 1;
      }
      assert ms[..i] == ms;
    }

    method ImportEmbeddedModule(e: EmbeddedModule)
      requires ModuleOk(e)
      modifies this
      ensures Snapshot() == LoadData(old(Snapshot()), ReadModule(e))
    {
      modTypeSizes := StoreAll(modTypeSizes, e.name, e.typeSizes[..e.numTypeSizes]);
      modMemberOffsets := StoreAll(modMemberOffsets, e.name, e.memberOffsets[..e.numMemberOffsets]);
      modFunc2pc := StoreAll(modFunc2pc, e.name, e.func2pc[..e.numFunc2pc]);
      modFunc2vf := StoreFuncs(modFunc2vf, e);
    }
  }

  // ================= importing over old member offsets =================

  /** Entries of `later` on top of those of `earlier`. */
  function Overlay<V>(earlier: Nested<V>, later: Nested<V>): Nested<V> {
    map m | m in earlier.Keys + later.Keys :: At(earlier, m) + At(later, m)
  }

  lemma MergePut<V>(a: map<string, V>, b: map<string, V>, name: string, v: V)
    ensures (a + b)[name := v] == a + b[name := v]
  {
  }

  lemma OverlayAt<V>(earlier: Nested<V>, later: Nested<V>, m: string)
    ensures At(Overlay(earlier, later), m) == At(earlier, m) + At(later, m)
  {
  }

  lemma OverlayPut<V>(earlier: Nested<V>, later: Nested<V>, m: string, name: string, v: V)
    ensures Put(Overlay(earlier, later), m, name, v) == Overlay(earlier, Put(later, m, name, v))
  {
    var l, r := Put(Overlay(earlier, later), m, name, v), Overlay(earlier, Put(later, m, name, v));
    assert l.Keys == r.Keys;
    forall k | k in l ensures l[k] == r[k] {
      if k == m {
        OverlayAt(earlier, later, m);
        MergePut(At(earlier, m), At(later, m), name, v);
      }
    }
  }

  lemma {:induction false} OverlayPutAll<V>(earlier: Nested<V>, later: Nested<V>, m: string, o: Obj<V>)
    ensures PutAll(Overlay(earlier, later), m, o) == Overlay(earlier, PutAll(later, m, o))
  {
    if o != [] {
      OverlayPutAll(earlier, later, m, o[..|o| - 1]);
      OverlayPut(earlier, PutAll(later, m, o[..|o| - 1]), m, o[|o| - 1].0, o[|o| - 1].1);
    }
  }

  function Stale(offsets: Nested<U32>): Tables {
    EMPTY.(memberOffsets := offsets)
  }

  lemma {:induction false} StaleUnderneath(offsets: Nested<U32>, doc: Document)
    ensures Load(Stale(offsets), doc) == Load(EMPTY, doc).(memberOffsets := Overlay(offsets, Load(EMPTY, doc).memberOffsets))
  {
    if doc == [] {
      assert forall m <- offsets :: offsets[m] + map[] == offsets[m];
      assert Overlay(offsets, map[]) == offsets;
    } else {
      var v := doc[|doc| - 1].1;
      StaleUnderneath(offsets, doc[..|doc| - 1]);
      if IsModuleEntry(v) {
        OverlayPutAll(offsets, Load(EMPTY, doc[..|doc| - 1]).memberOffsets, Basename(doc[|doc| - 1].0), PartOf(v.m.memberOffsets));
      }
    }
  }

  /** import_from_json does not clear the member offsets: into a parser already holding some it
      gives the maps of a fresh parser if and only if the document defines every one of them anew. */
  lemma StaleOffsetsIff(offsets: Nested<U32>, doc: Document)
    ensures var anew := Load(EMPTY, doc);
            Load(Stale(offsets), doc) == anew
            <==> forall m <- offsets :: m in anew.memberOffsets && offsets[m].Keys <= anew.memberOffsets[m].Keys
  {
    var anew := Load(EMPTY, doc).memberOffsets;
    StaleUnderneath(offsets, doc);
    var over := Overlay(offsets, anew);
    if forall m <- offsets :: m in anew && offsets[m].Keys <= anew[m].Keys {
      forall m | m in over ensures m in anew && over[m] == anew[m] {
      }
      assert over == anew;
    }
    if over == anew {
      forall m | m in offsets ensures m in anew && offsets[m].Keys <= anew[m].Keys {
        assert m in over;
        assert over[m].Keys == offsets[m].Keys + (if m in anew then anew[m] else map[]).Keys;
      }
    }
  }

  /** A document for one module, with the offset of a member... */
  const OLD: Document :=
    [("a", Object(Module(None, Some([("f", 1)]), None, None, Some([("T::x", 8)]))))]
  /** ...and one for another, without. */
  const NEW: Document := [("b", Object(Module(None, Some([("g", 2)]), None, None, None)))]

  /** Importing the second after the first keeps the offset, which a fresh parser does not have. */
  lemma StaleOffsetsHappen()
    ensures Load(Stale(Load(EMPTY, OLD).memberOffsets), NEW) != Load(EMPTY, NEW)
  {
    var offsets := Load(EMPTY, OLD).memberOffsets;
    assert Basename("a") == "a" && Basename("b") == "b";
    assert OLD[..0] == [] && NEW[..0] == [];
    assert [("T::x", 8)][..0] == [];
    assert "a" in offsets && offsets["a"].Keys == {"T::x"};
    assert "a" !in Load(EMPTY, NEW).memberOffsets;
    StaleOffsetsIff(offsets, NEW);
  }
}
