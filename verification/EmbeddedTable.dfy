/** The table compiled into the program: C arrays of the computed sizes, each with the count of its
    used entries. */
module EmbeddedTable {
  import opened Words
  import opened VarPath
  import opened Documents
  import opened TableLimits

  datatype EmbeddedVarField = EmbeddedVarField(loc: VarLocation, numFields: nat, fields: seq<Field>)

  datatype EmbeddedFuncVF = EmbeddedFuncVF(name: string, numVarFields: nat, varFields: seq<EmbeddedVarField>)

  datatype EmbeddedModule = EmbeddedModule(
    name: string, buildId: string,
    numTypeSizes: nat, typeSizes: Obj<U32>, numMemberOffsets: nat, memberOffsets: Obj<U32>,
    numFunc2pc: nat, func2pc: Obj<U64>, numFunc2vf: nat, func2vf: seq<EmbeddedFuncVF>)

  datatype EmbeddedVersion = EmbeddedVersion(version: string, arch: string, numModules: nat, modules: seq<EmbeddedModule>)

  // ================= counts within the arrays =================

  predicate VarFieldOk(f: EmbeddedVarField) {
    f.numFields <= |f.fields|
  }

  predicate FuncOk(f: EmbeddedFuncVF) {
    f.numVarFields <= |f.varFields| && forall i | 0 <= i < |f.varFields| :: VarFieldOk(f.varFields[i])
  }

  predicate ModuleOk(m: EmbeddedModule) {
    && m.numTypeSizes <= |m.typeSizes| && m.numMemberOffsets <= |m.memberOffsets|
    && m.numFunc2pc <= |m.func2pc| && m.numFunc2vf <= |m.func2vf|
    && forall i | 0 <= i < |m.func2vf| :: FuncOk(m.func2vf[i])
  }

  /** No count reaches past its array. */
  predicate EntryOk(e: EmbeddedVersion) {
    e.numModules <= |e.modules| && forall i | 0 <= i < |e.modules| :: ModuleOk(e.modules[i])
  }

  type Entry = e: EmbeddedVersion | EntryOk(e) witness EmbeddedVersion("", "", 0, [])

  // ================= writing: an initializer, zeros after it =================

  /** An array of the given size from an initializer that fits. */
  function Filled<T>(values: seq<T>, size: nat, zero: T): (a: seq<T>)
    requires |values| <= size
    ensures |a| == size && a[..|values|] == values
    ensures forall i | |values| <= i < size :: a[i] == zero
  {
    values + seq(size - |values|, _ => zero)
  }

  function ZeroVarField(l: Limits): (f: EmbeddedVarField)
    ensures VarFieldOk(f) && |f.fields| == l.fields
  {
    EmbeddedVarField(VarLocation(0, 0, false), 0, seq(l.fields, _ => Field(0, false)))
  }

  /** _generate_var_field */
  function WriteVarField(vf: VarField, l: Limits): (f: EmbeddedVarField)
    requires |vf.fields| <= l.fields
    ensures VarFieldOk(f) && |f.fields| == l.fields && ReadVarField(f) == vf
  {
    EmbeddedVarField(vf.loc, |vf.fields|, Filled(vf.fields, l.fields, Field(0, false)))
  }

  function ReadVarField(f: EmbeddedVarField): VarField
    requires VarFieldOk(f)
  {
    VarField(f.loc, f.fields[..f.numFields])
  }

  function WriteVarFields(vfs: seq<VarField>, l: Limits): (fs: seq<EmbeddedVarField>)
    requires VariablesFit(vfs, l)
    ensures |fs| == |vfs| && forall i | 0 <= i < |fs| :: VarFieldOk(fs[i]) && ReadVarField(fs[i]) == vfs[i]
  {
    seq(|vfs|, i requires 0 <= i < |vfs| => WriteVarField(vfs[i], l))
  }

  function WriteFunc(f: (string, seq<VarField>), l: Limits): (e: EmbeddedFuncVF)
    requires VariablesFit(f.1, l)
    ensures FuncOk(e) && |e.varFields| == l.varFields
  {
    EmbeddedFuncVF(f.0, |f.1|, Filled(WriteVarFields(f.1, l), l.varFields, ZeroVarField(l)))
  }

  function ReadVarFields(e: EmbeddedFuncVF): (vfs: seq<VarField>)
    requires FuncOk(e)
    ensures |vfs| == e.numVarFields
  {
    seq(e.numVarFields, i requires 0 <= i < e.numVarFields => ReadVarField(e.varFields[i]))
  }

  lemma FuncComesBack(f: (string, seq<VarField>), l: Limits)
    requires VariablesFit(f.1, l)
    ensures ReadVarFields(WriteFunc(f, l)) == f.1
  {
    var written := WriteVarFields(f.1, l);
    var e := WriteFunc(f, l);
    forall i | 0 <= i < |f.1| ensures ReadVarField(e.varFields[i]) == f.1[i] {
      assert e.varFields[..|written|][i] == written[i];
    }
  }

  function WriteFuncs(fs: Obj<seq<VarField>>, l: Limits): (es: seq<EmbeddedFuncVF>)
    requires forall i | 0 <= i < |fs| :: VariablesFit(fs[i].1, l)
    ensures |es| == |fs| && forall i | 0 <= i < |es| :: FuncOk(es[i]) && es[i] == WriteFunc(fs[i], l)
  {
    seq(|fs|, i requires 0 <= i < |fs| => WriteFunc(fs[i], l))
  }

  function ZeroFunc(l: Limits): (e: EmbeddedFuncVF)
    ensures FuncOk(e)
  {
    EmbeddedFuncVF("", 0, seq(l.varFields, _ => ZeroVarField(l)))
  }

  /** _generate_module */
  function WriteModule(m: ModuleData, l: Limits): (e: EmbeddedModule)
    requires ModuleFits(m, l)
    ensures ModuleOk(e)
  {
    EmbeddedModule(m.name, m.buildId,
                   |m.typeSizes|, Filled(m.typeSizes, l.typeSizes, ("", 0)),
                   |m.memberOffsets|, Filled(m.memberOffsets, l.memberOffsets, ("", 0)),
                   |m.func2pc|, Filled(m.func2pc, l.funcs, ("", 0)),
                   |m.func2vf|, Filled(WriteFuncs(m.func2vf, l), l.funcs, ZeroFunc(l)))
  }

  function ReadFuncs(es: seq<EmbeddedFuncVF>, n: nat): (fs: Obj<seq<VarField>>)
    requires n <= |es| && forall i | 0 <= i < |es| :: FuncOk(es[i])
    ensures |fs| == n
  {
    seq(n, i requires 0 <= i < n => (es[i].name, ReadVarFields(es[i])))
  }

  /** What the counts say is used. */
  function ReadModule(e: EmbeddedModule): ModuleData
    requires ModuleOk(e)
  {
    ModuleData(e.name, e.buildId, e.typeSizes[..e.numTypeSizes], e.memberOffsets[..e.numMemberOffsets],
               e.func2pc[..e.numFunc2pc], ReadFuncs(e.func2vf, e.numFunc2vf))
  }

  lemma ModuleComesBack(m: ModuleData, l: Limits)
    requires ModuleFits(m, l)
    ensures ReadModule(WriteModule(m, l)) == m
  {
    var es := WriteFuncs(m.func2vf, l);
    var e := WriteModule(m, l);
    forall i | 0 <= i < |m.func2vf| ensures (e.func2vf[i].name, ReadVarFields(e.func2vf[i])) == m.func2vf[i] {
      assert e.func2vf[..|es|][i] == es[i];
      FuncComesBack(m.func2vf[i], l);
    }
    assert ReadFuncs(e.func2vf, e.numFunc2vf) == m.func2vf;
  }

  function ZeroModule(l: Limits): (e: EmbeddedModule)
    ensures ModuleOk(e)
  {
    EmbeddedModule("", "", 0, seq(l.typeSizes, _ => ("", 0)), 0, seq(l.memberOffsets, _ => ("", 0)),
                   0, seq(l.funcs, _ => ("", 0)), 0, seq(l.funcs, _ => ZeroFunc(l)))
  }

  function WriteModules(ms: seq<ModuleData>, l: Limits): (es: seq<EmbeddedModule>)
    requires Fits(ms, l)
    ensures |es| == |ms| && forall i | 0 <= i < |es| :: ModuleOk(es[i]) && es[i] == WriteModule(ms[i], l)
  {
    seq(|ms|, i requires 0 <= i < |ms| => WriteModule(ms[i], l))
  }

  function WriteEntry(version: string, arch: string, ms: seq<ModuleData>, l: Limits): (e: Entry)
    requires Fits(ms, l)
  {
    EmbeddedVersion(version, arch, |ms|, Filled(WriteModules(ms, l), l.modules, ZeroModule(l)))
  }

  function ReadEntry(e: Entry): (ms: seq<ModuleData>)
    ensures |ms| == e.numModules
  {
    seq(e.numModules, i requires 0 <= i < e.numModules => ReadModule(e.modules[i]))
  }

  /** The used part of a written entry is what was written, whatever the sizes it fits. */
  lemma EntryComesBack(version: string, arch: string, ms: seq<ModuleData>, l: Limits)
    requires Fits(ms, l)
    ensures ReadEntry(WriteEntry(version, arch, ms, l)) == ms
  {
    var es := WriteModules(ms, l);
    var e := WriteEntry(version, arch, ms, l);
    forall i | 0 <= i < |ms| ensures ReadModule(e.modules[i]) == ms[i] {
      assert e.modules[..|es|][i] == es[i];
      ModuleComesBack(ms[i], l);
    }
  }

  /** generate_version_entry, with the array sizes the header declares.  An entry with more would not
      compile. */
  method GenerateVersionEntry(doc: Document, l: Limits) returns (e: Entry)
    requires Fits(ModulesOf(doc), l)
    ensures e == WriteEntry(TextOr(Lookup(doc, "version"), "unknown"), TextOr(Lookup(doc, "arch"), ""), ModulesOf(doc), l)
    ensures var v := Lookup(doc, "version"); e.version == if v.Some? && v.value.Text? then v.value.text else "unknown"
    ensures var a := Lookup(doc, "arch"); e.arch == if a.Some? && a.value.Text? then a.value.text else ""
    ensures ReadEntry(e) == ModulesOf(doc)
  {
    var modules := [];
    var i := 0;
    while i < |doc|
      invariant 0 <= i <= |doc| && modules == ModulesOf(doc[..i])
    {
      assert doc[..i + 1][..i] == doc[..i];
      if IsModuleEntry(doc[i].1) {
        modules := modules + [DataOf(Basename(doc[i].0), doc[i].1.m)];
      }
      i := i + 1;
    }
    assert doc[..i] == doc;
    e := WriteEntry(TextOr(Lookup(doc, "version"), "unknown"), TextOr(Lookup(doc, "arch"), ""), modules, l);
    EntryComesBack(TextOr(Lookup(doc, "version"), "unknown"), TextOr(Lookup(doc, "arch"), ""), modules, l);
  }

  // ================= loading =================

  function LoadData(t: Tables, m: ModuleData): Tables {
    Tables(PutAll(t.func2pc, m.name, m.func2pc), PutAll(t.func2vf, m.name, m.func2vf),
           PutAll(t.typeSizes, m.name, m.typeSizes), PutAll(t.memberOffsets, m.name, m.memberOffsets))
  }

  function LoadAll(t: Tables, ms: seq<ModuleData>): Tables {
    if ms == [] then t else LoadData(LoadAll(t, ms[..|ms| - 1]), ms[|ms| - 1])
  }

  lemma {:induction false} LoadAllIsLoad(t: Tables, doc: Document)
    ensures LoadAll(t, ModulesOf(doc)) == Load(t, doc)
  {
    if doc != [] {
      var front, v := doc[..|doc| - 1], doc[|doc| - 1].1;
      LoadAllIsLoad(t, front);
      if IsModuleEntry(v) {
        var ms := ModulesOf(front);
        assert (ms + [DataOf(Basename(doc[|doc| - 1].0), v.m)])[..|ms|] == ms;
      }
    }
  }

  /** For every list of documents, each one's entry fits the sizes computed from them all, and the
      used part of that entry loads to the maps that loading the document itself gives, modules
      that share a basename included. */
  lemma SourcesAgree(docs: seq<Document>, i: nat, t: Tables, version: string, arch: string)
    requires i < |docs|
    ensures Fits(ModulesOf(docs[i]), Needs(docs))
    ensures LoadAll(t, ReadEntry(WriteEntry(version, arch, ModulesOf(docs[i]), Needs(docs)))) == Load(t, docs[i])
  {
    LimitsAreLeast(docs, Needs(docs));
    EntryComesBack(version, arch, ModulesOf(docs[i]), Needs(docs));
    LoadAllIsLoad(t, docs[i]);
  }

  /** Building one function's variables from its arrays. */
  method CopyVarFields(e: EmbeddedFuncVF) returns (vfs: seq<VarField>)
    requires FuncOk(e)
    ensures vfs == ReadVarFields(e)
  {
    vfs := [];
    var v := 0;
    while v < e.numVarFields
      invariant 0 <= v <= e.numVarFields && |vfs| == v
      invariant forall i | 0 <= i < v :: vfs[i] == ReadVarField(e.varFields[i])
    {
      var from := e.varFields[v];
      var fields := [];
      var fi := 0;
      while fi < from.numFields
        invariant 0 <= fi <= from.numFields && fields == from.fields[..fi]
      {
        fields := fields + [from.fields[fi]];
        fi := fi + 1;
      }
      vfs := vfs + [VarField(from.loc, fields)];
      v := v + 1;
    }
  }

  /** The loop over the functions with variables. */
  method StoreFuncs(t: Nested<seq<VarField>>, e: EmbeddedModule) returns (r: Nested<seq<VarField>>)
    requires ModuleOk(e)
    ensures r == PutAll(t, e.name, ReadModule(e).func2vf)
  {
    r := t;
    ghost var fs := ReadModule(e).func2vf;
    var f := 0;
    while f < e.numFunc2vf
      invariant 0 <= f <= e.numFunc2vf && r == PutAll(t, e.name, fs[..f])
    {
      assert fs[..f + 1][..f] == fs[..f];
      var vfs := CopyVarFields(e.func2vf[f]);
      r := Put(r, e.name, e.func2vf[f].name, vfs);
      f := f + 1;
    }
    assert fs[..f] == fs;
  }

  // ================= which table entry =================

  type Wanted = seq<(string, string)>

  predicate Carries(v: Entry, name: string, buildId: string) {
    exists i :: 0 <= i < v.numModules && v.modules[i].name == name && v.modules[i].buildId == buildId
  }

  /** Every module asked for is there with its build-id. */
  predicate Covers(v: Entry, want: Wanted) {
    forall i | 0 <= i < |want| :: Carries(v, want[i].0, want[i].1)
  }

  /** find_embedded_match: the first entry that covers a request with all its build-ids known. */
  method FindEmbeddedMatch(versions: seq<Entry>, want: Wanted) returns (r: Option<nat>)
    ensures r.Some? ==> want != [] && forall i | 0 <= i < |want| :: want[i].1 != ""
    ensures r.Some? ==> r.value < |versions| && Covers(versions[r.value], want)
                        && forall j | 0 <= j < r.value :: !Covers(versions[j], want)
    ensures r.None? ==> want == [] || (exists i :: 0 <= i < |want| && want[i].1 == "")
                        || forall j | 0 <= j < |versions| :: !Covers(versions[j], want)
  {
    var ids: set<(string, string)> := {};
    var w := 0;
    while w < |want|
      invariant 0 <= w <= |want| && forall i | 0 <= i < w :: want[i].1 != ""
      invariant ids == (set i | 0 <= i < w :: want[i]) && (ids == {} <==> w == 0)
    {
      if want[w].1 == "" { return None; }
      ids := ids + {want[w]};
      w := w + 1;
    }
    if ids == {} {
      return None;
    }
    var i := 0;
    while i < |versions|
      invariant 0 <= i <= |versions| && forall j | 0 <= j < i :: !Covers(versions[j], want)
    {
      var v := versions[i];
      if v.numModules != 0 {
        var have := NamedBuilds(v);
        if forall x <- ids :: x in have {
          assert forall j | 0 <= j < |want| :: want[j] in ids;
          return Some(i);
        }
        var x :| x in ids && x !in have;
        var j :| 0 <= j < |want| && want[j] == x;
        assert !Carries(v, want[j].0, want[j].1);
      } else {
        assert !Carries(v, want[0].0, want[0].1);
      }
      i := i + 1;
    }
    r := None;
  }

  /** The modules of an entry that have a build-id. */
  method NamedBuilds(v: Entry) returns (have: set<(string, string)>)
    ensures forall x :: x in have <==> x.1 != "" && Carries(v, x.0, x.1)
  {
    have := {};
    var m := 0;
    while m < v.numModules
      invariant 0 <= m <= v.numModules
      invariant forall x :: x in have <==>
                  (x.1 != "" && exists i :: 0 <= i < m && v.modules[i].name == x.0 && v.modules[i].buildId == x.1)
    {
      var b := v.modules[m];
      if b.buildId != "" { have := have + {(b.name, b.buildId)}; }
      m := m + 1;
    }
  }
}
