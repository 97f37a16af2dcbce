/** JSON documents, and the tables a parser looks variables up in. */
module Documents {
  import opened Words
  import opened VarPath

  /** A JSON object in file order. */
  type Obj<V> = seq<(string, V)>

  /** A per-module object of the document; each part may be missing. */
  datatype Module = Module(buildId: Option<string>, func2pc: Option<Obj<U64>>, func2vf: Option<Obj<seq<VarField>>>,
                           typeSizes: Option<Obj<U32>>, memberOffsets: Option<Obj<U32>>)

  datatype Value = Text(text: string) | Object(m: Module) | OtherValue

  type Document = Obj<Value>

  /** is_module_entry, and the test import_from_json makes */
  predicate IsModuleEntry(v: Value) {
    v.Object? && (v.m.func2pc.Some? || v.m.func2vf.Some?)
  }

  /** What follows the last slash. */
  function Basename(path: string): (b: string)
    ensures '/' !in b
    ensures '/' !in path ==> b == path
  {
    if path == "" || path[|path| - 1] == '/' then ""
    else Basename(path[..|path| - 1]) + [path[|path| - 1]]
  }

  lemma {:induction false} BasenameIsLastPart(path: string) returns (dir: string)
    ensures path == dir + Basename(path) && (dir == "" || dir[|dir| - 1] == '/')
  {
    if path == "" || path[|path| - 1] == '/' {
      dir := path;
    } else {
      dir := BasenameIsLastPart(path[..|path| - 1]);
    }
  }

  // ================= the four lookup maps =================

  type Nested<V> = map<string, map<string, V>>

  datatype Tables = Tables(func2pc: Nested<U64>, func2vf: Nested<seq<VarField>>,
                           typeSizes: Nested<U32>, memberOffsets: Nested<U32>)

  const EMPTY: Tables := Tables(map[], map[], map[], map[])

  function Find<V>(t: Nested<V>, m: string, name: string): Option<V> {
    if m in t && name in t[m] then Some(t[m][name]) else None
  }

  function At<V>(t: Nested<V>, m: string): map<string, V> {
    if m in t then t[m] else map[]
  }

  function Put<V>(t: Nested<V>, m: string, name: string, v: V): Nested<V> {
    t[m := At(t, m)[name := v]]
  }

  function PutAll<V>(t: Nested<V>, m: string, o: Obj<V>): Nested<V> {
    if o == [] then t else Put(PutAll(t, m, o[..|o| - 1]), m, o[|o| - 1].0, o[|o| - 1].1)
  }

  /** The assignments of one object into one of the maps. */
  method StoreAll<V>(t: Nested<V>, m: string, o: Obj<V>) returns (r: Nested<V>)
    ensures r == PutAll(t, m, o)
  {
    r := t;
    var i := 0;
    while i < |o|
      invariant 0 <= i <= |o| && r == PutAll(t, m, o[..i])
    {
      assert o[..i + 1][..i] == o[..i];
      if m !in r { r := r[m := map[]]; }
      r := r[m := r[m][o[i].0 := o[i].1]];
      i := i + 1;
    }
    assert o[..i] == o;
  }

  // ================= from a document =================

  function PartOf<V>(o: Option<Obj<V>>): Obj<V> {
    o.GetOr([])
  }

  function LoadModule(t: Tables, key: string, m: Module): Tables {
    Tables(PutAll(t.func2pc, key, PartOf(m.func2pc)), PutAll(t.func2vf, key, PartOf(m.func2vf)),
           PutAll(t.typeSizes, key, PartOf(m.typeSizes)), PutAll(t.memberOffsets, key, PartOf(m.memberOffsets)))
  }

  /** One top-level entry of the document. */
  function LoadEntry(t: Tables, key: string, v: Value): Tables {
    if IsModuleEntry(v) then LoadModule(t, Basename(key), v.m) else t
  }

  /** Every module entry, in file order, under its basename. */
  function Load(t: Tables, doc: Document): Tables {
    if doc == [] then t
    else LoadEntry(Load(t, doc[..|doc| - 1]), doc[|doc| - 1].0, doc[|doc| - 1].1)
  }

  lemma LoadOne(t: Tables, doc: Document, i: nat)
    requires i < |doc|
    ensures Load(t, doc[..i + 1]) == LoadEntry(Load(t, doc[..i]), doc[i].0, doc[i].1)
  {
    assert doc[..i + 1][..i] == doc[..i];
  }

  function Lookup<V>(o: Obj<V>, key: string): Option<V> {
    if o == [] then None else if o[|o| - 1].0 == key then Some(o[|o| - 1].1) else Lookup(o[..|o| - 1], key)
  }

  /** Does the version check let the document through? */
  predicate VersionPasses(doc: Document, expected: string) {
    expected == "" || Lookup(doc, "version") == Some(Text(expected))
  }

  // ================= the modules of a document =================

  /** What a module entry holds, with nothing missing. */
  datatype ModuleData = ModuleData(
    name: string, buildId: string, typeSizes: Obj<U32>, memberOffsets: Obj<U32>,
    func2pc: Obj<U64>, func2vf: Obj<seq<VarField>>)

  function DataOf(name: string, m: Module): ModuleData {
    ModuleData(name, m.buildId.GetOr(""), PartOf(m.typeSizes), PartOf(m.memberOffsets),
               PartOf(m.func2pc), PartOf(m.func2vf))
  }

  /** The module entries in file order, under their basenames. */
  function ModulesOf(doc: Document): seq<ModuleData> {
    if doc == [] then []
    else
      var before, (key, v) := ModulesOf(doc[..|doc| - 1]), doc[|doc| - 1];
      if IsModuleEntry(v) then before + [DataOf(Basename(key), v.m)] else before
  }

  function TextOr(v: Option<Value>, default: string): string {
    if v.Some? && v.value.Text? then v.value.text else default
  }
}
