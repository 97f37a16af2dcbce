/** The array sizes of the generated table: large enough for every entry, and no larger. */
module TableLimits {
  import opened Words
  import opened VarPath
  import opened Documents

  datatype Limits = Limits(modules: nat, funcs: nat, varFields: nat, fields: nat, typeSizes: nat, memberOffsets: nat)

  function Max(a: nat, b: nat): nat {
    if a >= b then a else b
  }

  function Join(a: Limits, b: Limits): Limits {
    Limits(Max(a.modules, b.modules), Max(a.funcs, b.funcs), Max(a.varFields, b.varFields),
           Max(a.fields, b.fields), Max(a.typeSizes, b.typeSizes), Max(a.memberOffsets, b.memberOffsets))
  }

  predicate AtMost(a: Limits, b: Limits) {
    && a.modules <= b.modules && a.funcs <= b.funcs && a.varFields <= b.varFields
    && a.fields <= b.fields && a.typeSizes <= b.typeSizes && a.memberOffsets <= b.memberOffsets
  }

  const NONE: Limits := Limits(0, 0, 0, 0, 0, 0)

  /** Arrays that are members of every module must not be empty in C++. */
  const LEAST: Limits := Limits(0, 0, 0, 0, 1, 1)

  // ================= does an entry fit? =================

  predicate VariablesFit(vfs: seq<VarField>, l: Limits) {
    |vfs| <= l.varFields && forall i | 0 <= i < |vfs| :: |vfs[i].fields| <= l.fields
  }

  predicate ModuleFits(m: ModuleData, l: Limits) {
    && |m.typeSizes| <= l.typeSizes && |m.memberOffsets| <= l.memberOffsets
    && |m.func2pc| <= l.funcs && |m.func2vf| <= l.funcs
    && forall i | 0 <= i < |m.func2vf| :: VariablesFit(m.func2vf[i].1, l)
  }

  /** Every array of the entry is within its declared size. */
  predicate Fits(ms: seq<ModuleData>, l: Limits) {
    |ms| <= l.modules && forall i | 0 <= i < |ms| :: ModuleFits(ms[i], l)
  }

  // ================= what the loops compute =================

  function VariablesNeed(vfs: seq<VarField>): Limits {
    if vfs == [] then NONE
    else
      Join(VariablesNeed(vfs[..|vfs| - 1]), NONE.(varFields := |vfs|, fields := |vfs[|vfs| - 1].fields|))
  }

  function FunctionsNeed(fs: Obj<seq<VarField>>): Limits {
    if fs == [] then NONE
    else Join(FunctionsNeed(fs[..|fs| - 1]), VariablesNeed(fs[|fs| - 1].1))
  }

  function ModuleNeeds(m: ModuleData): Limits {
    Join(NONE.(funcs := Max(|m.func2pc|, |m.func2vf|), typeSizes := |m.typeSizes|, memberOffsets := |m.memberOffsets|),
         FunctionsNeed(m.func2vf))
  }

  function EntryNeeds(ms: seq<ModuleData>): Limits {
    if ms == [] then NONE
    else Join(EntryNeeds(ms[..|ms| - 1]), ModuleNeeds(ms[|ms| - 1]).(modules := |ms|))
  }

  function Needs(docs: seq<Document>): Limits {
    if docs == [] then LEAST else Join(Needs(docs[..|docs| - 1]), EntryNeeds(ModulesOf(docs[|docs| - 1])))
  }

  lemma {:induction false} VariablesOnly(vfs: seq<VarField>)
    ensures VariablesNeed(vfs).modules == 0
  {
    if vfs != [] { VariablesOnly(vfs[..|vfs| - 1]); }
  }

  lemma {:induction false} FunctionsOnly(fs: Obj<seq<VarField>>)
    ensures FunctionsNeed(fs).modules == 0
  {
    if fs != [] {
      FunctionsOnly(fs[..|fs| - 1]);
      VariablesOnly(fs[|fs| - 1].1);
    }
  }

  // ---- analyze_limits ----

  method AnalyzeVariables(start: Limits, vfs: seq<VarField>) returns (l: Limits)
    ensures l == Join(start, VariablesNeed(vfs))
  {
    l := start.(varFields := Max(start.varFields, |vfs|));
    var i := 0;
    while i < |vfs|
      invariant 0 <= i <= |vfs|
      invariant l == Join(start, VariablesNeed(vfs[..i])).(varFields := Max(start.varFields, |vfs|))
    {
      assert vfs[..i + 1][..i] == vfs[..i];
      l := l.(fields := Max(l.fields, |vfs[i].fields|));
      i := i + 1;
    }
    assert vfs[..i] == vfs;
    VariablesCount(vfs);
  }

  lemma {:induction false} VariablesCount(vfs: seq<VarField>)
    ensures VariablesNeed(vfs).varFields == |vfs|
  {
    if vfs != [] { VariablesCount(vfs[..|vfs| - 1]); }
  }

  method AnalyzeFunctions(start: Limits, fs: Obj<seq<VarField>>) returns (l: Limits)
    ensures l == Join(start, FunctionsNeed(fs))
  {
    l := start;
    var i := 0;
    while i < |fs|
      invariant 0 <= i <= |fs| && l == Join(start, FunctionsNeed(fs[..i]))
    {
      assert fs[..i + 1][..i] == fs[..i];
      l := AnalyzeVariables(l, fs[i].1);
      i := i + 1;
    }
    assert fs[..i] == fs;
  }

  method AnalyzeModule(start: Limits, m: Module) returns (l: Limits)
    ensures l == Join(start, ModuleNeeds(DataOf("", m)))
  {
    l := start;
    if m.func2pc.Some? { l := l.(funcs := Max(l.funcs, |m.func2pc.value|)); }
    l := l.(typeSizes := Max(l.typeSizes, |m.typeSizes.GetOr([])|));
    l := l.(memberOffsets := Max(l.memberOffsets, |m.memberOffsets.GetOr([])|));
    if m.func2vf.Some? {
      l := l.(funcs := Max(l.funcs, |m.func2vf.value|));
      l := AnalyzeFunctions(l, m.func2vf.value);
    }
  }

  method AnalyzeDocument(start: Limits, doc: Document) returns (l: Limits)
    ensures l == Join(start, EntryNeeds(ModulesOf(doc)))
  {
    l := start;
    var numModules := 0;
    var i := 0;
    while i < |doc|
      invariant 0 <= i <= |doc| && numModules == |ModulesOf(doc[..i])|
      invariant l == Join(start, EntryNeeds(ModulesOf(doc[..i])).(modules := 0))
    {
      NextModule(doc, i);
      if IsModuleEntry(doc[i].1) {
        numModules := numModules + 1;
        l := AnalyzeModule(l, doc[i].1.m);
      }
      i := i + 1;
    }
    assert doc[..i] == doc;
    EntryCount(ModulesOf(doc));
    l := l.(modules := Max(l.modules, numModules));
  }

  lemma NextModule(doc: Document, i: nat)
    requires i < |doc|
    ensures var ms, next := ModulesOf(doc[..i]), ModulesOf(doc[..i + 1]);
            if IsModuleEntry(doc[i].1)
            then |next| == |ms| + 1
                 && EntryNeeds(next).(modules := 0)
                    == Join(EntryNeeds(ms).(modules := 0), ModuleNeeds(DataOf("", doc[i].1.m)))
            else next == ms
  {
    assert doc[..i + 1][..i] == doc[..i];
    if IsModuleEntry(doc[i].1) {
      var ms, m := ModulesOf(doc[..i]), DataOf(Basename(doc[i].0), doc[i].1.m);
      FunctionsOnly(m.func2vf);
      assert (ms + [m])[..|ms|] == ms;
    }
  }

  lemma {:induction false} EntryCount(ms: seq<ModuleData>)
    ensures EntryNeeds(ms).modules == |ms|
  {
    if ms != [] { EntryCount(ms[..|ms| - 1]); }
  }

  method AnalyzeLimits(docs: seq<Document>) returns (l: Limits)
    ensures l == Needs(docs)
  {
    l := LEAST;
    var i := 0;
    while i < |docs|
      invariant 0 <= i <= |docs| && l == Needs(docs[..i])
    {
      assert docs[..i + 1][..i] == docs[..i];
      l := AnalyzeDocument(l, docs[i]);
      i := i + 1;
    }
    assert docs[..i] == docs;
  }

  // ================= the limits are the least that fit =================

  lemma {:induction false} VariablesFitIff(vfs: seq<VarField>, l: Limits)
    ensures VariablesFit(vfs, l) <==> AtMost(VariablesNeed(vfs), l)
  {
    if vfs != [] {
      var front := vfs[..|vfs| - 1];
      VariablesFitIff(front, l);
      VariablesCount(vfs);
      assert forall i | 0 <= i < |front| :: front[i] == vfs[i];
      assert VariablesFit(vfs, l) <==> VariablesFit(front, l) && |vfs| <= l.varFields && |vfs[|vfs| - 1].fields| <= l.fields;
    }
  }

  lemma {:induction false} FunctionsFitIff(fs: Obj<seq<VarField>>, l: Limits)
    ensures (forall i | 0 <= i < |fs| :: VariablesFit(fs[i].1, l)) <==> AtMost(FunctionsNeed(fs), l)
  {
    if fs != [] {
      var front, last := fs[..|fs| - 1], fs[|fs| - 1].1;
      FunctionsFitIff(front, l);
      VariablesFitIff(last, l);
      assert forall i | 0 <= i < |front| :: front[i] == fs[i];
      assert (forall i | 0 <= i < |fs| :: VariablesFit(fs[i].1, l))
             <==> (forall i | 0 <= i < |front| :: VariablesFit(front[i].1, l)) && VariablesFit(last, l);
    }
  }

  lemma ModuleFitsIff(m: ModuleData, l: Limits)
    ensures ModuleFits(m, l) <==> AtMost(ModuleNeeds(m), l)
  {
    FunctionsFitIff(m.func2vf, l);
    FunctionsOnly(m.func2vf);
  }

  lemma FitsSplit(ms: seq<ModuleData>, l: Limits)
    requires ms != []
    ensures Fits(ms, l) <==> Fits(ms[..|ms| - 1], l) && |ms| <= l.modules && ModuleFits(ms[|ms| - 1], l)
  {
    var front := ms[..|ms| - 1];
    assert forall i | 0 <= i < |front| :: front[i] == ms[i];
  }

  lemma {:induction false} FitsIff(ms: seq<ModuleData>, l: Limits)
    ensures Fits(ms, l) <==> AtMost(EntryNeeds(ms), l)
  {
    if ms != [] {
      var front, last := ms[..|ms| - 1], ms[|ms| - 1];
      FitsIff(front, l);
      ModuleFitsIff(last, l);
      FunctionsOnly(last.func2vf);
      EntryCount(front);
      FitsSplit(ms, l);
    }
  }

  predicate AllFit(docs: seq<Document>, l: Limits) {
    forall i | 0 <= i < |docs| :: Fits(ModulesOf(docs[i]), l)
  }

  lemma AllFitSplit(docs: seq<Document>, l: Limits)
    requires docs != []
    ensures AllFit(docs, l) <==> AllFit(docs[..|docs| - 1], l) && Fits(ModulesOf(docs[|docs| - 1]), l)
  {
    var front := docs[..|docs| - 1];
    assert forall i | 0 <= i < |front| :: front[i] == docs[i];
  }

  /** Limits hold every generated entry, with the two arrays that may not be empty non-empty, if
      and only if they are at least what analyze_limits computes. */
  lemma {:induction false} LimitsAreLeast(docs: seq<Document>, l: Limits)
    ensures AtMost(Needs(docs), l) <==> l.typeSizes >= 1 && l.memberOffsets >= 1 && AllFit(docs, l)
  {
    if docs != [] {
      LimitsAreLeast(docs[..|docs| - 1], l);
      FitsIff(ModulesOf(docs[|docs| - 1]), l);
      AllFitSplit(docs, l);
    }
  }
}
