/** Dependency-footprint metrics. Without the module graph's edges, the per-module
    footprint is a stub and the project footprint only counts modules. */
module Footprint {
  import opened Parser

  datatype FootprintMetrics = FootprintMetrics(transitiveDeps: int, maxDepth: int, dependencyWeight: real)

  const ZeroFootprint := FootprintMetrics(0, 0, 0.0)

  /** `CalculateFootprint`: the per-module footprint is all zeros, whatever the module
      and whatever the rest of the graph. */
  function CalculateFootprint(target: Module, allModules: seq<Module>): (r: FootprintMetrics)
    ensures r.transitiveDeps == 0 && r.maxDepth == 0 && r.dependencyWeight == 0.0
  {
    ZeroFootprint
  }

  /** Number of direct (not indirect) modules, counted from the end so that a prefix
      count extends by one element. */
  function CountDirect(modules: seq<Module>): nat {
    if modules == [] then 0
    else CountDirect(modules[..|modules| - 1]) + (if modules[|modules| - 1].indirect then 0 else 1)
  }

  /** Number of modules marked indirect, counted from the front. */
  function CountIndirect(modules: seq<Module>): nat {
    if modules == [] then 0
    else (if modules[0].indirect then 1 else 0) + CountIndirect(modules[1..])
  }

  lemma CountIndirectSnoc(modules: seq<Module>, m: Module)
    ensures CountIndirect(modules + [m]) == CountIndirect(modules) + (if m.indirect then 1 else 0)
  {
    if modules != [] {
      assert (modules + [m])[1..] == modules[1..] + [m];
      CountIndirectSnoc(modules[1..], m);
    }
  }

  /** Every module is either direct or indirect: the two counts partition the list. */
  lemma {:induction false} DirectPlusIndirect(modules: seq<Module>)
    ensures CountDirect(modules) + CountIndirect(modules) == |modules|
  {
    if modules != [] {
      var init := modules[..|modules| - 1];
      var last := modules[|modules| - 1];
      assert modules == init + [last];
      DirectPlusIndirect(init);
      CountIndirectSnoc(init, last);
    }
  }

  /** Counting distributes over concatenation. */
  lemma {:induction false} CountIndirectAppend(a: seq<Module>, b: seq<Module>)
    ensures CountIndirect(a + b) == CountIndirect(a) + CountIndirect(b)
  {
    if a != [] {
      assert (a + b)[1..] == a[1..] + b;
      CountIndirectAppend(a[1..], b);
    } else {
      assert a + b == b;
    }
  }

  /** No transitive dependencies exactly when every module is direct. */
  lemma {:induction false} NoIndirectIffAllDirect(modules: seq<Module>)
    ensures CountIndirect(modules) == 0 <==> forall i :: 0 <= i < |modules| ==> !modules[i].indirect
  {
    if modules != [] {
      NoIndirectIffAllDirect(modules[1..]);
      assert forall i :: 1 <= i < |modules| ==> modules[i] == modules[1..][i - 1];
    }
  }

  /** Every module counts as transitive exactly when every module is indirect. */
  lemma {:induction false} AllIndirectIffCountIsLength(modules: seq<Module>)
    ensures CountIndirect(modules) == |modules| <==> forall i :: 0 <= i < |modules| ==> modules[i].indirect
  {
    if modules != [] {
      AllIndirectIffCountIsLength(modules[1..]);
      IndirectBound(modules[1..]);
      assert forall i :: 1 <= i < |modules| ==> modules[i] == modules[1..][i - 1];
    }
  }

  lemma {:induction false} IndirectBound(modules: seq<Module>)
    ensures CountIndirect(modules) <= |modules|
  {
    if modules != [] {
      IndirectBound(modules[1..]);
    }
  }

  /** `CalculateProjectFootprint`: counts the direct modules in one pass; the transitive
      count is what is left, the weight is the module count and the depth is unknown (0). */
  method CalculateProjectFootprint(modules: seq<Module>) returns (r: FootprintMetrics)
    ensures r.transitiveDeps == CountIndirect(modules)
    ensures 0 <= r.transitiveDeps <= |modules|
    ensures r.maxDepth == 0
    ensures r.dependencyWeight == |modules| as real
    ensures modules == [] ==> r == ZeroFootprint
  {
    var total := |modules|;
    var direct := 0;
    var i := 0;
    while i < |modules|
      invariant 0 <= i <= |modules|
      invariant direct == CountDirect(modules[..i])
    {
      assert modules[..i + 1][..i] == modules[..i];
      if !modules[i].indirect {
        direct := direct + 1;
      }
      i := i + 1;
    }
    assert modules[..|modules|] == modules;
    DirectPlusIndirect(modules);
    return FootprintMetrics(total - direct, 0, total as real);
  }
}
