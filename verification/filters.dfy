/** The dashboard's capability filter: a required/not-required switch per
    capability flag, toggled one at a time, and the conjunctive filter it
    applies to the company list (src/App.jsx). */
module Filters {
  import opened Records

  /** The `filters` state: for each flag, whether it is currently required. */
  datatype FilterSet = FilterSet(
    web3Native: bool,
    inferenceApis: bool,
    customModelHosting: bool,
    fineTuningPipeline: bool,
    rentGpuCompute: bool)

  /** The state the dashboard starts in. */
  const InitialFilters: FilterSet := FilterSet(false, false, false, false, false)

  /** `filters[f]`. */
  function Active(fs: FilterSet, f: Flag): bool {
    match f
    case Web3Native => fs.web3Native
    case InferenceApis => fs.inferenceApis
    case CustomModelHosting => fs.customModelHosting
    case FineTuningPipeline => fs.fineTuningPipeline
    case RentGpuCompute => fs.rentGpuCompute
  }

  /** Initially no flag is required. */
  lemma InitiallyNoneActive(f: Flag)
    ensures !Active(InitialFilters, f)
  {
  }

  /** `toggleFilter(f)`: flips flag `f` and keeps every other flag. */
  function Toggle(fs: FilterSet, f: Flag): (r: FilterSet)
    ensures Active(r, f) == !Active(fs, f)
    ensures forall g :: g != f ==> Active(r, g) == Active(fs, g)
  {
    match f
    case Web3Native => fs.(web3Native := !fs.web3Native)
    case InferenceApis => fs.(inferenceApis := !fs.inferenceApis)
    case CustomModelHosting => fs.(customModelHosting := !fs.customModelHosting)
    case FineTuningPipeline => fs.(fineTuningPipeline := !fs.fineTuningPipeline)
    case RentGpuCompute => fs.(rentGpuCompute := !fs.rentGpuCompute)
  }

  /** Two filter states that agree on every flag are the same state. */
  lemma FilterSetExtensional(a: FilterSet, b: FilterSet)
    requires forall f :: Active(a, f) == Active(b, f)
    ensures a == b
  {
    assert Active(a, Web3Native) == Active(b, Web3Native);
    assert Active(a, InferenceApis) == Active(b, InferenceApis);
    assert Active(a, CustomModelHosting) == Active(b, CustomModelHosting);
    assert Active(a, FineTuningPipeline) == Active(b, FineTuningPipeline);
    assert Active(a, RentGpuCompute) == Active(b, RentGpuCompute);
  }

  /** Toggling the same flag twice restores the original filter state. */
  lemma ToggleTwice(fs: FilterSet, f: Flag)
    ensures Toggle(Toggle(fs, f), f) == fs
  {
    FilterSetExtensional(Toggle(Toggle(fs, f), f), fs);
  }

  /** Toggles of two flags can be made in either order. */
  lemma ToggleCommutes(fs: FilterSet, f: Flag, g: Flag)
    ensures Toggle(Toggle(fs, f), g) == Toggle(Toggle(fs, g), f)
  {
    FilterSetExtensional(Toggle(Toggle(fs, f), g), Toggle(Toggle(fs, g), f));
  }

  /** `Object.values(filters).some(v => v)`, scanning `flags`. */
  function SomeActive(fs: FilterSet, flags: seq<Flag>): (r: bool)
    ensures r <==> exists i :: 0 <= i < |flags| && Active(fs, flags[i])
  {
    if |flags| == 0 then false
    else Active(fs, flags[0]) || SomeActive(fs, flags[1..])
  }

  /** `anyFilterActive`: some flag is currently required. */
  function AnyActive(fs: FilterSet): (r: bool)
    ensures r <==> exists f :: Active(fs, f)
  {
    var r := SomeActive(fs, AllFlags);
    forall f | Active(fs, f)
      ensures r
    {
      AllFlagsListsEveryFlag(f);
      var i :| 0 <= i < |AllFlags| && AllFlags[i] == f;
    }
    r
  }

  /** The `every` callback over the filter entries in `flags`: each entry that
      is required needs `company[key] === true`. */
  function EveryRequired(c: Company, fs: FilterSet, flags: seq<Flag>): (r: bool)
    ensures r <==> forall i :: 0 <= i < |flags| ==> (Active(fs, flags[i]) ==> Capability(c, flags[i]) == Bool(true))
  {
    if |flags| == 0 then true
    else (!Active(fs, flags[0]) || Capability(c, flags[0]) == Bool(true)) && EveryRequired(c, fs, flags[1..])
  }

  /** A company survives the filter exactly when every required flag is
      strictly `true` in it; truthy values other than `true` do not count. */
  function Passes(c: Company, fs: FilterSet): (r: bool)
    ensures r <==> forall f :: Active(fs, f) ==> Capability(c, f) == Bool(true)
  {
    var r := EveryRequired(c, fs, AllFlags);
    assert r ==> forall f :: Active(fs, f) ==> Capability(c, f) == Bool(true) by {
      forall f
        ensures r ==> (Active(fs, f) ==> Capability(c, f) == Bool(true))
      {
        AllFlagsListsEveryFlag(f);
      }
    }
    r
  }

  /** The `filtered.filter(...)` step: the passing companies, in order. */
  function KeepPassing(cs: seq<Company>, fs: FilterSet): (r: seq<Company>)
    ensures |r| <= |cs|
  {
    if |cs| == 0 then []
    else (if Passes(cs[0], fs) then [cs[0]] else []) + KeepPassing(cs[1..], fs)
  }

  /** Each company occurs in the filtered list as often as in the input if it
      passes, and not at all otherwise. */
  lemma {:induction false} KeepPassingCounts(cs: seq<Company>, fs: FilterSet)
    ensures forall c :: multiset(KeepPassing(cs, fs))[c] == if Passes(c, fs) then multiset(cs)[c] else 0
  {
    if |cs| > 0 {
      KeepPassingCounts(cs[1..], fs);
      assert cs == [cs[0]] + cs[1..];
    }
  }

  /** `applyFilters` before sorting: the filter runs only when some flag is
      required. Each company occurs in the result as often as in the input if
      it passes, and not at all otherwise. */
  function ApplyFilters(cs: seq<Company>, fs: FilterSet): (r: seq<Company>)
    ensures |r| <= |cs|
    ensures forall c :: multiset(r)[c] == if Passes(c, fs) then multiset(cs)[c] else 0
    ensures multiset(r) <= multiset(cs)
  {
    KeepPassingCounts(cs, fs);
    if AnyActive(fs) then KeepPassing(cs, fs) else cs
  }

  /** With no flag required every company passes, so filtering keeps the
      whole list unchanged. */
  lemma {:induction false} KeepPassingNoneActive(cs: seq<Company>, fs: FilterSet)
    requires !AnyActive(fs)
    ensures KeepPassing(cs, fs) == cs
  {
    if |cs| > 0 {
      KeepPassingNoneActive(cs[1..], fs);
    }
  }

  /** The `anyFilterActive` shortcut is only a shortcut: it gives the same list
      as always running the filter. */
  lemma ApplyFiltersIsKeepPassing(cs: seq<Company>, fs: FilterSet)
    ensures ApplyFilters(cs, fs) == KeepPassing(cs, fs)
  {
    if !AnyActive(fs) {
      KeepPassingNoneActive(cs, fs);
    }
  }
}
