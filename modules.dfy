// System modules: the module catalogue and the list of installed modules that
// the outfit widget and the systems widget both keep, with the hull budget
// they share.

module SystemModules {
  import opened Wrappers
  import opened Text

  /** A catalogue entry: display name, system hulls it takes, and its instance limit (None = unlimited). */
  datatype ModuleType = ModuleType(name: string, systemHulls: int, maxCount: Option<int>)

  /** The module catalogue, keyed by module id (identical in both widgets). */
  const Catalog: map<string, ModuleType> := map[
    "surveyEquipment" := ModuleType("Survey Equipment", 1, Some(1)),
    "longRangeScanner" := ModuleType("Long Range Scanner", 6, Some(1)),
    "commandBridge" := ModuleType("Command Bridge", 6, Some(1)),
    "quantumWarfare3" := ModuleType("Quantum Warfare System (Basic)", 3, Some(1)),
    "quantumWarfare5" := ModuleType("Quantum Warfare System (Advanced)", 5, Some(1)),
    "quantumWarfare8" := ModuleType("Quantum Warfare System (Elite)", 8, Some(1)),
    "hyperdrive1" := ModuleType("Hyperdrive (Class I)", 1, Some(1)),
    "hyperdrive2" := ModuleType("Hyperdrive (Class II)", 2, Some(1)),
    "hyperdrive3" := ModuleType("Hyperdrive (Class III)", 3, Some(1)),
    "magneticHeatManagement" := ModuleType("Magnetic Heat Management", 1, None),
    "demonHeatManagement" := ModuleType("Demon Heat Management", 1, None),
    "berthModule" := ModuleType("Berth", 1, None)
  ]

  /** An installed module instance. */
  datatype InstalledModule = InstalledModule(id: string, moduleId: string, name: string, systemHulls: int)

  /** Every catalogue entry takes at least one hull. */
  lemma CatalogHullsPositive(k: string)
    requires k in Catalog
    ensures Catalog[k].systemHulls >= 1
  {
  }

  /** A module of which at most one instance may be installed. */
  predicate IsSingleInstance(moduleId: string)
  {
    moduleId in Catalog && Catalog[moduleId].maxCount == Some(1)
  }

  /** Array.prototype.find on the module id, as a yes/no answer. */
  function HasModule(ms: seq<InstalledModule>, moduleId: string): (r: bool)
    ensures r <==> exists i :: 0 <= i < |ms| && ms[i].moduleId == moduleId
  {
    if ms == [] then false
    else ms[|ms| - 1].moduleId == moduleId || HasModule(ms[..|ms| - 1], moduleId)
  }

  /** canInstallModule. */
  function CanInstall(ms: seq<InstalledModule>, moduleId: string): bool
  {
    moduleId in Catalog && (IsSingleInstance(moduleId) ==> !HasModule(ms, moduleId))
  }

  /** The instance id `${moduleId}-${stamp}`, with the clock reading passed in. */
  function InstanceId(moduleId: string, stamp: nat): string
  {
    moduleId + "-" + NatToString(stamp)
  }

  /** The installed instance built from a catalogue entry. */
  function Instance(moduleId: string, stamp: nat): InstalledModule
    requires moduleId in Catalog
  {
    InstalledModule(InstanceId(moduleId, stamp), moduleId, Catalog[moduleId].name, Catalog[moduleId].systemHulls)
  }

  /** Array.prototype.findIndex on the instance id: the first match, or -1. */
  function FindInstance(ms: seq<InstalledModule>, instanceId: string): (r: int)
    ensures -1 <= r < |ms|
    ensures r == -1 ==> forall i :: 0 <= i < |ms| ==> ms[i].id != instanceId
    ensures r >= 0 ==> ms[r].id == instanceId && forall i :: 0 <= i < r ==> ms[i].id != instanceId
  {
    if ms == [] then -1
    else if ms[0].id == instanceId then 0
    else
      var k := FindInstance(ms[1..], instanceId);
      if k == -1 then -1 else k + 1
  }

  /** Array.prototype.splice(i, 1). */
  function RemoveAt<T>(s: seq<T>, i: nat): (r: seq<T>)
    requires i < |s|
    ensures |r| == |s| - 1
    ensures forall j :: 0 <= j < i ==> r[j] == s[j]
    ensures forall j :: i <= j < |r| ==> r[j] == s[j + 1]
  {
    s[..i] + s[i + 1..]
  }

  /** The hulls taken by the installed modules. */
  function SumHulls(ms: seq<InstalledModule>): int
  {
    if ms == [] then 0 else SumHulls(ms[..|ms| - 1]) + ms[|ms| - 1].systemHulls
  }

  lemma {:induction false} SumHullsAppend(a: seq<InstalledModule>, b: seq<InstalledModule>)
    ensures SumHulls(a + b) == SumHulls(a) + SumHulls(b)
    decreases |b|
  {
    if b == [] {
      assert a + b == a;
    } else {
      var b' := b[..|b| - 1];
      assert (a + b)[..|a + b| - 1] == a + b';
      SumHullsAppend(a, b');
    }
  }

  /** Removing one instance gives back exactly its hulls. */
  lemma SumHullsRemoveAt(ms: seq<InstalledModule>, i: nat)
    requires i < |ms|
    ensures SumHulls(RemoveAt(ms, i)) == SumHulls(ms) - ms[i].systemHulls
  {
    var a, b := ms[..i], ms[i + 1..];
    assert RemoveAt(ms, i) == a + b;
    assert ms == (a + [ms[i]]) + b;
    SumHullsAppend(a + [ms[i]], b);
    SumHullsSingle(a, ms[i]);
    SumHullsAppend(a, b);
  }

  lemma SumHullsSingle(a: seq<InstalledModule>, m: InstalledModule)
    ensures SumHulls(a + [m]) == SumHulls(a) + m.systemHulls
  {
    assert (a + [m])[..|a + [m]| - 1] == a;
  }

  /** Every installed instance takes a non-negative number of hulls. */
  predicate HullsNonNegative(ms: seq<InstalledModule>)
  {
    forall i :: 0 <= i < |ms| ==> ms[i].systemHulls >= 0
  }

  lemma {:induction false} SumHullsBounds(ms: seq<InstalledModule>, i: nat)
    requires HullsNonNegative(ms) && i < |ms|
    ensures SumHulls(ms) >= ms[i].systemHulls >= 0
  {
    SumHullsRemoveAt(ms, i);
    SumHullsNonNegative(RemoveAt(ms, i));
  }

  lemma {:induction false} SumHullsNonNegative(ms: seq<InstalledModule>)
    requires HullsNonNegative(ms)
    ensures SumHulls(ms) >= 0
    decreases |ms|
  {
    if ms != [] {
      SumHullsNonNegative(ms[..|ms| - 1]);
    }
  }

  /** No single-instance module is installed twice. */
  predicate SingleInstancesUnique(ms: seq<InstalledModule>)
  {
    forall i, j :: 0 <= i < j < |ms| && IsSingleInstance(ms[i].moduleId) ==> ms[j].moduleId != ms[i].moduleId
  }

  /**
   * canInstallModule is false for an unknown id and for a single-instance
   * module that is already installed, and true otherwise; appending an
   * installable instance keeps single-instance modules unique.
   */
  lemma CanInstallSpec(ms: seq<InstalledModule>, moduleId: string, m: InstalledModule)
    requires SingleInstancesUnique(ms) && m.moduleId == moduleId
    ensures CanInstall(ms, moduleId) <==>
      moduleId in Catalog && !(IsSingleInstance(moduleId) && exists i :: 0 <= i < |ms| && ms[i].moduleId == moduleId)
    ensures CanInstall(ms, moduleId) ==> SingleInstancesUnique(ms + [m])
  {
    if CanInstall(ms, moduleId) {
      var r := ms + [m];
      forall i, j | 0 <= i < j < |r| && IsSingleInstance(r[i].moduleId)
        ensures r[j].moduleId != r[i].moduleId
      {
        if j == |ms| {
          assert r[i] == ms[i];
        }
      }
    }
  }

  /** Removing an instance keeps single-instance modules unique. */
  lemma RemoveKeepsUnique(ms: seq<InstalledModule>, k: nat)
    requires SingleInstancesUnique(ms) && k < |ms|
    ensures SingleInstancesUnique(RemoveAt(ms, k))
  {
    var r := RemoveAt(ms, k);
    forall i, j | 0 <= i < j < |r| && IsSingleInstance(r[i].moduleId)
      ensures r[j].moduleId != r[i].moduleId
    {
      var i' := if i < k then i else i + 1;
      var j' := if j < k then j else j + 1;
      assert r[i] == ms[i'] && r[j] == ms[j'];
    }
  }

  /** The state of the system-hull budget (outfitData.systemsData / systemsData). */
  datatype SystemsData = SystemsData(
    available: int, used: int, modules: seq<InstalledModule>, magnetic: int, demon: int)

  const EmptySystems := SystemsData(0, 0, [], 0, 0)

  /**
   * The budget invariant: used hulls are the installed modules' hulls plus
   * one per heat-management system, and never exceed the available hulls.
   */
  predicate Consistent(d: SystemsData)
  {
    && d.magnetic >= 0 && d.demon >= 0
    && HullsNonNegative(d.modules)
    && SingleInstancesUnique(d.modules)
    && d.used == SumHulls(d.modules) + d.magnetic + d.demon
    && d.used <= d.available
  }

  /** installModule (the same in both widgets): appended only when known, installable and within the budget. */
  function Install(d: SystemsData, moduleId: string, stamp: nat): SystemsData
  {
    if moduleId !in Catalog || !CanInstall(d.modules, moduleId) then d
    else
      var total := d.used + Catalog[moduleId].systemHulls;
      if total > d.available then d
      else d.(modules := d.modules + [Instance(moduleId, stamp)], used := total)
  }

  /**
   * installModule changes nothing for an unknown or non-installable module
   * or when the hulls would exceed the budget; otherwise it appends exactly
   * one instance of that module and adds its hulls to used. It preserves the
   * budget invariant.
   */
  lemma InstallSpec(d: SystemsData, moduleId: string, stamp: nat)
    requires Consistent(d)
    ensures var r := Install(d, moduleId, stamp);
      && Consistent(r)
      && (r == d <==> !CanInstall(d.modules, moduleId) || d.used + Catalog[moduleId].systemHulls > d.available)
      && (r != d ==>
            && |r.modules| == |d.modules| + 1 && r.modules[..|d.modules|] == d.modules
            && r.modules[|d.modules|].moduleId == moduleId
            && r.modules[|d.modules|].systemHulls == Catalog[moduleId].systemHulls
            && r.used == d.used + Catalog[moduleId].systemHulls
            && r.magnetic == d.magnetic && r.demon == d.demon && r.available == d.available)
  {
    var r := Install(d, moduleId, stamp);
    if CanInstall(d.modules, moduleId) && d.used + Catalog[moduleId].systemHulls <= d.available {
      var m := Instance(moduleId, stamp);
      CanInstallSpec(d.modules, moduleId, m);
      CatalogHullsPositive(moduleId);
      SumHullsSingle(d.modules, m);
      assert r.modules == d.modules + [m];
      assert r.modules[..|d.modules|] == d.modules;
      assert |r.modules| != |d.modules|;
    }
  }
}
