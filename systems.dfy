// The systems widget: the same module catalogue and hull budget as the
// outfit widget, with its own rules for uninstalling and for heat
// management, and an available-hull count set from outside.

module Systems {
  import opened Wrappers
  import opened SystemModules

  datatype HeatType = Magnetic | Demon

  /** The technology a heat type asks for. */
  function HeatTech(t: HeatType): string
  {
    match t
    case Magnetic => "magnetic-fields"
    case Demon => "demon-technology"
  }

  /**
   * hasTech: `empire?.hasTech(techId) || true`, with the empire's answer
   * passed in (None when there is no empire). The trailing `|| true` makes
   * every answer true.
   */
  function HasTech(empireAnswer: Option<bool>): (r: bool)
    ensures r
  {
    (empireAnswer.Some? && empireAnswer.value) || true
  }

  function Counter(d: SystemsData, t: HeatType): int
  {
    match t
    case Magnetic => d.magnetic
    case Demon => d.demon
  }

  function WithCounter(d: SystemsData, t: HeatType, v: int): SystemsData
  {
    match t
    case Magnetic => d.(magnetic := v)
    case Demon => d.(demon := v)
  }

  /** uninstallModule: the first instance with that id is removed and its hulls subtracted, unclamped. */
  function Uninstall(d: SystemsData, instanceId: string): SystemsData
  {
    var idx := FindInstance(d.modules, instanceId);
    if idx == -1 then d
    else d.(used := d.used - d.modules[idx].systemHulls, modules := RemoveAt(d.modules, idx))
  }

  /** addHeatManagement: refused when no hull is free (or, never, for want of the technology). */
  function AddHeat(d: SystemsData, t: HeatType, empireAnswer: Option<bool>): SystemsData
  {
    if d.used >= d.available then d
    else if !HasTech(empireAnswer) then d
    else WithCounter(d, t, Counter(d, t) + 1).(used := d.used + 1)
  }

  /** removeHeatManagement: only a positive counter is lowered, together with used. */
  function RemoveHeat(d: SystemsData, t: HeatType): SystemsData
  {
    if Counter(d, t) > 0 then WithCounter(d, t, Counter(d, t) - 1).(used := d.used - 1) else d
  }

  /** setAvailableSystemHulls. */
  function SetAvailable(d: SystemsData, count: int): SystemsData
  {
    d.(available := count)
  }

  /** calculateHeatDissipation: 2 per magnetic and 3 per demon system. */
  function HeatDissipation(d: SystemsData): int
  {
    d.magnetic * 2 + d.demon * 3
  }

  /** calculateCapacityBonus: 5 per magnetic and 8 per demon system. */
  function CapacityBonus(d: SystemsData): int
  {
    d.magnetic * 5 + d.demon * 8
  }

  /** The accounting half of the invariant: used hulls are exactly those of modules and heat systems. */
  predicate Accounted(d: SystemsData)
  {
    && d.magnetic >= 0 && d.demon >= 0
    && HullsNonNegative(d.modules)
    && d.used == SumHulls(d.modules) + d.magnetic + d.demon
  }

  /**
   * uninstallModule with an unknown instance id changes nothing; otherwise
   * it removes exactly the first instance with that id and subtracts its
   * hulls. Accounting is kept from any accounted state (no clamping is
   * needed) and so is the whole budget invariant.
   */
  lemma UninstallSpec(d: SystemsData, instanceId: string)
    requires Accounted(d)
    ensures var r := Uninstall(d, instanceId);
      && Accounted(r)
      && (Consistent(d) ==> Consistent(r))
      && r.available == d.available && r.magnetic == d.magnetic && r.demon == d.demon
      && ((forall i :: 0 <= i < |d.modules| ==> d.modules[i].id != instanceId) ==> r == d)
      && (forall i :: 0 <= i < |d.modules| && d.modules[i].id == instanceId ==>
            exists k :: 0 <= k < |d.modules| && d.modules[k].id == instanceId
              && r.modules == d.modules[..k] + d.modules[k + 1..]
              && r.used == d.used - d.modules[k].systemHulls)
  {
    var k := FindInstance(d.modules, instanceId);
    if k != -1 {
      var r := Uninstall(d, instanceId);
      SumHullsBounds(d.modules, k);
      SumHullsRemoveAt(d.modules, k);
      if Consistent(d) {
        RemoveKeepsUnique(d.modules, k);
      }
      assert HullsNonNegative(r.modules) by {
        forall i | 0 <= i < |r.modules| ensures r.modules[i].systemHulls >= 0 {
          assert r.modules[i] == d.modules[if i < k then i else i + 1];
        }
      }
    }
  }

  /**
   * addHeatManagement is refused exactly when used has reached the
   * available hulls; otherwise one system of that type and one used hull
   * are added. The invariant is kept.
   */
  lemma AddHeatSpec(d: SystemsData, t: HeatType, empireAnswer: Option<bool>)
    requires Consistent(d)
    ensures var r := AddHeat(d, t, empireAnswer);
      && Consistent(r)
      && (r == d <==> d.used >= d.available)
      && (d.used < d.available ==>
            && Counter(r, t) == Counter(d, t) + 1 && r.used == d.used + 1 && r.modules == d.modules
            && (t == Magnetic ==> r.demon == d.demon) && (t == Demon ==> r.magnetic == d.magnetic))
  {
  }

  /**
   * removeHeatManagement lowers a positive counter and used by one and
   * otherwise changes nothing; accounting and the budget are kept.
   */
  lemma RemoveHeatSpec(d: SystemsData, t: HeatType)
    requires Accounted(d)
    ensures var r := RemoveHeat(d, t);
      && Accounted(r)
      && (Consistent(d) ==> Consistent(r))
      && (Counter(d, t) > 0 ==>
            Counter(r, t) == Counter(d, t) - 1 && r.used == d.used - 1 && r.modules == d.modules
            && r.available == d.available)
      && (Counter(d, t) <= 0 ==> r == d)
  {
  }

  /**
   * Each added heat system raises dissipation and capacity by its type's
   * rates, and each removed one lowers them by the same.
   */
  lemma HeatRates(d: SystemsData, t: HeatType, empireAnswer: Option<bool>)
    requires Consistent(d)
    ensures var r := AddHeat(d, t, empireAnswer);
      d.used < d.available ==>
        && HeatDissipation(r) == HeatDissipation(d) + (if t == Magnetic then 2 else 3)
        && CapacityBonus(r) == CapacityBonus(d) + (if t == Magnetic then 5 else 8)
    ensures var r := RemoveHeat(d, t);
      Counter(d, t) > 0 ==>
        && HeatDissipation(r) == HeatDissipation(d) - (if t == Magnetic then 2 else 3)
        && CapacityBonus(r) == CapacityBonus(d) - (if t == Magnetic then 5 else 8)
  {
  }

  /**
   * setAvailableSystemHulls keeps the accounting but not the budget: any
   * count below the hulls in use leaves used above available, after which
   * installs and heat additions are refused until enough is uninstalled.
   */
  lemma SetAvailableSpec(d: SystemsData, count: int, moduleId: string, stamp: nat, t: HeatType, answer: Option<bool>)
    requires Accounted(d)
    ensures Accounted(SetAvailable(d, count))
    ensures Consistent(d) && count >= d.used ==> Consistent(SetAvailable(d, count))
    ensures count < d.used ==> !Consistent(SetAvailable(d, count))
    ensures var r := SetAvailable(d, count);
      count < d.used ==> Install(r, moduleId, stamp) == r && AddHeat(r, t, answer) == r
  {
    var r := SetAvailable(d, count);
    if count < d.used && moduleId in Catalog {
      CatalogHullsPositive(moduleId);
    }
  }

  /** A freshly stamped install is undone by uninstalling its instance id. */
  lemma InstallUninstall(d: SystemsData, moduleId: string, stamp: nat)
    requires forall i :: 0 <= i < |d.modules| ==> d.modules[i].id != InstanceId(moduleId, stamp)
    ensures Uninstall(Install(d, moduleId, stamp), InstanceId(moduleId, stamp)) == d
  {
    var r := Install(d, moduleId, stamp);
    if r != d {
      var k := FindInstance(r.modules, InstanceId(moduleId, stamp));
      assert r.modules == d.modules + [Instance(moduleId, stamp)];
      assert r.modules[|d.modules|] == Instance(moduleId, stamp);
      assert k == |d.modules|;
      assert RemoveAt(r.modules, k) == d.modules;
    }
  }

  class SystemsWidget {
    var available: int
    var used: int
    var modules: seq<InstalledModule>
    var magnetic: int
    var demon: int

    function Data(): SystemsData
      reads this
    {
      SystemsData(available, used, modules, magnetic, demon)
    }

    constructor ()
      ensures Data() == EmptySystems
    {
      available, used, modules, magnetic, demon := 0, 0, [], 0, 0;
    }

    function CanInstallModule(moduleId: string): bool
      reads this
    {
      CanInstall(modules, moduleId)
    }

    method InstallModule(moduleId: string, stamp: nat)
      modifies this
      ensures Data() == Install(old(Data()), moduleId, stamp)
    {
      if moduleId !in Catalog || !CanInstallModule(moduleId) {
        return;
      }
      var entry := Catalog[moduleId];
      if used + entry.systemHulls > available {
        return;
      }
      var newModule := InstalledModule(InstanceId(moduleId, stamp), moduleId, entry.name, entry.systemHulls);
      modules := modules + [newModule];
      used := used + entry.systemHulls;
    }

    method UninstallModule(instanceId: string)
      modifies this
      ensures Data() == Uninstall(old(Data()), instanceId)
    {
      var idx := FindInstance(modules, instanceId);
      if idx == -1 {
        return;
      }
      var entry := modules[idx];
      used := used - entry.systemHulls;
      modules := RemoveAt(modules, idx);
    }

    method AddHeatManagement(t: HeatType, empireAnswer: Option<bool>)
      modifies this
      ensures Data() == AddHeat(old(Data()), t, empireAnswer)
    {
      if used >= available {
        return;
      }
      if !HasTech(empireAnswer) {
        return;
      }
      match t {
        case Magnetic => magnetic := magnetic + 1;
        case Demon => demon := demon + 1;
      }
      used := used + 1;
    }

    method RemoveHeatManagement(t: HeatType)
      modifies this
      ensures Data() == RemoveHeat(old(Data()), t)
    {
      match t {
        case Magnetic =>
          if magnetic > 0 {
            magnetic := magnetic - 1;
            used := used - 1;
          }
        case Demon =>
          if demon > 0 {
            demon := demon - 1;
            used := used - 1;
          }
      }
    }

    method SetAvailableSystemHulls(count: int)
      modifies this
      ensures Data() == SetAvailable(old(Data()), count)
    {
      available := count;
    }
  }
}
