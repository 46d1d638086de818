// The outfit widget: installed system modules and heat-management systems
// against the system-hull budget, the hardpoint header, and the weapon rows
// with their costs.

module Outfit {
  import opened Wrappers
  import opened Numbers
  import opened Text
  import opened SystemModules
  import Ship

  // ------------------------------------------------------------ system hulls

  /** uninstallModule: the first instance with that id is removed; used is floored at 0. */
  function Uninstall(d: SystemsData, instanceId: string): SystemsData
  {
    var idx := FindInstance(d.modules, instanceId);
    if idx == -1 then d
    else d.(used := Max(0, d.used - d.modules[idx].systemHulls), modules := RemoveAt(d.modules, idx))
  }

  /** The catalogue entry a heat type is charged against: any type but "magnetic" counts as demon. */
  function HeatModuleKey(heatType: string): string
  {
    if heatType == "magnetic" then "magneticHeatManagement" else "demonHeatManagement"
  }

  function HeatHulls(heatType: string): int
  {
    var key := HeatModuleKey(heatType);
    assert key in Catalog;
    Catalog[key].systemHulls
  }

  /** addHeatManagement. */
  function AddHeat(d: SystemsData, heatType: string): SystemsData
  {
    var hulls := HeatHulls(heatType);
    if d.used + hulls > d.available then d
    else
      d.(magnetic := if heatType == "magnetic" then d.magnetic + 1 else d.magnetic,
         demon := if heatType == "demon" then d.demon + 1 else d.demon,
         used := d.used + hulls)
  }

  /** removeHeatManagement: only a positive counter of the named type is lowered; used is floored at 0. */
  function RemoveHeat(d: SystemsData, heatType: string): SystemsData
  {
    var hulls := HeatHulls(heatType);
    if heatType == "magnetic" && d.magnetic > 0 then
      d.(magnetic := d.magnetic - 1, used := Max(0, d.used - hulls))
    else if heatType == "demon" && d.demon > 0 then
      d.(demon := d.demon - 1, used := Max(0, d.used - hulls))
    else d
  }

  /** calculateHeatDissipation. */
  function HeatDissipation(d: SystemsData): int
  {
    d.magnetic * 5 + d.demon * 8
  }

  /** calculateCapacityBonus. */
  function CapacityBonus(d: SystemsData): int
  {
    d.magnetic * 2 + d.demon * 6
  }

  lemma EmptyConsistent()
    ensures Consistent(EmptySystems)
  {
  }

  /**
   * uninstallModule with an unknown instance id changes nothing; otherwise
   * exactly the first instance with that id is removed and used drops by its
   * hulls (the floor at 0 never applies under the invariant, which is kept).
   */
  lemma UninstallSpec(d: SystemsData, instanceId: string)
    requires Consistent(d)
    ensures var r := Uninstall(d, instanceId);
      && Consistent(r)
      && ((forall i :: 0 <= i < |d.modules| ==> d.modules[i].id != instanceId) ==> r == d)
      && (forall i :: 0 <= i < |d.modules| && d.modules[i].id == instanceId ==>
            exists k :: 0 <= k < |d.modules| && d.modules[k].id == instanceId
              && r.modules == d.modules[..k] + d.modules[k + 1..]
              && r.used == d.used - d.modules[k].systemHulls)
  {
    var k := FindInstance(d.modules, instanceId);
    if k != -1 {
      var r := Uninstall(d, instanceId);
      SumHullsBounds(d.modules, k);
      SumHullsRemoveAt(d.modules, k);
      RemoveKeepsUnique(d.modules, k);
      assert r.used == d.used - d.modules[k].systemHulls;
      assert HullsNonNegative(r.modules) by {
        forall i | 0 <= i < |r.modules| ensures r.modules[i].systemHulls >= 0 {
          assert r.modules[i] == d.modules[if i < k then i else i + 1];
        }
      }
    }
  }

  /**
   * addHeatManagement for "magnetic" or "demon" adds one system of that type
   * and one used hull when a hull is free, and nothing otherwise; the budget
   * invariant is kept, and dissipation and capacity rise by that type's rates.
   */
  lemma AddHeatSpec(d: SystemsData, heatType: string)
    requires Consistent(d) && (heatType == "magnetic" || heatType == "demon")
    ensures var r := AddHeat(d, heatType);
      && Consistent(r)
      && (d.used + 1 > d.available ==> r == d)
      && (d.used + 1 <= d.available ==>
            && r.used == d.used + 1 && r.modules == d.modules
            && (heatType == "magnetic" ==>
                  (r.magnetic == d.magnetic + 1 && r.demon == d.demon
                   && HeatDissipation(r) == HeatDissipation(d) + 5 && CapacityBonus(r) == CapacityBonus(d) + 2))
            && (heatType == "demon" ==>
                  (r.demon == d.demon + 1 && r.magnetic == d.magnetic
                   && HeatDissipation(r) == HeatDissipation(d) + 8 && CapacityBonus(r) == CapacityBonus(d) + 6)))
  {
  }

  /**
   * Any other heat type is charged against the demon module but raises no
   * counter, so used hulls then exceed what the counters account for.
   */
  lemma AddHeatOtherType(d: SystemsData, heatType: string)
    requires Consistent(d) && heatType != "magnetic" && heatType != "demon" && d.used < d.available
    ensures var r := AddHeat(d, heatType);
      r.used == d.used + 1 && r.magnetic == d.magnetic && r.demon == d.demon && !Consistent(r)
  {
  }

  /**
   * removeHeatManagement lowers a positive counter of the named type and
   * used by one, and otherwise changes nothing; the invariant is kept.
   */
  lemma RemoveHeatSpec(d: SystemsData, heatType: string)
    requires Consistent(d)
    ensures var r := RemoveHeat(d, heatType);
      && Consistent(r)
      && (heatType == "magnetic" && d.magnetic > 0 ==>
            r == d.(magnetic := d.magnetic - 1, used := d.used - 1))
      && (heatType == "demon" && d.demon > 0 ==>
            r == d.(demon := d.demon - 1, used := d.used - 1))
      && (!(heatType == "magnetic" && d.magnetic > 0) && !(heatType == "demon" && d.demon > 0) ==> r == d)
  {
    SumHullsNonNegative(d.modules);
  }

  /** Installing then uninstalling the new instance restores the hull count and the list, when its id was fresh. */
  lemma InstallUninstall(d: SystemsData, moduleId: string, stamp: nat)
    requires Consistent(d)
    requires forall i :: 0 <= i < |d.modules| ==> d.modules[i].id != InstanceId(moduleId, stamp)
    ensures Uninstall(Install(d, moduleId, stamp), InstanceId(moduleId, stamp)) == d
  {
    var r := Install(d, moduleId, stamp);
    SumHullsNonNegative(d.modules);
    if r != d {
      InstallSpec(d, moduleId, stamp);
      var k := FindInstance(r.modules, InstanceId(moduleId, stamp));
      assert r.modules[|d.modules|] == Instance(moduleId, stamp);
      assert k == |d.modules|;
      assert RemoveAt(r.modules, k) == d.modules;
    }
  }

  // -------------------------------------------------------------- hardpoints

  datatype HardpointKey = UHP | SHP | PHP | MHP

  /** `value || 0` on a stored count: a missing entry reads as 0. */
  function Stored(m: map<HardpointKey, int>, k: HardpointKey): int
  {
    if k in m then m[k] else 0
  }

  /** The merge/split input handler: `Math.max(0, parseInt(v) || 0)`, None standing for NaN. */
  function ClampInput(parsed: Option<int>): (r: int)
    ensures r >= 0
    ensures parsed.Some? && parsed.value >= 0 ==> r == parsed.value
    ensures parsed.None? || parsed.value <= 0 ==> r == 0
  {
    Max(0, parsed.GetOr(0))
  }

  /** updateHardpointHeader: the displayed count for one hardpoint kind. */
  function HardpointValue(base: int, merged: int, split: int): int
  {
    Max(0, base - merged + split)
  }

  /**
   * The displayed value is never negative, equals base − merged + split
   * whenever that is not negative, and each merged hardpoint lowers it by at
   * most one while each split one raises it by exactly one.
   */
  lemma HardpointValueSpec(base: int, merged: int, split: int)
    ensures HardpointValue(base, merged, split) >= 0
    ensures base - merged + split >= 0 ==> HardpointValue(base, merged, split) == base - merged + split
    ensures base - merged + split < 0 ==> HardpointValue(base, merged, split) == 0
    ensures HardpointValue(base, merged, split + 1) == Max(0, HardpointValue(base, merged, split) + 1)
            || base - merged + split < 0
    ensures HardpointValue(base, merged, split) - 1 <= HardpointValue(base, merged + 1, split)
            <= HardpointValue(base, merged, split)
  {
  }

  // ------------------------------------------------------------- weapon rows

  datatype CatalogWeapon = CatalogWeapon(displayName: string, cost: int, hardpoint: string)

  /** The weapon catalogue, keyed by weapon id ("" is the empty selection). */
  const WeaponCatalog: map<string, CatalogWeapon> := map[
    "" := CatalogWeapon("Select Weapon", 0, "-"),
    "laser-battery" := CatalogWeapon("Laser Battery", 12, "SHP"),
    "railgun" := CatalogWeapon("Mass Driver Railgun", 40, "PHP"),
    "missile-rack" := CatalogWeapon("Missile Rack", 18, "UHP"),
    "beam-lance" := CatalogWeapon("Beam Lance", 55, "MHP"),
    "point-defense" := CatalogWeapon("Point Defense Cluster", 8, "UHP")
  ]

  /** The catalogue entry, or `{cost: 0, hardpoint: '-'}` for an unknown weapon. */
  function CatalogEntry(weapon: string): CatalogWeapon
  {
    if weapon in WeaponCatalog then WeaponCatalog[weapon] else CatalogWeapon("", 0, "-")
  }

  lemma CatalogCostsNonNegative(weapon: string)
    ensures CatalogEntry(weapon).cost >= 0 && CatalogEntry(weapon).hardpoint != ""
  {
  }

  /** getMountMultiplier: dual, triple and quad (in any letter case) multiply the cost. */
  function MountMultiplier(mount: string): int
  {
    var m := Lower(mount);
    if m == "dual" then 2 else if m == "triple" then 3 else if m == "quad" then 4 else 1
  }

  lemma LowerUpperChar(c: char)
    ensures LowerChar(UpperChar(c)) == LowerChar(c)
  {
  }

  lemma {:induction false} LowerOfUpper(s: string)
    ensures Lower(Upper(s)) == Lower(s)
    decreases |s|
  {
    if s != [] {
      LowerOfUpper(s[1..]);
      LowerUpperChar(s[0]);
    }
  }

  /**
   * The multiplier is 1 to 4, ignores letter case, and is above 1 exactly
   * for the three named mounts.
   */
  lemma MountMultiplierSpec(mount: string)
    ensures 1 <= MountMultiplier(mount) <= 4
    ensures MountMultiplier(Lower(mount)) == MountMultiplier(mount)
    ensures MountMultiplier(Upper(mount)) == MountMultiplier(mount)
    ensures MountMultiplier(mount) > 1 <==> Lower(mount) in {"dual", "triple", "quad"}
  {
    LowerIdempotent(mount);
    LowerOfUpper(mount);
  }

  /** `mountMultiplier * catalogEntry.cost * row.copies`. */
  function TotalCost(multiplier: int, cost: int, copies: int): (r: int)
    ensures multiplier >= 0 && cost >= 0 && copies >= 0 ==> r >= 0
  {
    var c := multiplier * cost;
    assert multiplier >= 0 && cost >= 0 ==> c >= 0;
    c * copies
  }

  datatype Table = Offensive | Defensive

  datatype WeaponRow = WeaponRow(
    mount: string, weapon: string, copies: int, arcs: string, hardpoint: string, totalCost: int)

  /** The rows the two add buttons create (a defensive row has no mount). */
  function NewRow(table: Table): WeaponRow
  {
    WeaponRow(if table == Offensive then "Single" else "", "", 1, "", "-", 0)
  }

  /** One edited input of a row; None stands for a copies value parseInt cannot read. */
  datatype FieldEdit =
    | WeaponEdit(weapon: string)
    | MountEdit(mount: string)
    | CopiesEdit(copies: Option<int>)
    | ArcsEdit(arcs: string)
    | OtherEdit

  function Multiplier(table: Table, mount: string): int
  {
    if table == Offensive then MountMultiplier(mount) else 1
  }

  /** handleWeaponFieldChange on one row: apply the edit, then recompute hardpoint and cost. */
  function EditRow(row: WeaponRow, table: Table, edit: FieldEdit): WeaponRow
  {
    var row1 :=
      match edit
      case WeaponEdit(w) => row.(weapon := w)
      case MountEdit(m) => row.(mount := m)
      case CopiesEdit(c) => row.(copies := Max(1, if c.Some? && c.value != 0 then c.value else 1))
      case ArcsEdit(a) => row.(arcs := Upper(a))
      case OtherEdit => row;
    var entry := CatalogEntry(row1.weapon);
    row1.(hardpoint := if entry.hardpoint == "" then "-" else entry.hardpoint,
          totalCost := TotalCost(Multiplier(table, row1.mount), entry.cost, row1.copies))
  }

  /** A row whose derived fields agree with its inputs. */
  predicate RowCosted(row: WeaponRow, table: Table)
  {
    && row.copies >= 1
    && row.hardpoint == CatalogEntry(row.weapon).hardpoint
    && row.totalCost == TotalCost(Multiplier(table, row.mount), CatalogEntry(row.weapon).cost, row.copies)
  }

  /**
   * A new row is costed, and every edit of a costed row (or a copies edit of
   * any row) yields a costed row whose cost is not negative; only the edited
   * input changes, an unknown weapon costs 0 on hardpoint "-", and a
   * defensive row is never multiplied.
   */
  lemma EditRowSpec(row: WeaponRow, table: Table, edit: FieldEdit)
    requires RowCosted(row, table) || edit.CopiesEdit?
    requires row.copies >= 1 || edit.CopiesEdit?
    ensures RowCosted(NewRow(table), table)
    ensures var r := EditRow(row, table, edit);
      && RowCosted(r, table) && r.totalCost >= 0
      && (r.weapon !in WeaponCatalog ==> r.totalCost == 0 && r.hardpoint == "-")
      && (table == Defensive ==> r.totalCost == TotalCost(1, CatalogEntry(r.weapon).cost, r.copies))
      && (edit.WeaponEdit? ==> r.weapon == edit.weapon && r.mount == row.mount && r.copies == row.copies && r.arcs == row.arcs)
      && (edit.MountEdit? ==> r.mount == edit.mount && r.weapon == row.weapon && r.copies == row.copies && r.arcs == row.arcs)
      && (edit.CopiesEdit? ==>
            (r.weapon == row.weapon && r.mount == row.mount && r.arcs == row.arcs
             && (edit.copies.Some? && edit.copies.value >= 1 ==> r.copies == edit.copies.value)))
      && (edit.ArcsEdit? ==> r.arcs == Upper(edit.arcs) && r.weapon == row.weapon && r.mount == row.mount && r.copies == row.copies)
  {
    var r := EditRow(row, table, edit);
    MountMultiplierSpec(r.mount);
    CatalogCostsNonNegative(r.weapon);
  }

  /** The in-place update of one row: the edited input, then the derived hardpoint and cost. */
  method ComputeRow(row: WeaponRow, table: Table, edit: FieldEdit) returns (r: WeaponRow)
    ensures r == EditRow(row, table, edit)
  {
    r := row;
    match edit {
      case WeaponEdit(w) => r := r.(weapon := w);
      case MountEdit(m) => r := r.(mount := m);
      case CopiesEdit(c) =>
        var parsed := if c.Some? && c.value != 0 then c.value else 1;
        r := r.(copies := Max(1, parsed));
      case ArcsEdit(a) => r := r.(arcs := Upper(a));
      case OtherEdit =>
    }
    var entry := CatalogEntry(r.weapon);
    var mountMultiplier := if table == Offensive then MountMultiplier(r.mount) else 1;
    r := r.(hardpoint := if entry.hardpoint == "" then "-" else entry.hardpoint,
            totalCost := TotalCost(mountMultiplier, entry.cost, r.copies));
  }

  // ------------------------------------------------------------------ widget

  class OutfitWidget {
    var available: int
    var used: int
    var modules: seq<InstalledModule>
    var magnetic: int
    var demon: int
    var baseHp: map<HardpointKey, int>
    var mergeHp: map<HardpointKey, int>
    var splitHp: map<HardpointKey, int>
    var offensive: seq<WeaponRow>
    var defensive: seq<WeaponRow>
    var role: string
    var availableRoles: seq<string>

    function Systems(): SystemsData
      reads this
    {
      SystemsData(available, used, modules, magnetic, demon)
    }

    predicate RowsCosted()
      reads this
    {
      && (forall i :: 0 <= i < |offensive| ==> RowCosted(offensive[i], Offensive))
      && (forall i :: 0 <= i < |defensive| ==> RowCosted(defensive[i], Defensive))
    }

    /** The initial outfit data, with the stored role list passed in. */
    constructor (storedRoles: seq<string>)
      ensures Systems() == EmptySystems
      ensures offensive == [] && defensive == [] && RowsCosted()
      ensures role == "Artillery" && availableRoles == Ship.WithRole(storedRoles, Some("Artillery"))
      ensures baseHp == map[UHP := 0, SHP := 0, PHP := 0, MHP := 0]
      ensures mergeHp == baseHp && splitHp == baseHp
    {
      available, used, modules, magnetic, demon := 0, 0, [], 0, 0;
      baseHp := map[UHP := 0, SHP := 0, PHP := 0, MHP := 0];
      mergeHp := baseHp;
      splitHp := baseHp;
      offensive, defensive := [], [];
      role := "Artillery";
      availableRoles := storedRoles;
      new;
      EnsureRoleAvailable(Some(role));
    }

    /** ensureRoleAvailable: the same rule as the ship widget's (storage is not modelled). */
    method EnsureRoleAvailable(r: Option<string>)
      modifies this
      ensures availableRoles == Ship.WithRole(old(availableRoles), r)
      ensures Systems() == old(Systems()) && offensive == old(offensive) && defensive == old(defensive)
      ensures role == old(role) && baseHp == old(baseHp) && mergeHp == old(mergeHp) && splitHp == old(splitHp)
    {
      if r.None? || r.value == [] {
        return;
      }
      var normalized := JsTrim(r.value);
      if normalized == [] {
        return;
      }
      if normalized !in availableRoles {
        availableRoles := availableRoles + [normalized];
        availableRoles := SortBy(availableRoles, Ship.RoleKey, false);
      }
    }

    function CanInstallModule(moduleId: string): bool
      reads this
    {
      CanInstall(modules, moduleId)
    }

    method InstallModule(moduleId: string, stamp: nat)
      modifies this
      ensures Systems() == Install(old(Systems()), moduleId, stamp)
      ensures offensive == old(offensive) && defensive == old(defensive) && availableRoles == old(availableRoles)
      ensures role == old(role) && baseHp == old(baseHp) && mergeHp == old(mergeHp) && splitHp == old(splitHp)
    {
      if moduleId !in Catalog {
        return;
      }
      if !CanInstallModule(moduleId) {
        return;
      }
      var entry := Catalog[moduleId];
      var total := used + entry.systemHulls;
      if total > available {
        return;
      }
      var newModule := InstalledModule(InstanceId(moduleId, stamp), moduleId, entry.name, entry.systemHulls);
      modules := modules + [newModule];
      used := total;
    }

    method UninstallModule(instanceId: string)
      modifies this
      ensures Systems() == Uninstall(old(Systems()), instanceId)
      ensures offensive == old(offensive) && defensive == old(defensive) && availableRoles == old(availableRoles)
      ensures role == old(role) && baseHp == old(baseHp) && mergeHp == old(mergeHp) && splitHp == old(splitHp)
    {
      var idx := FindInstance(modules, instanceId);
      if idx == -1 {
        return;
      }
      var entry := modules[idx];
      used := Max(0, used - entry.systemHulls);
      modules := RemoveAt(modules, idx);
    }

    method AddHeatManagement(heatType: string)
      modifies this
      ensures Systems() == AddHeat(old(Systems()), heatType)
      ensures offensive == old(offensive) && defensive == old(defensive) && availableRoles == old(availableRoles)
      ensures role == old(role) && baseHp == old(baseHp) && mergeHp == old(mergeHp) && splitHp == old(splitHp)
    {
      var entry := Catalog[HeatModuleKey(heatType)];
      if used + entry.systemHulls > available {
        return;
      }
      if heatType == "magnetic" {
        magnetic := magnetic + 1;
      }
      if heatType == "demon" {
        demon := demon + 1;
      }
      used := used + entry.systemHulls;
    }

    method RemoveHeatManagement(heatType: string)
      modifies this
      ensures Systems() == RemoveHeat(old(Systems()), heatType)
      ensures offensive == old(offensive) && defensive == old(defensive) && availableRoles == old(availableRoles)
      ensures role == old(role) && baseHp == old(baseHp) && mergeHp == old(mergeHp) && splitHp == old(splitHp)
    {
      var entry := Catalog[HeatModuleKey(heatType)];
      if heatType == "magnetic" && magnetic > 0 {
        magnetic := magnetic - 1;
        used := Max(0, used - entry.systemHulls);
      }
      if heatType == "demon" && demon > 0 {
        demon := demon - 1;
        used := Max(0, used - entry.systemHulls);
      }
    }

    /** The merge or split input handler for one hardpoint kind. */
    method SetHardpointAdjustment(key: HardpointKey, isMerge: bool, parsed: Option<int>)
      modifies this
      ensures isMerge ==> mergeHp == old(mergeHp)[key := ClampInput(parsed)] && splitHp == old(splitHp)
      ensures !isMerge ==> splitHp == old(splitHp)[key := ClampInput(parsed)] && mergeHp == old(mergeHp)
      ensures Systems() == old(Systems()) && offensive == old(offensive) && defensive == old(defensive)
      ensures role == old(role) && baseHp == old(baseHp) && availableRoles == old(availableRoles)
    {
      var value := Max(0, parsed.GetOr(0));
      if isMerge {
        mergeHp := mergeHp[key := value];
      } else {
        splitHp := splitHp[key := value];
      }
    }

    /** updateHardpointHeader: the value shown for one hardpoint kind. */
    function HeaderValue(key: HardpointKey): int
      reads this
    {
      HardpointValue(Stored(baseHp, key), Stored(mergeHp, key), Stored(splitHp, key))
    }

    method AddWeaponRow(table: Table)
      modifies this
      requires RowsCosted()
      ensures RowsCosted()
      ensures table == Offensive ==> offensive == old(offensive) + [NewRow(Offensive)] && defensive == old(defensive)
      ensures table == Defensive ==> defensive == old(defensive) + [NewRow(Defensive)] && offensive == old(offensive)
      ensures Systems() == old(Systems()) && availableRoles == old(availableRoles) && role == old(role)
      ensures baseHp == old(baseHp) && mergeHp == old(mergeHp) && splitHp == old(splitHp)
    {
      EditRowSpec(NewRow(table), table, OtherEdit);
      if table == Offensive {
        offensive := offensive + [NewRow(Offensive)];
      } else {
        defensive := defensive + [NewRow(Defensive)];
      }
    }

    method RemoveWeaponRow(table: Table, index: int)
      modifies this
      requires RowsCosted()
      ensures RowsCosted()
      ensures table == Offensive && 0 <= index < |old(offensive)| ==> offensive == RemoveAt(old(offensive), index)
      ensures table == Defensive && 0 <= index < |old(defensive)| ==> defensive == RemoveAt(old(defensive), index)
      ensures table == Offensive ==> defensive == old(defensive)
      ensures table == Defensive ==> offensive == old(offensive)
      ensures table == Offensive && !(0 <= index < |old(offensive)|) ==> offensive == old(offensive)
      ensures table == Defensive && !(0 <= index < |old(defensive)|) ==> defensive == old(defensive)
      ensures Systems() == old(Systems()) && availableRoles == old(availableRoles) && role == old(role)
      ensures baseHp == old(baseHp) && mergeHp == old(mergeHp) && splitHp == old(splitHp)
    {
      if table == Offensive && 0 <= index < |offensive| {
        offensive := RemoveAt(offensive, index);
      } else if table == Defensive && 0 <= index < |defensive| {
        defensive := RemoveAt(defensive, index);
      }
    }

    /** handleWeaponFieldChange: a row index outside the table is ignored. */
    method HandleWeaponFieldChange(table: Table, index: int, edit: FieldEdit)
      modifies this
      requires RowsCosted()
      ensures RowsCosted()
      ensures table == Offensive && 0 <= index < |old(offensive)| ==>
        offensive == old(offensive)[index := EditRow(old(offensive)[index], Offensive, edit)]
      ensures table == Defensive && 0 <= index < |old(defensive)| ==>
        defensive == old(defensive)[index := EditRow(old(defensive)[index], Defensive, edit)]
      ensures table == Offensive ==> defensive == old(defensive)
      ensures table == Defensive ==> offensive == old(offensive)
      ensures table == Offensive && !(0 <= index < |old(offensive)|) ==> offensive == old(offensive)
      ensures table == Defensive && !(0 <= index < |old(defensive)|) ==> defensive == old(defensive)
      ensures Systems() == old(Systems()) && availableRoles == old(availableRoles) && role == old(role)
      ensures baseHp == old(baseHp) && mergeHp == old(mergeHp) && splitHp == old(splitHp)
    {
      var rows := if table == Offensive then offensive else defensive;
      if !(0 <= index < |rows|) {
        return;
      }
      var row1 := ComputeRow(rows[index], table, edit);
      EditRowSpec(rows[index], table, edit);
      if table == Offensive {
        offensive := offensive[index := row1];
      } else {
        defensive := defensive[index := row1];
      }
    }
  }

  /** Every budget operation of the widget keeps the budget invariant. */
  lemma OperationsKeepConsistent(d: SystemsData, moduleId: string, instanceId: string, stamp: nat)
    requires Consistent(d)
    ensures Consistent(Install(d, moduleId, stamp))
    ensures Consistent(Uninstall(d, instanceId))
    ensures Consistent(AddHeat(d, "magnetic")) && Consistent(AddHeat(d, "demon"))
    ensures Consistent(RemoveHeat(d, "magnetic")) && Consistent(RemoveHeat(d, "demon"))
  {
    InstallSpec(d, moduleId, stamp);
    UninstallSpec(d, instanceId);
    AddHeatSpec(d, "magnetic");
    AddHeatSpec(d, "demon");
    RemoveHeatSpec(d, "magnetic");
    RemoveHeatSpec(d, "demon");
  }
}
