// The data side of the ship-class widget: hull composition, the hardpoint
// split, the cargo/remass allocation of the civil hulls, the role list and
// the defaults applied when saved data is loaded.
module Ship {
  import opened Wrappers
  import opened Numbers
  import opened Text

  // ------------------------------------------------------------------ hulls

  datatype HullKind = Containment | Remass | Magazine | Hangar | Bunker | System | Powerplant | Emplacement

  /** `shipData.hullComposition`: one count per hull kind. */
  datatype Hulls = Hulls(
    containment: int, remass: int, magazine: int, hangar: int,
    bunker: int, system: int, powerplant: int, emplacement: int)
  {
    function Get(k: HullKind): int
    {
      match k
      case Containment => containment
      case Remass => remass
      case Magazine => magazine
      case Hangar => hangar
      case Bunker => bunker
      case System => system
      case Powerplant => powerplant
      case Emplacement => emplacement
    }

    function Set(k: HullKind, v: int): (h: Hulls)
      ensures h.Get(k) == v
      ensures forall j :: j != k ==> h.Get(j) == Get(j)
    {
      match k
      case Containment => this.(containment := v)
      case Remass => this.(remass := v)
      case Magazine => this.(magazine := v)
      case Hangar => this.(hangar := v)
      case Bunker => this.(bunker := v)
      case System => this.(system := v)
      case Powerplant => this.(powerplant := v)
      case Emplacement => this.(emplacement := v)
    }
  }

  const NoHulls := Hulls(0, 0, 0, 0, 0, 0, 0, 0)

  predicate NonNegative(h: Hulls)
  {
    forall k :: h.Get(k) >= 0
  }

  /** getTotalHulls: the sum of all eight counts. */
  function TotalHulls(h: Hulls): int
  {
    h.containment + h.remass + h.magazine + h.hangar + h.bunker + h.system + h.powerplant + h.emplacement
  }

  /** Changing one count changes the total by the difference. */
  lemma TotalHullsSet(h: Hulls, k: HullKind, v: int)
    ensures TotalHulls(h.Set(k, v)) == TotalHulls(h) - h.Get(k) + v
  {
  }

  /** With no negative count, the total bounds every count. */
  lemma TotalHullsBounds(h: Hulls, k: HullKind)
    requires NonNegative(h)
    ensures 0 <= h.Get(k) <= TotalHulls(h)
  {
    assert h.Get(Containment) >= 0 && h.Get(Remass) >= 0 && h.Get(Magazine) >= 0 && h.Get(Hangar) >= 0;
    assert h.Get(Bunker) >= 0 && h.Get(System) >= 0 && h.Get(Powerplant) >= 0 && h.Get(Emplacement) >= 0;
  }

  /** getCivilHullSlots */
  function CivilSlots(h: Hulls): int
  {
    h.containment + h.remass
  }

  // ------------------------------------------------------------- hardpoints

  predicate AllPositive(s: seq<int>)
  {
    forall i :: 0 <= i < |s| ==> s[i] > 0
  }

  predicate AllNonNegative(s: seq<int>)
  {
    forall i :: 0 <= i < |s| ==> s[i] >= 0
  }

  /** The sum of `buckets[i..]`. */
  function SumFrom(buckets: seq<int>, i: nat): int
    requires i <= |buckets|
    decreases |buckets| - i
  {
    if i == |buckets| then 0 else buckets[i] + SumFrom(buckets, i + 1)
  }

  /** The value of `counts` when its entries cost `costs[i..]`. */
  function WeightedFrom(counts: seq<int>, costs: seq<int>, i: nat): int
    requires i <= |costs| && |counts| == |costs| - i
    decreases |counts|
  {
    if counts == [] then 0 else counts[0] * costs[i] + WeightedFrom(counts[1..], costs, i + 1)
  }

  /**
   * The cascade from bucket `i` on: each bucket plus the carry from the
   * previous one buys as many mounts of that bucket's cost as it can (floor
   * division), and the remainder is carried on. The result is the counts
   * and the final carry.
   */
  function Cascade(buckets: seq<int>, costs: seq<int>, i: nat, carry: int): (r: (seq<int>, int))
    requires |buckets| == |costs| && i <= |buckets| && AllPositive(costs)
    ensures |r.0| == |buckets| - i
    decreases |buckets| - i
  {
    if i == |buckets| then ([], carry)
    else
      var available := buckets[i] + carry;
      var rest := Cascade(buckets, costs, i + 1, available % costs[i]);
      ([available / costs[i]] + rest.0, rest.1)
  }

  lemma Remainder(a: int, c: int)
    requires c > 0
    ensures a - (a / c) * c == a % c
  {
  }

  /** The loop of calculateHardpointDistribution keeps the counts so far plus the cascade from `i` equal to the whole cascade. */
  lemma CascadeAdvance(buckets: seq<int>, costs: seq<int>, i: nat, carry: int, counts: seq<int>)
    requires |buckets| == |costs| && i < |buckets| && AllPositive(costs)
    requires Cascade(buckets, costs, 0, 0).0 == counts + Cascade(buckets, costs, i, carry).0
    requires Cascade(buckets, costs, 0, 0).1 == Cascade(buckets, costs, i, carry).1
    ensures var available := buckets[i] + carry;
      var count := available / costs[i];
      var next := Cascade(buckets, costs, i + 1, available - count * costs[i]);
      Cascade(buckets, costs, 0, 0) == (counts + [count] + next.0, next.1)
  {
    var available := buckets[i] + carry;
    var count := available / costs[i];
    var next := Cascade(buckets, costs, i + 1, available - count * costs[i]);
    Remainder(available, costs[i]);
    CascadeStep(buckets, costs, i, carry);
    assert counts + ([count] + next.0) == counts + [count] + next.0;
  }

  /** When the loop of calculateHardpointDistribution ends, the counts and the carry are the cascade's. */
  lemma CascadeDone(buckets: seq<int>, costs: seq<int>, carry: int, counts: seq<int>)
    requires |buckets| == |costs| && AllPositive(costs)
    requires Cascade(buckets, costs, 0, 0).0 == counts + Cascade(buckets, costs, |buckets|, carry).0
    requires Cascade(buckets, costs, 0, 0).1 == Cascade(buckets, costs, |buckets|, carry).1
    ensures Cascade(buckets, costs, 0, 0) == (counts, carry)
  {
    assert counts + [] == counts;
  }

  /** One step of the cascade: the count bought at `i` and the remainder carried on. */
  lemma CascadeStep(buckets: seq<int>, costs: seq<int>, i: nat, carry: int)
    requires |buckets| == |costs| && i < |buckets| && AllPositive(costs)
    ensures var available := buckets[i] + carry;
      var rest := Cascade(buckets, costs, i + 1, available % costs[i]);
      Cascade(buckets, costs, i, carry) == ([available / costs[i]] + rest.0, rest.1)
  {
  }

  /** Nothing is lost: the value bought plus the leftover is everything put in. */
  lemma {:induction false} CascadeConserves(buckets: seq<int>, costs: seq<int>, i: nat, carry: int)
    requires |buckets| == |costs| && i <= |buckets| && AllPositive(costs)
    ensures var r := Cascade(buckets, costs, i, carry);
      WeightedFrom(r.0, costs, i) + r.1 == SumFrom(buckets, i) + carry
    decreases |buckets| - i
  {
    if i < |buckets| {
      var available := buckets[i] + carry;
      var r := Cascade(buckets, costs, i, carry);
      CascadeConserves(buckets, costs, i + 1, available % costs[i]);
      assert r.0[1..] == Cascade(buckets, costs, i + 1, available % costs[i]).0;
      assert available == (available / costs[i]) * costs[i] + available % costs[i];
    }
  }

  /** The leftover is never negative and below the last cost. */
  lemma {:induction false} CascadeLeftover(buckets: seq<int>, costs: seq<int>, i: nat, carry: int)
    requires |buckets| == |costs| && i < |buckets| && AllPositive(costs)
    ensures 0 <= Cascade(buckets, costs, i, carry).1 < costs[|costs| - 1]
    decreases |buckets| - i
  {
    if i + 1 < |buckets| {
      CascadeLeftover(buckets, costs, i + 1, (buckets[i] + carry) % costs[i]);
    }
  }

  /** With no negative bucket and carry, no count is negative. */
  lemma {:induction false} CascadeNonNegative(buckets: seq<int>, costs: seq<int>, i: nat, carry: int)
    requires |buckets| == |costs| && i <= |buckets| && AllPositive(costs)
    requires AllNonNegative(buckets) && carry >= 0
    ensures AllNonNegative(Cascade(buckets, costs, i, carry).0)
    decreases |buckets| - i
  {
    if i < |buckets| {
      var available := buckets[i] + carry;
      CascadeNonNegative(buckets, costs, i + 1, available % costs[i]);
      assert available / costs[i] >= 0;
    }
  }

  datatype Distribution = Distribution(mhp: int, php: int, shp: int)

  const MountCosts: seq<int> := [8, 4, 2]

  /** The three buckets: a third each for main and primary mounts, the rest for secondary. */
  function Buckets(totalValue: int): seq<int>
  {
    var baseShare := totalValue / 3;
    [baseShare, baseShare, totalValue - baseShare * 2]
  }

  /** calculateHardpointDistribution, as a value: the mount counts and the leftover. */
  function Split(totalValue: int): (Distribution, int)
  {
    var r := Cascade(Buckets(totalValue), MountCosts, 0, 0);
    (Distribution(r.0[0], r.0[1], r.0[2]), r.1)
  }

  lemma WeightedMounts(counts: seq<int>)
    requires |counts| == 3
    ensures WeightedFrom(counts, MountCosts, 0) == 8 * counts[0] + 4 * counts[1] + 2 * counts[2]
  {
    var c1 := counts[1..];
    var c2 := c1[1..];
    assert MountCosts[0] == 8 && MountCosts[1] == 4 && MountCosts[2] == 2;
    assert WeightedFrom(c2[1..], MountCosts, 3) == 0;
    assert WeightedFrom(c2, MountCosts, 2) == c2[0] * 2;
    assert WeightedFrom(c1, MountCosts, 1) == c1[0] * 4 + c2[0] * 2;
  }

  lemma SumBuckets(totalValue: int)
    ensures SumFrom(Buckets(totalValue), 0) == totalValue
  {
    var b := Buckets(totalValue);
    assert SumFrom(b, 3) == 0;
    assert SumFrom(b, 2) == b[2];
    assert SumFrom(b, 1) == b[1] + b[2];
  }

  /**
   * The split spends the whole value but an odd unit: 8·MHP + 4·PHP + 2·SHP
   * plus the leftover is the value, the leftover is its parity, and no count
   * is negative when the value is not.
   */
  lemma SplitSpec(totalValue: int)
    ensures var (d, leftover) := Split(totalValue);
      8 * d.mhp + 4 * d.php + 2 * d.shp + leftover == totalValue
      && leftover == totalValue % 2
      && (totalValue >= 0 ==> d.mhp >= 0 && d.php >= 0 && d.shp >= 0)
  {
    var r := Cascade(Buckets(totalValue), MountCosts, 0, 0);
    SplitSpends(totalValue);
    Parity(totalValue, 4 * r.0[0] + 2 * r.0[1] + r.0[2], r.1);
    if totalValue >= 0 {
      SplitNonNegative(totalValue);
    }
  }

  lemma Parity(x: int, half: int, bit: int)
    requires x == 2 * half + bit && 0 <= bit < 2
    ensures x % 2 == bit
  {
  }

  /** The counts weighted by their costs plus the leftover make the value; the leftover is 0 or 1. */
  lemma SplitSpends(totalValue: int)
    ensures var r := Cascade(Buckets(totalValue), MountCosts, 0, 0);
      8 * r.0[0] + 4 * r.0[1] + 2 * r.0[2] + r.1 == totalValue && 0 <= r.1 < 2
  {
    var b := Buckets(totalValue);
    var r := Cascade(b, MountCosts, 0, 0);
    SumBuckets(totalValue);
    CascadeConserves(b, MountCosts, 0, 0);
    CascadeLeftover(b, MountCosts, 0, 0);
    WeightedMounts(r.0);
  }

  lemma SplitNonNegative(totalValue: int)
    requires totalValue >= 0
    ensures var r := Cascade(Buckets(totalValue), MountCosts, 0, 0);
      r.0[0] >= 0 && r.0[1] >= 0 && r.0[2] >= 0
  {
    var b := Buckets(totalValue);
    assert AllNonNegative(b);
    CascadeNonNegative(b, MountCosts, 0, 0);
  }

  /** calculateHardpointDistribution: the cascade over the mount order main, primary, secondary. */
  method CalculateHardpointDistribution(totalValue: int) returns (distribution: Distribution, leftover: int)
    ensures (distribution, leftover) == Split(totalValue)
  {
    var baseShare := totalValue / 3;
    var buckets := [baseShare, baseShare, totalValue - baseShare * 2];
    var costs := MountCosts;
    var counts: seq<int> := [];
    var carry := 0;
    for index := 0 to 3
      invariant |counts| == index
      invariant Cascade(buckets, costs, 0, 0).0 == counts + Cascade(buckets, costs, index, carry).0
      invariant Cascade(buckets, costs, 0, 0).1 == Cascade(buckets, costs, index, carry).1
    {
      var available := buckets[index] + carry;
      var count := available / costs[index];
      var used := count * costs[index];
      CascadeAdvance(buckets, costs, index, carry, counts);
      counts := counts + [count];
      carry := available - used;
    }
    CascadeDone(buckets, costs, carry, counts);
    distribution := Distribution(counts[0], counts[1], counts[2]);
    leftover := carry;
  }

  /** `shipData.hardpoints` */
  datatype Hardpoints = Hardpoints(
    perEmplacement: int, utility: int, secondary: int, primary: int, main: int,
    totalValue: int, uhp: int, shp: int, php: int, mhp: int)

  const DefaultHardpoints := Hardpoints(4, 0, 0, 0, 0, 0, 0, 0, 0, 0)

  /** updateHardpointStats, data part: the derived counts for the current hulls. */
  function HardpointStats(hp: Hardpoints, h: Hulls): Hardpoints
  {
    var utility := h.magazine + h.hangar + h.system + h.powerplant;
    var totalValue := h.emplacement * Max(0, hp.perEmplacement);
    var d := Split(totalValue).0;
    hp.(utility := utility, secondary := d.shp, primary := d.php, main := d.mhp,
        totalValue := totalValue, uhp := utility, shp := d.shp, php := d.php, mhp := d.mhp)
  }

  /**
   * Utility hardpoints count the magazine, hangar, system and powerplant
   * hulls; the emplacement value is emplacements times the (non-negative)
   * ratio and is spent on MHP/PHP/SHP but its parity; the named and the
   * abbreviated fields agree.
   */
  lemma HardpointStatsSpec(hp: Hardpoints, h: Hulls)
    ensures var r := HardpointStats(hp, h);
      r.perEmplacement == hp.perEmplacement
      && r.utility == r.uhp == h.magazine + h.hangar + h.system + h.powerplant
      && r.totalValue == h.emplacement * Max(0, hp.perEmplacement)
      && r.main == r.mhp && r.primary == r.php && r.secondary == r.shp
      && 8 * r.mhp + 4 * r.php + 2 * r.shp + r.totalValue % 2 == r.totalValue
      && (NonNegative(h) ==> r.uhp >= 0 && r.mhp >= 0 && r.php >= 0 && r.shp >= 0)
  {
    var totalValue := h.emplacement * Max(0, hp.perEmplacement);
    SplitSpec(totalValue);
    if NonNegative(h) {
      assert h.Get(Magazine) >= 0 && h.Get(Hangar) >= 0 && h.Get(System) >= 0;
      assert h.Get(Powerplant) >= 0 && h.Get(Emplacement) >= 0;
    }
  }

  // ---------------------------------------------------------- cargo / remass

  /** Each civil hull holds this many units of cargo or remass. */
  const UnitsPerHull: int := 50

  datatype Resources = Resources(cargo: int, remass: int)

  /** updateCargoRemassAllocation: the new hulls and resources for a requested cargo. */
  function Allocate(h: Hulls, rawCargo: int): (Hulls, Resources)
  {
    var slots := CivilSlots(h);
    if slots <= 0 then (h, Resources(0, 0))
    else
      var capacity := slots * UnitsPerHull;
      var cargo := Max(0, Min(rawCargo, capacity));
      var full := Min(slots, cargo / UnitsPerHull);
      (h.(containment := full, remass := slots - full), Resources(cargo, capacity - cargo))
  }

  /**
   * With no civil slots both resources are zero and the hulls are kept.
   * Otherwise the cargo is the request clamped into the capacity, cargo and
   * remass fill the capacity, the containment hulls are the full cargo hulls,
   * containment plus remass hulls are still the slots, and no other hull
   * changes.
   */
  lemma AllocateSpec(h: Hulls, rawCargo: int)
    ensures var (h', res) := Allocate(h, rawCargo);
      var slots := CivilSlots(h);
      (slots <= 0 ==> h' == h && res == Resources(0, 0))
      && (slots > 0 ==>
            res.cargo == Max(0, Min(rawCargo, slots * UnitsPerHull))
            && 0 <= res.cargo && res.cargo + res.remass == slots * UnitsPerHull
            && h'.containment == Min(slots, res.cargo / UnitsPerHull)
            && 0 <= h'.containment <= slots && h'.containment + h'.remass == slots
            && (h'.containment == slots || UnitsPerHull * h'.containment <= res.cargo < UnitsPerHull * (h'.containment + 1))
            && forall k :: k != Containment && k != Remass ==> h'.Get(k) == h.Get(k))
      && CivilSlots(h') == slots && TotalHulls(h') == TotalHulls(h)
  {
  }

  /** Allocating the same cargo twice is allocating it once. */
  lemma AllocateIdempotent(h: Hulls, rawCargo: int)
    ensures Allocate(Allocate(h, rawCargo).0, rawCargo) == Allocate(h, rawCargo)
  {
  }

  /** Allocation never makes a hull count negative. */
  lemma AllocateNonNegative(h: Hulls, rawCargo: int)
    requires NonNegative(h)
    ensures NonNegative(Allocate(h, rawCargo).0)
  {
    var h' := Allocate(h, rawCargo).0;
    if CivilSlots(h) > 0 {
      forall k ensures h'.Get(k) >= 0 {
        assert h.Get(k) >= 0;
      }
    }
  }

  /** updateCargoRemassUI, data part: cargo clamped into the capacity, remass the rest. */
  function SyncResources(h: Hulls, res: Resources): Resources
  {
    var capacity := CivilSlots(h) * UnitsPerHull;
    var cargo := Max(0, Min(res.cargo, capacity));
    var remass := Max(0, capacity - cargo);
    if capacity == 0 then Resources(0, 0) else Resources(cargo, remass)
  }

  /**
   * After the sync both resources are non-negative, cargo is within the
   * capacity, and together they fill it; with no capacity both are zero.
   */
  lemma SyncResourcesSpec(h: Hulls, res: Resources)
    ensures var r := SyncResources(h, res);
      var capacity := CivilSlots(h) * UnitsPerHull;
      0 <= r.cargo && 0 <= r.remass
      && (capacity >= 0 ==> r.cargo <= capacity && r.cargo + r.remass == capacity)
      && (capacity <= 0 ==> r == Resources(0, 0))
      && (0 <= res.cargo <= capacity ==> r.cargo == res.cargo)
  {
  }

  /** The sync is idempotent, and it keeps what an allocation produced. */
  lemma SyncResourcesStable(h: Hulls, res: Resources, rawCargo: int)
    ensures SyncResources(h, SyncResources(h, res)) == SyncResources(h, res)
    ensures var (h', r) := Allocate(h, rawCargo); SyncResources(h', r) == r
  {
  }

  // ------------------------------------------------------------------ roles

  /** The roles offered before any is stored. */
  const DefaultRoles: seq<string> := [
    "corvette", "frigate", "destroyer", "cruiser", "battleship",
    "dreadnought", "carrier", "fighter", "bomber", "scout",
    "transport", "support"]

  function RoleKey(s: string): string { s }

  /** ensureRoleAvailable: the role list after offering `role`. */
  function WithRole(roles: seq<string>, role: Option<string>): seq<string>
  {
    if role.None? || role.value == [] then roles
    else
      var normalized := JsTrim(role.value);
      if normalized == [] || normalized in roles then roles
      else SortBy(roles + [normalized], RoleKey, false)
  }

  /** No role is listed twice. */
  ghost predicate Distinct(s: seq<string>)
  {
    forall x :: multiset(s)[x] <= 1
  }

  /**
   * An empty or blank role changes nothing; otherwise the trimmed role is
   * offered afterwards, the list stays free of duplicates and sorted, and
   * exactly that role is added when it was missing.
   */
  lemma WithRoleSpec(roles: seq<string>, role: Option<string>)
    requires Distinct(roles)
    ensures var r := WithRole(roles, role);
      Distinct(r)
      && (role.None? || JsTrim(role.value) == [] ==> r == roles)
      && (role.Some? && JsTrim(role.value) != [] ==>
            JsTrim(role.value) in r
            && (JsTrim(role.value) in roles ==> r == roles)
            && (JsTrim(role.value) !in roles ==>
                  multiset(r) == multiset(roles) + multiset{JsTrim(role.value)} && SortedBy(r, RoleKey, false)))
  {
    if role.Some? && role.value == [] {
      TrimStartFixed(role.value, IsJsSpace);
      TrimEndFixed(role.value, IsJsSpace);
    }
    if role.Some? && role.value != [] {
      var n := JsTrim(role.value);
      if n != [] && n !in roles {
        var added := roles + [n];
        var r := SortBy(added, RoleKey, false);
        SortBySorted(added, RoleKey, false);
        assert multiset(added) == multiset(roles) + multiset{n};
        assert n in multiset(r);
      }
    }
  }

  // ----------------------------------------------------------------- loading

  datatype HardpointField =
    | PerEmplacement | Utility | Secondary | Primary | Main | TotalValue | UHP | SHP | PHP | MHP

  /** The parts of saved `shipData` the model reads; a missing object is `None`, a missing key absent from its map. */
  datatype SavedShip = SavedShip(
    role: Option<string>,
    hulls: Option<map<HullKind, int>>,
    hardpoints: Option<map<HardpointField, int>>,
    resources: Option<SavedResources>)

  datatype SavedResources = SavedResources(cargo: Option<int>, remass: Option<int>)

  function Lookup<K>(m: map<K, int>, k: K, default: int): int
  {
    if k in m then m[k] else default
  }

  /** `{ containment: 0, …, emplacement: 0, ...saved }` */
  function FillHulls(m: map<HullKind, int>): (h: Hulls)
    ensures forall k :: h.Get(k) == Lookup(m, k, 0)
  {
    Hulls(Lookup(m, Containment, 0), Lookup(m, Remass, 0), Lookup(m, Magazine, 0), Lookup(m, Hangar, 0),
          Lookup(m, Bunker, 0), Lookup(m, System, 0), Lookup(m, Powerplant, 0), Lookup(m, Emplacement, 0))
  }

  /** `{ perEmplacement: 4, utility: 0, …, ...saved }` */
  function FillHardpoints(m: map<HardpointField, int>): Hardpoints
  {
    Hardpoints(Lookup(m, PerEmplacement, 4), Lookup(m, Utility, 0), Lookup(m, Secondary, 0),
               Lookup(m, Primary, 0), Lookup(m, Main, 0), Lookup(m, TotalValue, 0),
               Lookup(m, UHP, 0), Lookup(m, SHP, 0), Lookup(m, PHP, 0), Lookup(m, MHP, 0))
  }

  /** The ship-class data the widget keeps. */
  class ShipWidget {
    var role: string
    var hulls: Hulls
    var hardpoints: Hardpoints
    var resources: Resources
    var availableRoles: seq<string>

    /** The initial data, with the stored role list (or the defaults) passed in. */
    constructor (storedRoles: seq<string>)
      ensures role == "corvette" && hulls == NoHulls && hardpoints == DefaultHardpoints
      ensures resources == Resources(0, 0)
      ensures availableRoles == WithRole(storedRoles, Some("corvette"))
    {
      role := "corvette";
      hulls := NoHulls;
      hardpoints := DefaultHardpoints;
      resources := Resources(0, 0);
      availableRoles := storedRoles;
      new;
      EnsureRoleAvailable(Some(role));
    }

    /** ensureRoleAvailable (the role list is saved to storage, which is not modelled). */
    method EnsureRoleAvailable(r: Option<string>)
      modifies this
      ensures availableRoles == WithRole(old(availableRoles), r)
      ensures role == old(role) && hulls == old(hulls) && hardpoints == old(hardpoints) && resources == old(resources)
    {
      if r.None? || r.value == [] {
        return;
      }
      var normalized := JsTrim(r.value);
      if normalized == [] {
        return;
      }
      if normalized !in availableRoles {
        availableRoles := availableRoles + [normalized];
        availableRoles := SortBy(availableRoles, RoleKey, false);
      }
    }

    function TotalHullCount(): int
      reads this
    {
      TotalHulls(hulls)
    }

    /** updateHardpointStats, data part. */
    method UpdateHardpointStats()
      modifies this
      ensures hardpoints == HardpointStats(old(hardpoints), hulls)
      ensures role == old(role) && hulls == old(hulls) && resources == old(resources) && availableRoles == old(availableRoles)
    {
      var perEmplacement := Max(0, hardpoints.perEmplacement);
      var utilityCount := hulls.magazine + hulls.hangar + hulls.system + hulls.powerplant;
      var totalValue := hulls.emplacement * perEmplacement;
      var distribution, _ := CalculateHardpointDistribution(totalValue);
      hardpoints := hardpoints.(utility := utilityCount, secondary := distribution.shp,
        primary := distribution.php, main := distribution.mhp, totalValue := totalValue,
        uhp := utilityCount, shp := distribution.shp, php := distribution.php, mhp := distribution.mhp);
    }

    /** updateCargoRemassAllocation */
    method UpdateCargoRemassAllocation(rawCargo: int)
      modifies this
      ensures (hulls, resources) == Allocate(old(hulls), rawCargo)
      ensures role == old(role) && hardpoints == old(hardpoints) && availableRoles == old(availableRoles)
    {
      var totalSlots := CivilSlots(hulls);
      if totalSlots <= 0 {
        resources := Resources(0, 0);
        return;
      }
      var capacity := totalSlots * UnitsPerHull;
      var cargo := Max(0, Min(rawCargo, capacity));
      var remass := capacity - cargo;
      resources := Resources(cargo, remass);
      var fullContainment := Min(totalSlots, cargo / UnitsPerHull);
      hulls := hulls.(containment := fullContainment, remass := totalSlots - fullContainment);
    }

    /** updateCargoRemassUI, data part. */
    method UpdateCargoRemassUI()
      modifies this
      ensures resources == SyncResources(old(hulls), old(resources))
      ensures role == old(role) && hulls == old(hulls) && hardpoints == old(hardpoints) && availableRoles == old(availableRoles)
    {
      var totalSlots := CivilSlots(hulls);
      var capacity := totalSlots * UnitsPerHull;
      var cargo := Max(0, Min(resources.cargo, capacity));
      var remass := Max(0, capacity - cargo);
      if capacity == 0 {
        cargo := 0;
        remass := 0;
      }
      resources := Resources(cargo, remass);
    }

    /** updateStats, data part: hardpoints, then resources. */
    method UpdateStats()
      modifies this
      ensures hardpoints == HardpointStats(old(hardpoints), hulls)
      ensures resources == SyncResources(old(hulls), old(resources))
      ensures role == old(role) && hulls == old(hulls) && availableRoles == old(availableRoles)
    {
      UpdateHardpointStats();
      UpdateCargoRemassUI();
    }

    /** The hull input handler: clamp to zero, re-allocate on a civil hull, refresh the stats. */
    method SetHull(kind: HullKind, value: int)
      modifies this
      ensures var h := old(hulls).Set(kind, Max(0, value));
        var h' := if kind == Containment || kind == Remass then Allocate(h, old(resources).cargo).0 else h;
        var res := if kind == Containment || kind == Remass then Allocate(h, old(resources).cargo).1 else old(resources);
        hulls == h' && hardpoints == HardpointStats(old(hardpoints), h') && resources == SyncResources(h', res)
      ensures role == old(role) && availableRoles == old(availableRoles)
    {
      hulls := hulls.Set(kind, Max(0, value));
      if kind == Containment || kind == Remass {
        UpdateCargoRemassAllocation(resources.cargo);
      }
      UpdateStats();
    }

    /** loadSerializedData, data part. */
    method LoadSerializedData(saved: Option<SavedShip>)
      modifies this
      ensures saved.None? ==>
        (role == old(role) && hulls == old(hulls) && hardpoints == old(hardpoints)
         && resources == old(resources) && availableRoles == old(availableRoles))
      ensures saved.Some? ==> var s := saved.value;
        var h := if s.hulls.Some? then FillHulls(s.hulls.value) else old(hulls);
        var hp := if s.hardpoints.Some? then FillHardpoints(s.hardpoints.value) else old(hardpoints);
        var res := if s.resources.Some? then Resources(s.resources.value.cargo.GetOr(0), s.resources.value.remass.GetOr(0))
                   else Resources(h.containment * UnitsPerHull, h.remass * UnitsPerHull);
        role == (if s.role.Some? then s.role.value else old(role))
        && hulls == h
        && availableRoles == WithRole(old(availableRoles), Some(role))
        && hardpoints == HardpointStats(hp, h)
        && resources == SyncResources(h, res)
    {
      if saved.None? {
        return;
      }
      var s := saved.value;
      if s.role.Some? {
        role := s.role.value;
      }
      if s.hulls.Some? {
        hulls := FillHulls(s.hulls.value);
      }
      if s.hardpoints.Some? {
        hardpoints := FillHardpoints(s.hardpoints.value);
      }
      if s.resources.Some? {
        resources := Resources(s.resources.value.cargo.GetOr(0), s.resources.value.remass.GetOr(0));
      } else {
        resources := Resources(hulls.containment * UnitsPerHull, hulls.remass * UnitsPerHull);
      }
      EnsureRoleAvailable(Some(role));
      UpdateStats();
    }
  }

  /** The hull handler keeps every count non-negative and, on a civil hull, the slots it was given. */
  lemma SetHullKeepsNonNegative(h: Hulls, kind: HullKind, value: int, cargo: int)
    requires NonNegative(h)
    ensures var h1 := h.Set(kind, Max(0, value));
      NonNegative(h1) && NonNegative(Allocate(h1, cargo).0)
      && CivilSlots(Allocate(h1, cargo).0) == CivilSlots(h1)
  {
    var h1 := h.Set(kind, Max(0, value));
    assert NonNegative(h1) by {
      forall k ensures h1.Get(k) >= 0 {
        assert h.Get(k) >= 0;
      }
    }
    AllocateNonNegative(h1, cargo);
  }

  /**
   * Loading saved data without resources derives them from the hulls: 50
   * units of cargo per containment hull and 50 of remass per remass hull.
   */
  lemma LoadDerivesResources(h: Hulls)
    requires h.containment >= 0 && h.remass >= 0
    ensures SyncResources(h, Resources(h.containment * UnitsPerHull, h.remass * UnitsPerHull))
         == Resources(h.containment * UnitsPerHull, h.remass * UnitsPerHull)
  {
  }
}
