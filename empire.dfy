// The empire: researched and available technologies with the tech points
// that pay for research, the unlocking of technologies as their
// prerequisites are met, the design lists with their generated ids, and the
// empire's serialised form. The tech data is passed in explicitly.

module Empires {
  import opened Wrappers
  import opened Text
  import opened TechTree

  /** A design; only its id matters to the empire. */
  datatype Design = Design(id: string, name: string)

  /** The design lists a new empire starts with, one per design type, all empty. */
  const EmptyDesigns: map<string, seq<Design>> := map[
    "ships" := [], "craft" := [], "troops" := [], "missiles" := [],
    "loadouts" := [], "powerplants" := [], "factories" := [], "shipyards" := []
  ]

  datatype EmpireState = EmpireState(
    name: string, techPoints: int, researched: set<string>, available: set<string>,
    designs: map<string, seq<Design>>)

  /** The constructor's state (before initialize runs). */
  const NewEmpire := EmpireState("New Empire", 1000, {}, {}, EmptyDesigns)

  /** No technology is both researched and merely available. */
  predicate Disjoint(st: EmpireState)
  {
    st.researched * st.available == {}
  }

  // ------------------------------------------------------ technology sets

  /** A starting technology: no prerequisites and no special requirement. */
  predicate IsStarting(t: Tech)
  {
    t.prerequisites == [] && t.special == ""
  }

  /** A baseline technology: a starting technology that costs exactly 0. */
  predicate IsBaseline(t: Tech)
  {
    t.cost == Some(0) && IsStarting(t)
  }

  /**
   * updateAvailableTech's test for an entry: not yet researched, every
   * prerequisite researched, and its special requirement researched (Tier3
   * counts as met).
   */
  predicate Unlocks(id: string, t: Tech, researched: set<string>)
  {
    && id !in researched
    && (forall p :: p in t.prerequisites ==> p in researched)
    && (t.special == "" || t.special == Tier3 || t.special in researched)
  }

  function Starting(data: TechData): set<string>
  {
    if data == [] then {}
    else Starting(data[..|data| - 1]) + (if IsStarting(data[|data| - 1].1) then {data[|data| - 1].0} else {})
  }

  function Baseline(data: TechData): set<string>
  {
    if data == [] then {}
    else Baseline(data[..|data| - 1]) + (if IsBaseline(data[|data| - 1].1) then {data[|data| - 1].0} else {})
  }

  function Unlockable(data: TechData, researched: set<string>): set<string>
  {
    if data == [] then {}
    else
      var last := data[|data| - 1];
      Unlockable(data[..|data| - 1], researched) + (if Unlocks(last.0, last.1, researched) then {last.0} else {})
  }

  /** The three sets hold exactly the ids of the entries passing their tests. */
  lemma {:induction false} TechSetsSpec(data: TechData, researched: set<string>)
    ensures forall x :: x in Starting(data) <==> exists i :: 0 <= i < |data| && data[i].0 == x && IsStarting(data[i].1)
    ensures forall x :: x in Baseline(data) <==> exists i :: 0 <= i < |data| && data[i].0 == x && IsBaseline(data[i].1)
    ensures forall x :: x in Unlockable(data, researched) <==>
      exists i :: 0 <= i < |data| && data[i].0 == x && Unlocks(x, data[i].1, researched)
    ensures Baseline(data) <= Starting(data) && Unlockable(data, researched) * researched == {}
  {
    if data != [] {
      var init := data[..|data| - 1];
      TechSetsSpec(init, researched);
      assert forall i :: 0 <= i < |init| ==> init[i] == data[i];
    }
  }

  /** updateAvailableTech: every unlockable technology becomes available. */
  function UpdateAvailable(st: EmpireState, data: TechData): EmpireState
  {
    st.(available := st.available + Unlockable(data, st.researched))
  }

  /** initialize: starting techs available, baseline techs researched, then unlocking. */
  function Initialized(st: EmpireState, data: TechData): EmpireState
  {
    var withStarting := st.available + Starting(data);
    var unlocked := Baseline(data) - st.researched;
    UpdateAvailable(st.(researched := st.researched + Baseline(data), available := withStarting - unlocked), data)
  }

  /** researchTech: the state after the attempt, and whether it succeeded. */
  function Research(st: EmpireState, data: TechData, id: string): (EmpireState, bool)
  {
    if id in st.available && id !in st.researched then
      match Find(data, id)
      case Some(t) =>
        if t.cost.Some? && st.techPoints >= t.cost.value then
          (UpdateAvailable(st.(techPoints := st.techPoints - t.cost.value,
                               researched := st.researched + {id},
                               available := st.available - {id}), data), true)
        else (st, false)
      case None => (st, false)
    else (st, false)
  }

  /**
   * updateAvailableTech only adds, adds exactly the unlockable
   * technologies, keeps researched and available apart, and a second run
   * adds nothing more.
   */
  lemma UpdateAvailableSpec(st: EmpireState, data: TechData)
    ensures var r := UpdateAvailable(st, data);
      && r.researched == st.researched && r.techPoints == st.techPoints && r.designs == st.designs
      && st.available <= r.available
      && (forall x :: x in r.available - st.available ==>
            exists i :: 0 <= i < |data| && data[i].0 == x && Unlocks(x, data[i].1, st.researched))
      && (Disjoint(st) ==> Disjoint(r))
      && UpdateAvailable(r, data) == r
  {
    TechSetsSpec(data, st.researched);
  }

  /**
   * researchTech succeeds exactly when the technology is available, not
   * researched, known, and affordable; it then pays the cost, moves the
   * technology from available to researched and unlocks what that allows.
   * A failed attempt changes nothing. Tech points never go negative through
   * research, and researched and available stay apart.
   */
  lemma ResearchSpec(st: EmpireState, data: TechData, id: string)
    ensures var (r, ok) := Research(st, data, id);
      && (ok <==> id in st.available && id !in st.researched && Find(data, id).Some?
                  && Find(data, id).value.cost.Some? && st.techPoints >= Find(data, id).value.cost.value)
      && (!ok ==> r == st)
      && (ok ==> && r.techPoints == st.techPoints - Find(data, id).value.cost.value
                 && r.researched == st.researched + {id}
                 && id !in r.available
                 && st.available - {id} <= r.available
                 && r.designs == st.designs && r.name == st.name)
      && (st.techPoints >= 0 ==> r.techPoints >= 0)
      && (Disjoint(st) ==> Disjoint(r))
  {
    TechSetsSpec(data, st.researched + {id});
  }

  /**
   * From a state with nothing researched, initialize researches exactly the
   * baseline technologies, leaves none of them available, makes every other
   * starting technology available, and keeps researched and available apart.
   */
  lemma InitializeSpec(st: EmpireState, data: TechData)
    requires st.researched == {}
    ensures var r := Initialized(st, data);
      && r.researched == Baseline(data)
      && Baseline(data) * r.available == {}
      && Starting(data) - Baseline(data) <= r.available
      && Disjoint(r)
      && r.techPoints == st.techPoints && r.designs == st.designs
  {
    TechSetsSpec(data, Baseline(data));
  }

  // -------------------------------------------------------------- designs

  /** A generated design id: `<type>-<n>`. */
  function DesignId(designType: string, n: nat): string
  {
    designType + "-" + NatToString(n)
  }

  lemma DesignIdInjective(designType: string, m: nat, n: nat)
    ensures DesignId(designType, m) == DesignId(designType, n) ==> m == n
  {
    var p := designType + "-";
    if DesignId(designType, m) == DesignId(designType, n) {
      assert NatToString(m) == DesignId(designType, m)[|p|..];
      assert NatToString(n) == DesignId(designType, n)[|p|..];
      NatToStringInjective(m, n);
    }
  }

  /** The ids `<type>-1` … `<type>-(n-1)`. */
  function IdsBelow(designType: string, n: nat): set<string>
  {
    set k | 1 <= k < n :: DesignId(designType, k)
  }

  lemma {:induction false} IdsBelowSize(designType: string, n: nat)
    ensures n >= 1 ==> |IdsBelow(designType, n)| == n - 1
  {
    if n > 1 {
      IdsBelowSize(designType, n - 1);
      assert IdsBelow(designType, n) == IdsBelow(designType, n - 1) + {DesignId(designType, n - 1)};
      if DesignId(designType, n - 1) in IdsBelow(designType, n - 1) {
        var k :| 1 <= k < n - 1 && DesignId(designType, k) == DesignId(designType, n - 1);
        DesignIdInjective(designType, k, n - 1);
      }
    } else if n == 1 {
      assert IdsBelow(designType, n) == {};
    }
  }

  function IdSet(ds: seq<Design>): set<string>
  {
    set d | d in ds :: d.id
  }

  /** n is the least number from 1 up whose id is not in use. */
  predicate FirstFree(ds: seq<Design>, designType: string, n: nat)
  {
    n >= 1 && DesignId(designType, n) !in IdSet(ds) && forall k :: 1 <= k < n ==> DesignId(designType, k) in IdSet(ds)
  }

  /** No two designs of a list share an id. */
  predicate UniqueDesignIds(ds: seq<Design>)
  {
    forall i, j :: 0 <= i < j < |ds| ==> ds[i].id != ds[j].id
  }

  /** Appending a design with an unused id keeps the ids unique. */
  lemma AppendFreshKeepsUnique(ds: seq<Design>, d: Design)
    requires UniqueDesignIds(ds) && d.id !in IdSet(ds)
    ensures UniqueDesignIds(ds + [d])
  {
    forall i, j | 0 <= i < j < |ds + [d]| ensures (ds + [d])[i].id != (ds + [d])[j].id {
      if j == |ds| {
        assert (ds + [d])[i] == ds[i] && ds[i] in ds;
      }
    }
  }

  /** Array.prototype.findIndex on the design id. */
  function FindDesign(ds: seq<Design>, id: string): (r: int)
    ensures -1 <= r < |ds|
    ensures r == -1 <==> forall i :: 0 <= i < |ds| ==> ds[i].id != id
    ensures r >= 0 ==> ds[r].id == id && forall i :: 0 <= i < r ==> ds[i].id != id
  {
    if ds == [] then -1
    else if ds[0].id == id then 0
    else
      var k := FindDesign(ds[1..], id);
      assert forall i :: 1 <= i < |ds| ==> ds[i] == ds[1..][i - 1];
      if k == -1 then -1 else k + 1
  }

  // ---------------------------------------------------------- serialisation

  /** The serialised empire; an absent field is None. */
  datatype EmpireJson = EmpireJson(
    name: Option<string>, techPoints: Option<int>,
    researchedTech: Option<seq<string>>, availableTech: Option<seq<string>>,
    designs: Option<map<string, seq<Design>>>)

  const DefaultAvailable: set<string> := {"basic-hull", "basic-engine", "basic-weapon"}

  function SetOf(s: seq<string>): set<string>
  {
    set x | x in s
  }

  /**
   * fromJSON: an absent or empty name becomes "New Empire", absent (or 0)
   * tech points 0, an absent researched list nothing, an absent available
   * list the three basic technologies, absent designs the empty lists.
   */
  function FromJson(j: EmpireJson): EmpireState
  {
    EmpireState(
      if j.name.Some? && j.name.value != "" then j.name.value else "New Empire",
      j.techPoints.GetOr(0),
      SetOf(j.researchedTech.GetOr([])),
      if j.availableTech.Some? then SetOf(j.availableTech.value) else DefaultAvailable,
      j.designs.GetOr(EmptyDesigns))
  }

  /** toJSON, with the iteration order of the two sets given as listings. */
  function ToJson(st: EmpireState, researchedList: seq<string>, availableList: seq<string>): EmpireJson
  {
    EmpireJson(Some(st.name), Some(st.techPoints), Some(researchedList), Some(availableList), Some(st.designs))
  }

  /**
   * Reading back what toJSON wrote restores the empire, provided its name
   * is not empty; an empty name comes back as "New Empire".
   */
  lemma JsonRoundTrip(st: EmpireState, researchedList: seq<string>, availableList: seq<string>)
    requires SetOf(researchedList) == st.researched && SetOf(availableList) == st.available
    ensures st.name != "" ==> FromJson(ToJson(st, researchedList, availableList)) == st
    ensures st.name == "" ==> FromJson(ToJson(st, researchedList, availableList)).name == "New Empire"
  {
  }

  // ------------------------------------------------------------- the class

  class Empire {
    var name: string
    var techPoints: int
    var researchedTech: set<string>
    var availableTech: set<string>
    var designs: map<string, seq<Design>>

    function State(): EmpireState
      reads this
    {
      EmpireState(name, techPoints, researchedTech, availableTech, designs)
    }

    /** The new empire; initialize is run separately, with the tech data. */
    constructor ()
      ensures State() == NewEmpire
    {
      name := "New Empire";
      techPoints := 1000;
      researchedTech := {};
      availableTech := {};
      designs := EmptyDesigns;
    }

    /** initializeAvailableTech. */
    method InitializeAvailableTech(data: TechData)
      modifies this
      ensures State() == old(State()).(available := old(availableTech) + Starting(data))
    {
      for i := 0 to |data|
        invariant State() == old(State()).(available := old(availableTech) + Starting(data[..i]))
      {
        assert data[..i + 1][..i] == data[..i];
        if IsStarting(data[i].1) {
          availableTech := availableTech + {data[i].0};
        }
      }
      assert data[..|data|] == data;
    }

    /** initialize. */
    method Initialize(data: TechData)
      modifies this
      ensures State() == Initialized(old(State()), data)
    {
      InitializeAvailableTech(data);
      ghost var r0 := researchedTech;
      ghost var a0 := availableTech;
      for i := 0 to |data|
        invariant researchedTech == r0 + Baseline(data[..i])
        invariant availableTech == a0 - (Baseline(data[..i]) - r0)
        invariant name == old(name) && techPoints == old(techPoints) && designs == old(designs)
      {
        assert data[..i + 1][..i] == data[..i];
        var (techId, tech) := data[i];
        if tech.cost == Some(0) && tech.prerequisites == [] && tech.special == "" {
          if techId !in researchedTech {
            researchedTech := researchedTech + {techId};
            availableTech := availableTech - {techId};
          }
        }
      }
      assert data[..|data|] == data;
      UpdateAvailableTech(data);
    }

    /** researchTech. */
    method ResearchTech(data: TechData, techId: string) returns (ok: bool)
      modifies this
      ensures (State(), ok) == Research(old(State()), data, techId)
    {
      if techId in availableTech && techId !in researchedTech {
        var tech := Find(data, techId);
        if tech.Some? && tech.value.cost.Some? && techPoints >= tech.value.cost.value {
          techPoints := techPoints - tech.value.cost.value;
          researchedTech := researchedTech + {techId};
          availableTech := availableTech - {techId};
          UpdateAvailableTech(data);
          return true;
        }
      }
      return false;
    }

    /** updateAvailableTech. */
    method UpdateAvailableTech(data: TechData)
      modifies this
      ensures State() == UpdateAvailable(old(State()), data)
    {
      for i := 0 to |data|
        invariant State() == old(State()).(available := old(availableTech) + Unlockable(data[..i], researchedTech))
      {
        assert data[..i + 1][..i] == data[..i];
        var (techId, tech) := data[i];
        if techId !in researchedTech && techId !in availableTech {
          var prereqsMet := forall p :: p in tech.prerequisites ==> p in researchedTech;
          var specialMet := true;
          if tech.special != "" {
            if tech.special == Tier3 {
              specialMet := true;
            } else {
              specialMet := tech.special in researchedTech;
            }
          }
          if prereqsMet && specialMet {
            availableTech := availableTech + {techId};
          }
        }
      }
      assert data[..|data|] == data;
    }

    /** hasTech; while researched and available stay apart, a researched technology is not researchable. */
    function HasTech(techId: string): (r: bool)
      reads this
      ensures r && Disjoint(State()) ==> !CanResearch(techId)
    {
      assert techId in availableTech && techId in researchedTech ==> techId in researchedTech * availableTech;
      techId in researchedTech
    }

    /** canResearch; while researched and available stay apart, a researchable technology is not researched. */
    function CanResearch(techId: string): (r: bool)
      reads this
      ensures r && Disjoint(State()) ==> techId !in researchedTech
    {
      assert techId in availableTech && techId in researchedTech ==> techId in researchedTech * availableTech;
      techId in availableTech
    }

    /**
     * generateDesignId: `<type>-n` for the least n from 1 up not used by a
     * design of that type (the type must have a design list).
     */
    method GenerateDesignId(designType: string) returns (id: string)
      requires designType in designs
      ensures exists n: nat :: FirstFree(designs[designType], designType, n) && id == DesignId(designType, n)
      ensures id !in IdSet(designs[designType])
    {
      var existing := IdSet(designs[designType]);
      var n: nat := 1;
      IdsBelowSize(designType, n);
      while DesignId(designType, n) in existing
        invariant n >= 1 && IdsBelow(designType, n) <= existing
        invariant |IdsBelow(designType, n)| == n - 1
        decreases |existing| - (n - 1)
      {
        assert IdsBelow(designType, n + 1) == IdsBelow(designType, n) + {DesignId(designType, n)};
        IdsBelowSize(designType, n + 1);
        assert IdsBelow(designType, n + 1) <= existing;
        SubsetSize(IdsBelow(designType, n + 1), existing);
        n := n + 1;
      }
      id := DesignId(designType, n);
      assert forall k :: 1 <= k < n ==> DesignId(designType, k) in IdsBelow(designType, n);
    }

    /** addDesign: ignored for a type without a design list; otherwise appended under a fresh id. */
    method AddDesign(designType: string, design: Design)
      modifies this
      ensures designType !in old(designs) ==> State() == old(State())
      ensures designType in old(designs) ==>
        exists n: nat :: FirstFree(old(designs)[designType], designType, n)
          && State() == old(State()).(designs := old(designs)[designType :=
               old(designs)[designType] + [design.(id := DesignId(designType, n))]])
      ensures designType in old(designs) && UniqueDesignIds(old(designs)[designType]) ==> UniqueDesignIds(designs[designType])
    {
      if designType in designs {
        var id := GenerateDesignId(designType);
        if UniqueDesignIds(designs[designType]) {
          AppendFreshKeepsUnique(designs[designType], design.(id := id));
        }
        designs := designs[designType := designs[designType] + [design.(id := id)]];
      }
    }

    /** removeDesign: the first design with that id is removed and returned; None otherwise. */
    method RemoveDesign(designType: string, designId: string) returns (removed: Option<Design>)
      modifies this
      ensures removed.None? ==> State() == old(State())
      ensures removed.None? <==>
        designType !in old(designs) || forall i :: 0 <= i < |old(designs)[designType]| ==> old(designs)[designType][i].id != designId
      ensures removed.Some? ==>
        var ds := old(designs)[designType];
        var k := FindDesign(ds, designId);
        && removed.value == ds[k]
        && State() == old(State()).(designs := old(designs)[designType := ds[..k] + ds[k + 1..]])
    {
      if designType in designs {
        var ds := designs[designType];
        var index := FindDesign(ds, designId);
        if index != -1 {
          removed := Some(ds[index]);
          designs := designs[designType := ds[..index] + ds[index + 1..]];
          return;
        }
      }
      removed := None;
    }

    /** fromJSON. */
    method FromJSON(j: EmpireJson)
      modifies this
      ensures State() == FromJson(j)
    {
      name := if j.name.Some? && j.name.value != "" then j.name.value else "New Empire";
      techPoints := j.techPoints.GetOr(0);
      researchedTech := SetOf(j.researchedTech.GetOr([]));
      availableTech := if j.availableTech.Some? then SetOf(j.availableTech.value) else DefaultAvailable;
      designs := j.designs.GetOr(EmptyDesigns);
    }
  }

  /** A subset is no larger than its superset. */
  lemma SubsetSize<T>(a: set<T>, b: set<T>)
    requires a <= b
    ensures |a| <= |b|
  {
    assert b == a + (b - a);
  }
}
