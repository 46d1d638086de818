// The technology tree: queries over the tech data (a tech's prerequisites,
// its dependents, whether it can be researched, what a list of techs
// costs), the research-chain validation, the research-path planner and the
// grouping of techs by category. The data is passed in explicitly.

module TechTree {
  import opened Wrappers

  /**
   * A technology record. A missing cost is None; an absent special
   * requirement and an absent category are the empty string (both are
   * tested for truthiness).
   */
  datatype Tech = Tech(name: string, cost: Option<int>, prerequisites: seq<string>, special: string, category: string)

  /** The tech data: its entries in key order. */
  type TechData = seq<(string, Tech)>

  /** The special requirement met by empire level rather than by a researched tech. */
  const Tier3 := "Tier3"

  /** getTech: the entry with that id, if any. */
  function Find(data: TechData, id: string): (r: Option<Tech>)
    ensures r.None? <==> forall i :: 0 <= i < |data| ==> data[i].0 != id
    ensures r.Some? ==> exists i :: 0 <= i < |data| && data[i] == (id, r.value)
  {
    if data == [] then None
    else if data[0].0 == id then Some(data[0].1)
    else
      var r := Find(data[1..], id);
      assert r.Some? ==> exists i :: 0 <= i < |data[1..]| && data[1..][i] == (id, r.value);
      assert forall i :: 1 <= i < |data| ==> data[i] == data[1..][i - 1];
      r
  }

  /** Every id names one entry (keys of an object are unique). */
  predicate UniqueIds(data: TechData)
  {
    forall i, j :: 0 <= i < j < |data| ==> data[i].0 != data[j].0
  }

  /** With unique ids, looking up an entry's id gives that entry. */
  lemma {:induction false} FindEntry(data: TechData, i: nat)
    requires UniqueIds(data) && i < |data|
    ensures Find(data, data[i].0) == Some(data[i].1)
  {
    if i > 0 {
      assert UniqueIds(data[1..]) by {
        forall a, b | 0 <= a < b < |data[1..]| ensures data[1..][a].0 != data[1..][b].0 {
          assert data[1..][a] == data[a + 1] && data[1..][b] == data[b + 1];
        }
      }
      FindEntry(data[1..], i - 1);
      assert data[1..][i - 1] == data[i];
    }
  }

  // ------------------------------------------------------------ prerequisites

  /** getTechPrerequisites: a copy of the tech's list, or [] for an unknown id. */
  function Prerequisites(data: TechData, id: string): seq<string>
  {
    match Find(data, id)
    case None => []
    case Some(t) => t.prerequisites
  }

  /** getEffectivePrerequisites: the prerequisites plus a special requirement other than Tier3. */
  function EffectivePrerequisites(data: TechData, id: string): seq<string>
  {
    match Find(data, id)
    case None => []
    case Some(t) => t.prerequisites + (if t.special != "" && t.special != Tier3 then [t.special] else [])
  }

  /**
   * The effective list starts with the plain prerequisites (both empty for an
   * unknown tech) and adds at most the special requirement, never Tier3.
   */
  lemma EffectivePrerequisitesSpec(data: TechData, id: string)
    ensures Find(data, id).None? ==> Prerequisites(data, id) == [] && EffectivePrerequisites(data, id) == []
    ensures |Prerequisites(data, id)| <= |EffectivePrerequisites(data, id)| <= |Prerequisites(data, id)| + 1
    ensures EffectivePrerequisites(data, id)[..|Prerequisites(data, id)|] == Prerequisites(data, id)
    ensures forall p :: p in EffectivePrerequisites(data, id) && p !in Prerequisites(data, id) ==>
              p == Find(data, id).value.special && p != Tier3 && p != ""
  {
  }

  /** Whether a special requirement is met: Tier3 by the empire level, any other by research. */
  predicate SpecialMet(special: string, researched: seq<string>, empireLevel: int)
  {
    special == "" || (if special == Tier3 then empireLevel >= 3 else special in researched)
  }

  /** canResearch. */
  predicate CanResearch(data: TechData, id: string, researched: seq<string>, empireLevel: int)
  {
    match Find(data, id)
    case None => false
    case Some(t) => (forall p :: p in t.prerequisites ==> p in researched) && SpecialMet(t.special, researched, empireLevel)
  }

  /**
   * canResearch agrees with the effective prerequisites: an unknown tech
   * cannot be researched; at empire level 3 or more a known tech can be
   * exactly when all its effective prerequisites are researched; below
   * level 3 a Tier3 tech never can.
   */
  lemma CanResearchSpec(data: TechData, id: string, researched: seq<string>, empireLevel: int)
    ensures Find(data, id).None? ==> !CanResearch(data, id, researched, empireLevel)
    ensures empireLevel >= 3 ==>
      (CanResearch(data, id, researched, empireLevel) <==>
        Find(data, id).Some? && forall p :: p in EffectivePrerequisites(data, id) ==> p in researched)
    ensures empireLevel < 3 && Find(data, id).Some? && Find(data, id).value.special == Tier3 ==>
      !CanResearch(data, id, researched, empireLevel)
    ensures Find(data, id).Some? ==> Prerequisites(data, id) <= EffectivePrerequisites(data, id)
  {
  }

  // ------------------------------------------------------------ dependents

  /** The ids, in data order, of the entries whose prerequisites list `id`. */
  function DependentsOf(data: TechData, id: string): seq<string>
  {
    if data == [] then []
    else
      var last := data[|data| - 1];
      DependentsOf(data[..|data| - 1], id) + (if id in last.1.prerequisites then [last.0] else [])
  }

  /** The dependents are exactly the entries listing the tech as a prerequisite, none twice over. */
  lemma {:induction false} DependentsSpec(data: TechData, id: string)
    ensures |DependentsOf(data, id)| <= |data|
    ensures forall x :: x in DependentsOf(data, id) <==>
      exists i :: 0 <= i < |data| && data[i].0 == x && id in data[i].1.prerequisites
  {
    if data != [] {
      var init := data[..|data| - 1];
      DependentsSpec(init, id);
      forall x ensures x in DependentsOf(data, id) <==>
        exists i :: 0 <= i < |data| && data[i].0 == x && id in data[i].1.prerequisites
      {
        if x in DependentsOf(init, id) {
          var i :| 0 <= i < |init| && init[i].0 == x && id in init[i].1.prerequisites;
          assert data[i] == init[i];
        }
        if exists i :: 0 <= i < |data| && data[i].0 == x && id in data[i].1.prerequisites {
          var i :| 0 <= i < |data| && data[i].0 == x && id in data[i].1.prerequisites;
          if i < |init| {
            assert init[i] == data[i];
          }
        }
      }
    }
  }

  /** getTechDependents. */
  method GetTechDependents(data: TechData, techId: string) returns (r: seq<string>)
    ensures r == DependentsOf(data, techId)
  {
    r := [];
    for i := 0 to |data|
      invariant r == DependentsOf(data[..i], techId)
    {
      assert data[..i + 1][..i] == data[..i];
      if techId in data[i].1.prerequisites {
        r := r + [data[i].0];
      }
    }
    assert data[..|data|] == data;
  }

  // ------------------------------------------------------------------ cost

  /** A listed id's contribution: its cost, 0 when missing, nothing for an unknown id. */
  function CostOf(data: TechData, id: string): int
  {
    match Find(data, id)
    case None => 0
    case Some(t) => t.cost.GetOr(0)
  }

  /** The total cost of a list of ids, repeats included. */
  function TotalCost(data: TechData, ids: seq<string>): int
  {
    if ids == [] then 0 else TotalCost(data, ids[..|ids| - 1]) + CostOf(data, ids[|ids| - 1])
  }

  /** The total of two lists is the sum of their totals, so a repeated id is counted each time. */
  lemma {:induction false} TotalCostAppend(data: TechData, a: seq<string>, b: seq<string>)
    ensures TotalCost(data, a + b) == TotalCost(data, a) + TotalCost(data, b)
    decreases |b|
  {
    if b == [] {
      assert a + b == a;
    } else {
      assert (a + b)[..|a + b| - 1] == a + b[..|b| - 1];
      TotalCostAppend(data, a, b[..|b| - 1]);
    }
  }

  /** Unknown ids cost nothing, and with non-negative costs the total is never negative. */
  lemma {:induction false} TotalCostBounds(data: TechData, ids: seq<string>)
    ensures (forall i :: 0 <= i < |ids| ==> Find(data, ids[i]).None?) ==> TotalCost(data, ids) == 0
    ensures (forall i :: 0 <= i < |data| ==> data[i].1.cost.GetOr(0) >= 0) ==> TotalCost(data, ids) >= 0
    decreases |ids|
  {
    if ids != [] {
      var init := ids[..|ids| - 1];
      TotalCostBounds(data, init);
      assert forall i :: 0 <= i < |init| ==> init[i] == ids[i];
      var f := Find(data, ids[|ids| - 1]);
      if f.Some? {
        var k :| 0 <= k < |data| && data[k] == (ids[|ids| - 1], f.value);
      }
    }
  }

  /** calculateTechCost. */
  method CalculateTechCost(data: TechData, techIds: seq<string>) returns (total: int)
    ensures total == TotalCost(data, techIds)
  {
    total := 0;
    for i := 0 to |techIds|
      invariant total == TotalCost(data, techIds[..i])
    {
      assert techIds[..i + 1][..i] == techIds[..i];
      var tech := Find(data, techIds[i]);
      if tech.Some? {
        total := total + tech.value.cost.GetOr(0);
      }
    }
    assert techIds[..|techIds|] == techIds;
  }

  // ------------------------------------------------------- chain validation

  datatype ChainError = ChainError(tech: string, missingPrereq: string, message: string)

  /** The first occurrence of each id, in order: iteration over `new Set(list)`. */
  function Dedup(s: seq<string>): (r: seq<string>)
    ensures forall x :: x in r <==> x in s
  {
    if s == [] then []
    else
      var init := Dedup(s[..|s| - 1]);
      assert forall x :: x in s <==> x in s[..|s| - 1] || x == s[|s| - 1];
      if s[|s| - 1] in init then init else init + [s[|s| - 1]]
  }

  /** A tech's name for messages: `data[id]?.name || id`. */
  function DisplayName(data: TechData, id: string): string
  {
    match Find(data, id)
    case Some(t) => if t.name != "" then t.name else id
    case None => id
  }

  /** The error for a prerequisite `p` of tech `t` that is not researched. */
  function PrereqError(data: TechData, id: string, t: Tech, p: string): (e: ChainError)
    ensures e.tech == id && e.missingPrereq == p
  {
    ChainError(id, p, t.name + " requires " + DisplayName(data, p))
  }

  /** The error for the special requirement of tech `t` that is not researched. */
  function SpecialRequirementError(data: TechData, id: string, t: Tech): (e: ChainError)
    ensures e.tech == id && e.missingPrereq == t.special
  {
    ChainError(id, t.special, t.name + " requires empire technology: " + DisplayName(data, t.special))
  }

  /** The errors for the listed prerequisites that are not researched, in order. */
  function MissingErrors(data: TechData, id: string, t: Tech, prereqs: seq<string>, researched: seq<string>): seq<ChainError>
  {
    if prereqs == [] then []
    else
      var p := prereqs[|prereqs| - 1];
      MissingErrors(data, id, t, prereqs[..|prereqs| - 1], researched)
        + (if p !in researched then [PrereqError(data, id, t, p)] else [])
  }

  /** The error for an unresearched special requirement, checked whether or not it is Tier3 (as written). */
  function SpecialErrorAsWritten(data: TechData, id: string, t: Tech, researched: seq<string>): seq<ChainError>
  {
    if t.special != "" && t.special !in researched
    then [SpecialRequirementError(data, id, t)]
    else []
  }

  /** The error for an unresearched special requirement other than Tier3, an empire level and not a tech. */
  function SpecialError(data: TechData, id: string, t: Tech, researched: seq<string>): seq<ChainError>
  {
    if t.special != "" && t.special != Tier3 && t.special !in researched
    then [SpecialRequirementError(data, id, t)]
    else []
  }

  /** validateTechChain as written, over the researched ids in iteration order. */
  function ChainErrorsAsWritten(data: TechData, order: seq<string>, researched: seq<string>): seq<ChainError>
  {
    if order == [] then []
    else
      var id := order[|order| - 1];
      ChainErrorsAsWritten(data, order[..|order| - 1], researched)
        + match Find(data, id)
          case None => []
          case Some(t) => MissingErrors(data, id, t, t.prerequisites, researched) + SpecialErrorAsWritten(data, id, t, researched)
  }

  /** validateTechChain with Tier3 treated as getEffectivePrerequisites and canResearch treat it. */
  function ChainErrors(data: TechData, order: seq<string>, researched: seq<string>): seq<ChainError>
  {
    if order == [] then []
    else
      var id := order[|order| - 1];
      ChainErrors(data, order[..|order| - 1], researched)
        + match Find(data, id)
          case None => []
          case Some(t) => MissingErrors(data, id, t, t.prerequisites, researched) + SpecialError(data, id, t, researched)
  }

  /** One error per unresearched listed prerequisite, each naming it. */
  lemma {:induction false} MissingErrorsSpec(data: TechData, id: string, t: Tech, prereqs: seq<string>, researched: seq<string>)
    ensures var e := MissingErrors(data, id, t, prereqs, researched);
      && (forall k :: 0 <= k < |e| ==> e[k].tech == id && e[k].missingPrereq in prereqs && e[k].missingPrereq !in researched)
      && ((forall p :: p in prereqs ==> p in researched) <==> e == [])
  {
    if prereqs != [] {
      var init := prereqs[..|prereqs| - 1];
      MissingErrorsSpec(data, id, t, init, researched);
      assert forall p :: p in prereqs <==> p in init || p == prereqs[|prereqs| - 1];
    }
  }

  /**
   * The chain reports nothing exactly when every known researched tech has
   * all its effective prerequisites researched, and every error names a
   * known tech of the order and a requirement that is not researched.
   */
  lemma {:induction false} ChainErrorsSpec(data: TechData, order: seq<string>, researched: seq<string>)
    ensures var e := ChainErrors(data, order, researched);
      && (forall k :: 0 <= k < |e| ==> e[k].tech in order && Find(data, e[k].tech).Some? && e[k].missingPrereq !in researched)
      && (e == [] <==> forall id :: id in order ==> forall p :: p in EffectivePrerequisites(data, id) ==> p in researched)
    decreases |order|
  {
    if order != [] {
      var init := order[..|order| - 1];
      var id := order[|order| - 1];
      ChainErrorsSpec(data, init, researched);
      assert forall x :: x in order <==> x in init || x == id;
      match Find(data, id)
      case None =>
      case Some(t) =>
        TechErrorsSpec(data, id, t, researched);
    }
  }

  /** The errors of one known tech name it and an unresearched requirement, and are none exactly when its effective prerequisites are researched. */
  lemma TechErrorsSpec(data: TechData, id: string, t: Tech, researched: seq<string>)
    requires Find(data, id) == Some(t)
    ensures var e := MissingErrors(data, id, t, t.prerequisites, researched) + SpecialError(data, id, t, researched);
      && (forall k :: 0 <= k < |e| ==> e[k].tech == id && e[k].missingPrereq !in researched)
      && ((forall p :: p in EffectivePrerequisites(data, id) ==> p in researched) <==> e == [])
  {
    MissingErrorsSpec(data, id, t, t.prerequisites, researched);
  }

  /**
   * As written, the chain check reports a researched Tier3 tech as missing
   * the tech "Tier3", although canResearch let it be researched at empire
   * level 3; the corrected check reports nothing for it.
   */
  lemma ChainErrorsTier3()
    ensures var data := [("t", Tech("Tier Three Tech", Some(0), [], Tier3, ""))];
      && CanResearch(data, "t", [], 3)
      && |ChainErrorsAsWritten(data, ["t"], ["t"])| == 1
      && ChainErrorsAsWritten(data, ["t"], ["t"])[0].missingPrereq == Tier3
      && ChainErrors(data, ["t"], ["t"]) == []
  {
    var data := [("t", Tech("Tier Three Tech", Some(0), [], Tier3, ""))];
    assert Find(data, "t") == Some(data[0].1);
    assert ["t"][..0] == [];
  }

  /** The chain errors of one more researched id: those of the tech it names, if any. */
  lemma ChainErrorsStep(data: TechData, order: seq<string>, i: nat, researched: seq<string>)
    requires i < |order|
    ensures Find(data, order[i]).None? ==>
      ChainErrors(data, order[..i + 1], researched) == ChainErrors(data, order[..i], researched)
    ensures Find(data, order[i]).Some? ==>
      var t := Find(data, order[i]).value;
      ChainErrors(data, order[..i + 1], researched) == ChainErrors(data, order[..i], researched)
        + MissingErrors(data, order[i], t, t.prerequisites, researched) + SpecialError(data, order[i], t, researched)
  {
    assert order[..i + 1][..i] == order[..i];
  }

  /** The missing-prerequisite errors of one more prerequisite. */
  lemma MissingErrorsStep(data: TechData, id: string, t: Tech, prereqs: seq<string>, j: nat, researched: seq<string>)
    requires j < |prereqs|
    ensures MissingErrors(data, id, t, prereqs[..j + 1], researched) == MissingErrors(data, id, t, prereqs[..j], researched)
      + (if prereqs[j] !in researched then [PrereqError(data, id, t, prereqs[j])] else [])
  {
    assert prereqs[..j + 1][..j] == prereqs[..j];
  }

  /** The inner part of validateTechChain: the errors of one known researched tech. */
  method TechErrors(data: TechData, techId: string, t: Tech, researchedTech: seq<string>) returns (errors: seq<ChainError>)
    ensures errors == MissingErrors(data, techId, t, t.prerequisites, researchedTech) + SpecialError(data, techId, t, researchedTech)
  {
    errors := [];
    for j := 0 to |t.prerequisites|
      invariant errors == MissingErrors(data, techId, t, t.prerequisites[..j], researchedTech)
    {
      MissingErrorsStep(data, techId, t, t.prerequisites, j, researchedTech);
      var prereq := t.prerequisites[j];
      if prereq !in researchedTech {
        errors := errors + [PrereqError(data, techId, t, prereq)];
      }
    }
    assert t.prerequisites[..|t.prerequisites|] == t.prerequisites;
    if t.special != "" && t.special != Tier3 && t.special !in researchedTech {
      errors := errors + [SpecialRequirementError(data, techId, t)];
    }
  }

  /** validateTechChain (with the corrected Tier3 rule). */
  method ValidateTechChain(data: TechData, researchedTech: seq<string>) returns (errors: seq<ChainError>)
    ensures errors == ChainErrors(data, Dedup(researchedTech), researchedTech)
  {
    var order := Dedup(researchedTech);
    errors := [];
    for i := 0 to |order|
      invariant errors == ChainErrors(data, order[..i], researchedTech)
    {
      ChainErrorsStep(data, order, i, researchedTech);
      var techId := order[i];
      var tech := Find(data, techId);
      if tech.None? {
        continue;
      }
      var found := TechErrors(data, techId, tech.value, researchedTech);
      errors := errors + found;
    }
    assert order[..|order|] == order;
  }

  // ------------------------------------------------------- research path

  predicate NoDuplicates(s: seq<string>)
  {
    forall i, j :: 0 <= i < j < |s| ==> s[i] != s[j]
  }

  /** path[i] is a known tech whose prerequisites are all researched or earlier in the path. */
  predicate ReadyAt(data: TechData, path: seq<string>, i: nat, current: seq<string>)
    requires i < |path|
  {
    && Find(data, path[i]).Some?
    && path[i] !in current
    && forall p :: p in Find(data, path[i]).value.prerequisites ==> p in current || p in path[..i]
  }

  predicate PathReady(data: TechData, path: seq<string>, current: seq<string>)
  {
    forall i :: 0 <= i < |path| ==> ReadyAt(data, path, i, current)
  }

  lemma PathReadyExtend(data: TechData, path: seq<string>, current: seq<string>, techId: string)
    requires PathReady(data, path, current)
    requires Find(data, techId).Some? && techId !in current
    requires forall p :: p in Find(data, techId).value.prerequisites ==> p in current || p in path
    ensures PathReady(data, path + [techId], current)
  {
    var r := path + [techId];
    forall i | 0 <= i < |r| ensures ReadyAt(data, r, i, current) {
      assert r[..i] == if i < |path| then path[..i] else path;
      if i < |path| {
        assert ReadyAt(data, path, i, current);
      }
    }
  }

  /**
   * getOptimalResearchPath, with at most `fuel` rounds of its work-list
   * loop: None for an unknown target; otherwise a duplicate-free path that
   * contains the target, in which every other entry is a known,
   * unresearched tech whose prerequisites are researched or come earlier.
   */
  method GetOptimalResearchPath(data: TechData, targetTech: string, currentTech: seq<string>, fuel: nat)
    returns (r: Option<seq<string>>)
    ensures r.None? <==> Find(data, targetTech).None?
    ensures r.Some? ==> targetTech in r.value && NoDuplicates(r.value)
    ensures r.Some? ==> forall i :: 0 <= i < |r.value| && r.value[i] != targetTech ==> ReadyAt(data, r.value, i, currentTech)
  {
    var target := Find(data, targetTech);
    if target.None? {
      return None;
    }
    var path: seq<string> := [];
    var queue := target.value.prerequisites;
    var steps := fuel;
    while queue != [] && steps > 0
      invariant NoDuplicates(path) && PathReady(data, path, currentTech)
      decreases steps
    {
      steps := steps - 1;
      var techId := queue[0];
      queue := queue[1..];
      if techId in currentTech || techId in path {
        continue;
      }
      var tech := Find(data, techId);
      if tech.Some? {
        var prereqs := tech.value.prerequisites;
        for j := 0 to |prereqs| {
          if prereqs[j] !in currentTech && prereqs[j] !in path {
            queue := [prereqs[j]] + queue;
          }
        }
        if forall p :: p in prereqs ==> p in currentTech || p in path {
          PathReadyExtend(data, path, currentTech, techId);
          path := path + [techId];
        }
      }
    }
    ghost var body := path;
    if targetTech !in path {
      path := path + [targetTech];
    }
    r := Some(path);
    forall i | 0 <= i < |path| && path[i] != targetTech ensures ReadyAt(data, path, i, currentTech) {
      assert i < |body| && path[i] == body[i];
      assert ReadyAt(data, body, i, currentTech);
      assert path[..i] == body[..i];
    }
  }

  // ------------------------------------------------------ category groups

  /** A tech's group: its category, or Uncategorized. */
  function CategoryKey(t: Tech): string
  {
    if t.category != "" then t.category else "Uncategorized"
  }

  /** The entries of one category, in data order. */
  function InCategory(data: TechData, key: string): seq<(string, Tech)>
  {
    if data == [] then []
    else
      var last := data[|data| - 1];
      InCategory(data[..|data| - 1], key) + (if CategoryKey(last.1) == key then [last] else [])
  }

  /** getTechsByCategory's result, built entry by entry. */
  function Grouped(data: TechData): map<string, seq<(string, Tech)>>
  {
    if data == [] then map[]
    else
      var g := Grouped(data[..|data| - 1]);
      var last := data[|data| - 1];
      var key := CategoryKey(last.1);
      g[key := (if key in g then g[key] else []) + [last]]
  }

  /** There is one group per category that occurs. */
  lemma {:induction false} GroupedKeys(data: TechData)
    ensures forall k :: k in Grouped(data) <==> exists i :: 0 <= i < |data| && CategoryKey(data[i].1) == k
  {
    if data != [] {
      GroupedKeys(data[..|data| - 1]);
    }
  }

  /**
   * Each group holds exactly the entries of its category, in data order;
   * with GroupedKeys and InCategorySpec, every tech is in exactly one group.
   */
  lemma {:induction false} GroupedContents(data: TechData)
    ensures forall k :: k in Grouped(data) ==> Grouped(data)[k] == InCategory(data, k)
  {
    if data != [] {
      var init := data[..|data| - 1];
      GroupedContents(init);
      GroupedKeys(init);
      var key := CategoryKey(data[|data| - 1].1);
      if key !in Grouped(init) {
        InCategoryEmpty(init, key);
      }
    }
  }

  /** A category that no entry has collects nothing. */
  lemma {:induction false} InCategoryEmpty(data: TechData, key: string)
    requires forall i :: 0 <= i < |data| ==> CategoryKey(data[i].1) != key
    ensures InCategory(data, key) == []
  {
    if data != [] {
      InCategoryEmpty(data[..|data| - 1], key);
    }
  }

  /** Every entry is in its own category's group, and a group holds only entries of its category. */
  lemma {:induction false} InCategorySpec(data: TechData, key: string)
    ensures forall e :: e in InCategory(data, key) <==> e in data && CategoryKey(e.1) == key
  {
    if data != [] {
      InCategorySpec(data[..|data| - 1], key);
      assert forall e :: e in data <==> e in data[..|data| - 1] || e == data[|data| - 1];
    }
  }

  /** getTechsByCategory. */
  method GetTechsByCategory(data: TechData) returns (categories: map<string, seq<(string, Tech)>>)
    ensures categories == Grouped(data)
  {
    categories := map[];
    for i := 0 to |data|
      invariant categories == Grouped(data[..i])
    {
      assert data[..i + 1][..i] == data[..i];
      var key := CategoryKey(data[i].1);
      if key !in categories {
        categories := categories[key := []];
      }
      categories := categories[key := categories[key] + [data[i]]];
    }
    assert data[..|data|] == data;
  }
}
