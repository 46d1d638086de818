// The one-line summaries a minimised ship prototype widget shows: the hull
// composition, the enabled foundations, the hardpoint and propulsion
// figures and optional numbers, each rendered as text.

module ShipSummary {
  import opened Wrappers
  import opened Numbers
  import opened Text
  import opened Ship

  /** The placeholder an empty figure is shown as. */
  const Dash: string := "—"

  /** Separator between the groups of a hardpoint or propulsion summary. */
  const Dot: string := " · "

  /** isShipFamily: a widget is a ship or a ship prototype; a missing widget is neither. */
  function IsShipFamily(widgetType: Option<string>): (r: bool)
    ensures r <==> widgetType == Some("ship") || widgetType == Some("shipPrototype")
  {
    widgetType.Some? && (widgetType.value == "ship" || widgetType.value == "shipPrototype")
  }

  // --------------------------------------------------------------- truncation

  /** The first `limit` parts and how many were cut off. */
  function Truncate(parts: seq<string>, limit: nat): (r: (seq<string>, nat))
    ensures |r.0| <= limit && |r.0| <= |parts| && r.0 == parts[..|r.0|]
    ensures r.1 == |parts| - |r.0|
    ensures r.1 > 0 ==> |r.0| == limit
  {
    if |parts| <= limit then (parts, 0) else (parts[..limit], |parts| - limit)
  }

  /** ` +k more` for `k` cut-off parts, nothing when none was cut. */
  function More(hidden: nat): string
  {
    if hidden > 0 then " +" + NatToString(hidden) + " more" else ""
  }

  /** The shown parts joined by `, `, followed by the cut-off count. */
  function Listed(parts: seq<string>, limit: nat): string
  {
    var (shown, hidden) := Truncate(parts, limit);
    JoinWith(shown, ", ") + More(hidden)
  }

  // -------------------------------------------------------------------- hulls

  /** The hull kinds in summary order: the military kinds, then the civil ones, each with its label. */
  const HullTypes: seq<(HullKind, string)> := [
    (Magazine, "Magazine"), (Hangar, "Hangar"), (System, "System"), (Powerplant, "Powerplant"),
    (Emplacement, "Emplacement"),
    (Containment, "Containment"), (Remass, "Remass"), (Bunker, "Bunker")]

  /** The hull types with a positive count, in the given order. */
  function PositiveTypes(h: Hulls, types: seq<(HullKind, string)>): (r: seq<(HullKind, string)>)
    ensures |r| <= |types|
  {
    if types == [] then []
    else (if h.Get(types[0].0) > 0 then [types[0]] else []) + PositiveTypes(h, types[1..])
  }

  /** `<count> <label>` for one hull type. */
  function HullPart(h: Hulls, t: (HullKind, string)): string
  {
    IntToString(h.Get(t.0)) + " " + t.1
  }

  function HullParts(h: Hulls, types: seq<(HullKind, string)>): seq<string>
  {
    if types == [] then []
    else (if h.Get(types[0].0) > 0 then [HullPart(h, types[0])] else []) + HullParts(h, types[1..])
  }

  /** formatHullSummary */
  function HullSummary(h: Hulls): string
  {
    var total := TotalHulls(h);
    if total == 0 then "None"
    else
      var parts := HullParts(h, HullTypes);
      if parts == [] then IntToString(total)
      else IntToString(total) + " (" + Listed(parts, 3) + ")"
  }

  /**
   * The hull types listed are exactly those with a positive count, in the
   * given order, and the parts are those types' `<count> <label>` texts.
   */
  lemma {:induction false} HullPartsSpec(h: Hulls, types: seq<(HullKind, string)>)
    ensures forall t :: t in PositiveTypes(h, types) <==> t in types && h.Get(t.0) > 0
    ensures var parts := HullParts(h, types);
      var pos := PositiveTypes(h, types);
      |parts| == |pos| && forall i :: 0 <= i < |pos| ==> parts[i] == HullPart(h, pos[i])
  {
    if types != [] {
      HullPartsSpec(h, types[1..]);
      var t := types[0];
      assert forall u :: u in types <==> u == t || u in types[1..];
      var pos := PositiveTypes(h, types);
      var parts := HullParts(h, types);
      var rest := PositiveTypes(h, types[1..]);
      if h.Get(t.0) > 0 {
        assert pos == [t] + rest;
        assert parts == [HullPart(h, t)] + HullParts(h, types[1..]);
        forall i | 0 <= i < |pos| ensures parts[i] == HullPart(h, pos[i]) {
          if i > 0 {
            assert parts[i] == HullParts(h, types[1..])[i - 1];
            assert pos[i] == rest[i - 1];
          }
        }
      } else {
        assert pos == rest;
        assert parts == HullParts(h, types[1..]);
      }
    }
  }

  /** Every hull kind appears once in the summary order. */
  lemma HullTypesCover(k: HullKind)
    ensures exists i :: 0 <= i < |HullTypes| && HullTypes[i].0 == k
  {
    match k
    case Magazine => assert HullTypes[0].0 == k;
    case Hangar => assert HullTypes[1].0 == k;
    case System => assert HullTypes[2].0 == k;
    case Powerplant => assert HullTypes[3].0 == k;
    case Emplacement => assert HullTypes[4].0 == k;
    case Containment => assert HullTypes[5].0 == k;
    case Remass => assert HullTypes[6].0 == k;
    case Bunker => assert HullTypes[7].0 == k;
  }

  /** With no negative count, a non-zero total has a kind with a positive count. */
  lemma PositiveKind(h: Hulls) returns (k: HullKind)
    requires NonNegative(h) && TotalHulls(h) != 0
    ensures h.Get(k) > 0
  {
    assert h.Get(Containment) >= 0 && h.Get(Remass) >= 0 && h.Get(Magazine) >= 0 && h.Get(Hangar) >= 0;
    assert h.Get(Bunker) >= 0 && h.Get(System) >= 0 && h.Get(Powerplant) >= 0 && h.Get(Emplacement) >= 0;
    k := if h.containment > 0 then Containment else if h.remass > 0 then Remass
      else if h.magazine > 0 then Magazine else if h.hangar > 0 then Hangar
      else if h.bunker > 0 then Bunker else if h.system > 0 then System
      else if h.powerplant > 0 then Powerplant else Emplacement;
  }

  /**
   * With no negative count, a non-zero total always has a kind with a
   * positive count, so the bare-total form is never used.
   */
  lemma HullSummaryListsParts(h: Hulls)
    requires NonNegative(h) && TotalHulls(h) != 0
    ensures HullParts(h, HullTypes) != []
  {
    var k := PositiveKind(h);
    HullTypesCover(k);
    var i :| 0 <= i < |HullTypes| && HullTypes[i].0 == k;
    HullPartsSpec(h, HullTypes);
    assert HullTypes[i] in PositiveTypes(h, HullTypes);
  }

  /** The parts formatHullSummary shows: the first three positive kinds in summary order. */
  lemma HullSummaryShown(h: Hulls)
    ensures var pos := PositiveTypes(h, HullTypes);
      var (shown, hidden) := Truncate(HullParts(h, HullTypes), 3);
      && |shown| == Min(3, |pos|) && |shown| + hidden == |pos|
      && (forall i :: 0 <= i < |shown| ==> shown[i] == HullPart(h, pos[i]))
  {
    HullPartsSpec(h, HullTypes);
  }

  /**
   * formatHullSummary: `None` for a zero total; with no negative count and
   * a non-zero total, the total followed, in brackets, by the shown parts
   * and the count of positive kinds left out.
   */
  lemma HullSummarySpec(h: Hulls)
    ensures TotalHulls(h) == 0 ==> HullSummary(h) == "None"
    ensures NonNegative(h) && TotalHulls(h) != 0 ==>
      var (shown, hidden) := Truncate(HullParts(h, HullTypes), 3);
      HullSummary(h) == IntToString(TotalHulls(h)) + " (" + JoinWith(shown, ", ") + More(hidden) + ")"
  {
    if NonNegative(h) && TotalHulls(h) != 0 {
      HullSummaryListsParts(h);
    }
  }

  // -------------------------------------------------------------- foundations

  /** The foundation keys in checkbox order. */
  const FoundationKeys: seq<string> := [
    "structural", "propulsion", "power", "heat", "lifeSupport",
    "navigation", "sensors", "weapons", "defense", "logistics"]

  /** A foundation is active when its flag is present and true. */
  predicate Active(foundations: map<string, bool>, key: string)
  {
    key in foundations && foundations[key]
  }

  /** The labels of the active foundations, in key order. */
  function ActiveLabels(foundations: map<string, bool>, keys: seq<string>): seq<string>
  {
    if keys == [] then []
    else (if Active(foundations, keys[0]) then [Label(keys[0])] else []) + ActiveLabels(foundations, keys[1..])
  }

  /** formatFoundations */
  function FoundationSummary(foundations: map<string, bool>): string
  {
    var active := ActiveLabels(foundations, FoundationKeys);
    if active == [] then "" else Listed(active, 4)
  }

  lemma SpacedNonEmpty(key: string)
    requires key != []
    ensures Spaced(key) != []
  {
  }

  lemma {:induction false} ActiveLabelsSpec(foundations: map<string, bool>, keys: seq<string>)
    ensures ActiveLabels(foundations, keys) == [] <==> forall k :: k in keys ==> !Active(foundations, k)
    ensures |ActiveLabels(foundations, keys)| <= |keys|
    ensures forall l :: l in ActiveLabels(foundations, keys) ==> exists k :: k in keys && Active(foundations, k) && l == Label(k)
  {
    if keys != [] {
      ActiveLabelsSpec(foundations, keys[1..]);
      assert forall k :: k in keys <==> k == keys[0] || k in keys[1..];
    }
  }

  lemma {:induction false} JoinWithNonEmpty(parts: seq<string>, sep: string)
    requires parts != [] && parts[0] != []
    ensures |JoinWith(parts, sep)| >= |parts[0]|
  {
  }

  /** Every foundation key is a non-empty word. */
  lemma FoundationKeysNonEmpty()
    ensures forall k :: k in FoundationKeys ==> k != []
  {
  }

  /** formatFoundations is empty exactly when no foundation is active. */
  lemma FoundationSummaryEmpty(foundations: map<string, bool>)
    ensures FoundationSummary(foundations) == "" <==> forall k :: k in FoundationKeys ==> !Active(foundations, k)
  {
    var active := ActiveLabels(foundations, FoundationKeys);
    ActiveLabelsSpec(foundations, FoundationKeys);
    if active != [] {
      var shown := Truncate(active, 4).0;
      assert shown[0] == active[0];
      assert active[0] in active;
      var k :| k in FoundationKeys && Active(foundations, k) && active[0] == Label(k);
      FoundationKeysNonEmpty();
      SpacedNonEmpty(k);
      JoinWithNonEmpty(shown, ", ");
    }
  }

  /**
   * formatFoundations lists at most four labels, each the title of an
   * active key, and counts the active ones left out.
   */
  lemma FoundationSummaryShown(foundations: map<string, bool>)
    ensures var active := ActiveLabels(foundations, FoundationKeys);
      var (shown, hidden) := Truncate(active, 4);
      && |shown| <= 4 && |shown| + hidden == |active| <= |FoundationKeys|
      && (forall l :: l in shown ==> exists k :: k in FoundationKeys && Active(foundations, k) && l == Label(k))
  {
    var active := ActiveLabels(foundations, FoundationKeys);
    ActiveLabelsSpec(foundations, FoundationKeys);
    var shown := Truncate(active, 4).0;
    assert forall l :: l in shown ==> l in active;
  }

  // --------------------------------------------------------------- hardpoints

  /** The hardpoint figures a summary reads; an absent figure is `None`. */
  datatype HardpointFigures = HardpointFigures(
    utility: Option<int>, totalValue: Option<int>, shp: Option<int>, php: Option<int>, mhp: Option<int>)

  /** The label of a heavy mount figure. */
  function MountName(m: HardpointField): string
  {
    if m == SHP then "SHP" else if m == PHP then "PHP" else "MHP"
  }

  /** The heavy mounts worth listing: present and non-zero, in SHP, PHP, MHP order. */
  function HighValues(f: HardpointFigures): seq<(HardpointField, int)>
  {
    (if f.shp.Some? && f.shp.value != 0 then [(SHP, f.shp.value)] else [])
    + (if f.php.Some? && f.php.value != 0 then [(PHP, f.php.value)] else [])
    + (if f.mhp.Some? && f.mhp.value != 0 then [(MHP, f.mhp.value)] else [])
  }

  function LabelledValues(values: seq<(HardpointField, int)>): (r: seq<string>)
    ensures |r| == |values|
  {
    seq(|values|, i requires 0 <= i < |values| => MountName(values[i].0) + " " + IntToString(values[i].1))
  }

  function HardpointParts(f: HardpointFigures): seq<string>
  {
    var high := HighValues(f);
    (if f.utility.Some? then ["U " + IntToString(f.utility.value)] else [])
    + (if f.totalValue.Some? then ["Total " + IntToString(f.totalValue.value)] else [])
    + (if high != [] then [JoinWith(LabelledValues(high), " ")] else [])
  }

  /** formatHardpoints */
  function HardpointSummary(f: HardpointFigures): string
  {
    var parts := HardpointParts(f);
    if parts != [] then JoinWith(parts, Dot) else Dash
  }

  /**
   * A heavy mount is listed exactly when its figure is present and
   * non-zero, with that figure, and the list keeps SHP, PHP, MHP order.
   */
  lemma HighValuesSpec(f: HardpointFigures)
    ensures forall v :: (SHP, v) in HighValues(f) <==> f.shp == Some(v) && v != 0
    ensures forall v :: (PHP, v) in HighValues(f) <==> f.php == Some(v) && v != 0
    ensures forall v :: (MHP, v) in HighValues(f) <==> f.mhp == Some(v) && v != 0
    ensures forall i, j :: 0 <= i < j < |HighValues(f)| ==> HighValues(f)[i].0 != HighValues(f)[j].0
  {
  }

  /**
   * formatHardpoints shows the placeholder exactly when no figure would be
   * listed: no utility, no total and no present non-zero heavy mount.
   */
  lemma HardpointSummarySpec(f: HardpointFigures)
    ensures HardpointSummary(f) == Dash <==>
      f.utility.None? && f.totalValue.None? && HighValues(f) == []
  {
    var parts := HardpointParts(f);
    if parts != [] {
      if f.utility.Some? || f.totalValue.Some? {
        JoinWithNonEmpty(parts, Dot);
        assert |parts[0]| >= 2;
      } else {
        var high := HighValues(f);
        assert parts == [JoinWith(LabelledValues(high), " ")];
        JoinWithNonEmpty(LabelledValues(high), " ");
        assert |LabelledValues(high)[0]| >= 2;
      }
    }
  }

  // --------------------------------------------------------------- propulsion

  /** The propulsion figures a summary reads; an absent figure is `None`. */
  datatype PowerFigures = PowerFigures(
    thrust: Option<int>, burnRating: Option<int>, heatEfficiency: Option<int>, supplyRating: Option<int>)

  function Labelled(name: string, value: Option<int>): seq<string>
  {
    if value.Some? then [name + " " + IntToString(value.value)] else []
  }

  function PropulsionParts(p: PowerFigures): seq<string>
  {
    Labelled("Thrust", p.thrust) + Labelled("Burn", p.burnRating)
    + Labelled("HeatEff", p.heatEfficiency) + Labelled("Supply", p.supplyRating)
  }

  /** formatPropulsion */
  function PropulsionSummary(p: PowerFigures): string
  {
    var parts := PropulsionParts(p);
    if parts != [] then JoinWith(parts, Dot) else Dash
  }

  function Present(value: Option<int>): nat
  {
    if value.Some? then 1 else 0
  }

  /**
   * formatPropulsion lists one part per present figure, in thrust, burn,
   * heat-efficiency, supply order, and shows the placeholder exactly when
   * no figure is present.
   */
  lemma PropulsionSummarySpec(p: PowerFigures)
    ensures |PropulsionParts(p)| == Present(p.thrust) + Present(p.burnRating) + Present(p.heatEfficiency) + Present(p.supplyRating)
    ensures PropulsionSummary(p) == Dash <==>
      p.thrust.None? && p.burnRating.None? && p.heatEfficiency.None? && p.supplyRating.None?
  {
    var parts := PropulsionParts(p);
    if parts != [] {
      JoinWithNonEmpty(parts, Dot);
      assert |parts[0]| >= 2;
    }
  }

  // ------------------------------------------------------------ single values

  /** A value that may be absent, a string, or a number. */
  datatype Value = Missing | Text(text: string) | Number(number: int)

  function Show(v: Value): string
  {
    match v
    case Missing => ""
    case Text(t) => t
    case Number(n) => IntToString(n)
  }

  /** formatOptionalNumber */
  function OptionalNumber(v: Value, suffix: string): string
  {
    if v == Missing || v == Text("") then Dash else Show(v) + suffix
  }

  /**
   * formatOptionalNumber shows the placeholder for a missing value or an
   * empty string; otherwise the value's text followed by the suffix, so
   * that cutting the suffix off gives back the value's text.
   */
  lemma OptionalNumberSpec(v: Value, suffix: string)
    ensures v == Missing || v == Text("") ==> OptionalNumber(v, suffix) == Dash
    ensures v != Missing && v != Text("") ==>
      var r := OptionalNumber(v, suffix);
      |r| >= |suffix| + 1 && r[|r| - |suffix|..] == suffix && r[..|r| - |suffix|] == Show(v)
  {
    if v != Missing && v != Text("") {
      var r := OptionalNumber(v, suffix);
      assert r == Show(v) + suffix;
    }
  }
}
