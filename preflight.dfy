// The preflight check: a run clears every issue list, checks each widget,
// and records each issue twice, once in the global list of its kind and
// once in the bucket of the widget it came from. The widget badges and the
// summary are counts over those lists.

module Preflight {
  import opened Wrappers
  import opened Text
  import Ship
  import NodeGraph

  // ---------------------------------------------------------------- issues

  datatype Kind = Alert | Warning | Error | Tech

  /** An entry of a global list: `{ message, sourceId, type }`, with `tech` for a tech requirement ("" otherwise). */
  datatype Issue = Issue(kind: Kind, message: string, tech: string, sourceId: string)

  /** An entry of a widget's bucket: the same without the source id. */
  datatype Entry = Entry(kind: Kind, message: string, tech: string)

  /** A widget's issues, one list per kind. */
  datatype Bucket = Bucket(alerts: seq<Entry>, warnings: seq<Entry>, errors: seq<Entry>, techRequirements: seq<Entry>)

  const EmptyBucket := Bucket([], [], [], [])

  /** Everything a run accumulates, and the widgets it checked. */
  datatype Report = Report(
    alerts: seq<Issue>, warnings: seq<Issue>, errors: seq<Issue>, techRequirements: seq<Issue>,
    widgetIssues: map<string, Bucket>, checked: set<string>)

  const EmptyReport := Report([], [], [], [], map[], {})

  function ListOf(r: Report, k: Kind): seq<Issue>
  {
    match k
    case Alert => r.alerts
    case Warning => r.warnings
    case Error => r.errors
    case Tech => r.techRequirements
  }

  function WithList(r: Report, k: Kind, l: seq<Issue>): Report
  {
    match k
    case Alert => r.(alerts := l)
    case Warning => r.(warnings := l)
    case Error => r.(errors := l)
    case Tech => r.(techRequirements := l)
  }

  function BucketList(b: Bucket, k: Kind): seq<Entry>
  {
    match k
    case Alert => b.alerts
    case Warning => b.warnings
    case Error => b.errors
    case Tech => b.techRequirements
  }

  function WithBucketList(b: Bucket, k: Kind, l: seq<Entry>): Bucket
  {
    match k
    case Alert => b.(alerts := l)
    case Warning => b.(warnings := l)
    case Error => b.(errors := l)
    case Tech => b.(techRequirements := l)
  }

  function EntryOf(i: Issue): Entry
  {
    Entry(i.kind, i.message, i.tech)
  }

  /** Source ids that get a bucket: not absent (""), not "empire", not a connection id. */
  predicate Tracked(sourceId: string)
  {
    sourceId != "" && sourceId != "empire" && !IsPrefix("connection-", sourceId)
  }

  /** addToWidgetIssues: the bucket is created on first use; untracked ids are ignored. */
  function WithIssue(wi: map<string, Bucket>, sourceId: string, k: Kind, e: Entry): map<string, Bucket>
  {
    if !Tracked(sourceId) then wi
    else
      var b := if sourceId in wi then wi[sourceId] else EmptyBucket;
      wi[sourceId := WithBucketList(b, k, BucketList(b, k) + [e])]
  }

  /** addAlert, addWarning, addError and addTechRequirement. */
  function Add(r: Report, e: Entry, sourceId: string): Report
  {
    var withIssue := WithList(r, e.kind, ListOf(r, e.kind) + [Issue(e.kind, e.message, e.tech, sourceId)]);
    withIssue.(widgetIssues := WithIssue(r.widgetIssues, sourceId, e.kind, e))
  }

  /** The issues a check reports for one widget, added in order. */
  function AddAll(r: Report, es: seq<Entry>, sourceId: string): Report
  {
    if es == [] then r else Add(AddAll(r, es[..|es| - 1], sourceId), es[|es| - 1], sourceId)
  }

  /** The entries of a list that came from one source, in order. */
  function FromSource(l: seq<Issue>, sourceId: string): seq<Entry>
  {
    if l == [] then []
    else FromSource(l[..|l| - 1], sourceId) + (if l[|l| - 1].sourceId == sourceId then [EntryOf(l[|l| - 1])] else [])
  }

  /** The entries of one kind, stamped with their source. */
  function Stamped(es: seq<Entry>, k: Kind, sourceId: string): seq<Issue>
  {
    if es == [] then []
    else
      var e := es[|es| - 1];
      Stamped(es[..|es| - 1], k, sourceId) + (if e.kind == k then [Issue(k, e.message, e.tech, sourceId)] else [])
  }

  /** Whether some list holds an issue from this source. */
  predicate Mentioned(r: Report, sourceId: string)
  {
    FromSource(ListOf(r, Alert), sourceId) != [] || FromSource(ListOf(r, Warning), sourceId) != []
    || FromSource(ListOf(r, Error), sourceId) != [] || FromSource(ListOf(r, Tech), sourceId) != []
  }

  /** Every global list holds only issues of its own kind. */
  ghost predicate KindsMatch(r: Report)
  {
    forall k, i :: 0 <= i < |ListOf(r, k)| ==> ListOf(r, k)[i].kind == k
  }

  /** A bucket exists only for a tracked source with issues. */
  ghost predicate BucketsMentioned(r: Report)
  {
    forall id :: id in r.widgetIssues ==> Tracked(id) && Mentioned(r, id)
  }

  /** Every tracked source with issues has a bucket. */
  ghost predicate MentionedHaveBuckets(r: Report)
  {
    forall id :: Tracked(id) && Mentioned(r, id) ==> id in r.widgetIssues
  }

  /** Each bucket list holds exactly its source's entries of the global list of the same kind, in order. */
  ghost predicate BucketsMatch(r: Report)
  {
    forall id, k :: id in r.widgetIssues ==> BucketList(r.widgetIssues[id], k) == FromSource(ListOf(r, k), id)
  }

  /** The buckets mirror the global lists. */
  ghost predicate Mirrors(r: Report)
  {
    BucketsMentioned(r) && MentionedHaveBuckets(r) && BucketsMatch(r)
  }

  lemma FromSourceAppend(l: seq<Issue>, x: Issue, sourceId: string)
    ensures FromSource(l + [x], sourceId) == FromSource(l, sourceId) + (if x.sourceId == sourceId then [EntryOf(x)] else [])
  {
    assert (l + [x])[..|l|] == l;
  }

  lemma ListOfWith(r: Report, k: Kind, l: seq<Issue>)
    ensures forall k2 :: ListOf(WithList(r, k, l), k2) == if k2 == k then l else ListOf(r, k2)
    ensures WithList(r, k, l).widgetIssues == r.widgetIssues && WithList(r, k, l).checked == r.checked
  {
  }

  lemma BucketListWith(b: Bucket, k: Kind, l: seq<Entry>)
    ensures forall k2 :: BucketList(WithBucketList(b, k, l), k2) == if k2 == k then l else BucketList(b, k2)
  {
  }

  lemma AddFromSourceAt(r: Report, e: Entry, sourceId: string, id: string, k: Kind)
    ensures FromSource(ListOf(Add(r, e, sourceId), k), id) ==
      FromSource(ListOf(r, k), id) + (if k == e.kind && id == sourceId then [e] else [])
  {
    var x := Issue(e.kind, e.message, e.tech, sourceId);
    ListOfWith(r, e.kind, ListOf(r, e.kind) + [x]);
    if k == e.kind {
      FromSourceAppend(ListOf(r, k), x, id);
    }
  }

  /** Adding an issue changes each list's entries for each source by at most that one entry. */
  lemma AddFromSource(r: Report, e: Entry, sourceId: string)
    ensures forall id, k ::
      FromSource(ListOf(Add(r, e, sourceId), k), id) ==
        FromSource(ListOf(r, k), id) + (if k == e.kind && id == sourceId then [e] else [])
  {
    forall id, k
      ensures FromSource(ListOf(Add(r, e, sourceId), k), id) ==
        FromSource(ListOf(r, k), id) + (if k == e.kind && id == sourceId then [e] else [])
    {
      AddFromSourceAt(r, e, sourceId, id, k);
    }
  }

  lemma AddKeys(r: Report, e: Entry, sourceId: string)
    requires BucketsMentioned(r)
    ensures BucketsMentioned(Add(r, e, sourceId))
  {
    var r' := Add(r, e, sourceId);
    AddFromSource(r, e, sourceId);
    forall id | id in r'.widgetIssues ensures Tracked(id) && Mentioned(r', id) {
      if id == sourceId {
        assert FromSource(ListOf(r', e.kind), id) != [];
      } else {
        assert Mentioned(r, id);
      }
    }
  }

  lemma AddHaveBuckets(r: Report, e: Entry, sourceId: string)
    requires MentionedHaveBuckets(r)
    ensures MentionedHaveBuckets(Add(r, e, sourceId))
  {
    var r' := Add(r, e, sourceId);
    AddFromSource(r, e, sourceId);
    forall id | Tracked(id) && Mentioned(r', id) ensures id in r'.widgetIssues {
      if id != sourceId {
        assert Mentioned(r, id);
      }
    }
  }

  lemma AddMatchAt(r: Report, e: Entry, sourceId: string, id: string, k: Kind)
    requires id in r.widgetIssues ==> BucketList(r.widgetIssues[id], k) == FromSource(ListOf(r, k), id)
    requires Tracked(sourceId) && sourceId !in r.widgetIssues ==> !Mentioned(r, sourceId)
    requires id in r.widgetIssues ==> Tracked(id)
    requires id in Add(r, e, sourceId).widgetIssues
    ensures BucketList(Add(r, e, sourceId).widgetIssues[id], k) == FromSource(ListOf(Add(r, e, sourceId), k), id)
  {
    var wi := WithIssue(r.widgetIssues, sourceId, e.kind, e);
    assert Add(r, e, sourceId).widgetIssues == wi;
    AddFromSourceAt(r, e, sourceId, id, k);
    if id != sourceId || !Tracked(sourceId) {
      assert wi[id] == r.widgetIssues[id];
    } else {
      var b := if sourceId in r.widgetIssues then r.widgetIssues[sourceId] else EmptyBucket;
      assert wi[id] == WithBucketList(b, e.kind, BucketList(b, e.kind) + [e]);
      BucketListWith(b, e.kind, BucketList(b, e.kind) + [e]);
      if sourceId !in r.widgetIssues {
        assert !Mentioned(r, sourceId);
        assert FromSource(ListOf(r, k), sourceId) == [] by {
          match k
          case Alert =>
          case Warning =>
          case Error =>
          case Tech =>
        }
      }
    }
  }

  lemma AddMatch(r: Report, e: Entry, sourceId: string)
    requires BucketsMentioned(r) && MentionedHaveBuckets(r) && BucketsMatch(r)
    ensures BucketsMatch(Add(r, e, sourceId))
  {
    var r' := Add(r, e, sourceId);
    forall id, k | id in r'.widgetIssues ensures BucketList(r'.widgetIssues[id], k) == FromSource(ListOf(r', k), id) {
      AddMatchAt(r, e, sourceId, id, k);
    }
  }

  /** Adding an issue keeps the buckets mirroring the lists. */
  lemma AddMirrors(r: Report, e: Entry, sourceId: string)
    requires Mirrors(r)
    ensures Mirrors(Add(r, e, sourceId))
  {
    AddKeys(r, e, sourceId);
    AddHaveBuckets(r, e, sourceId);
    AddMatch(r, e, sourceId);
  }

  /**
   * Adding an issue appends exactly one entry to the list of its kind,
   * leaves the other lists and the checked set alone, touches only the
   * bucket of its source (and that only when the source is tracked), and
   * keeps the buckets mirroring the lists.
   */
  lemma AddSpec(r: Report, e: Entry, sourceId: string)
    ensures var r' := Add(r, e, sourceId);
      && ListOf(r', e.kind) == ListOf(r, e.kind) + [Issue(e.kind, e.message, e.tech, sourceId)]
      && (forall k :: k != e.kind ==> ListOf(r', k) == ListOf(r, k))
      && r'.checked == r.checked
      && (!Tracked(sourceId) ==> r'.widgetIssues == r.widgetIssues)
      && (forall id :: id != sourceId ==> (id in r'.widgetIssues <==> id in r.widgetIssues))
      && (forall id :: id != sourceId && id in r.widgetIssues ==> r'.widgetIssues[id] == r.widgetIssues[id])
      && (KindsMatch(r) ==> KindsMatch(r'))
      && (Mirrors(r) ==> Mirrors(r'))
  {
    ListOfWith(r, e.kind, ListOf(r, e.kind) + [Issue(e.kind, e.message, e.tech, sourceId)]);
    if Mirrors(r) {
      AddMirrors(r, e, sourceId);
    }
  }

  /**
   * Adding a check's entries appends, to each global list, exactly the
   * entries of that kind stamped with the source, and keeps the kinds and
   * the mirroring.
   */
  lemma {:induction false} AddAllSpec(r: Report, es: seq<Entry>, sourceId: string)
    ensures forall k :: ListOf(AddAll(r, es, sourceId), k) == ListOf(r, k) + Stamped(es, k, sourceId)
    ensures AddAll(r, es, sourceId).checked == r.checked
    ensures KindsMatch(r) ==> KindsMatch(AddAll(r, es, sourceId))
    ensures Mirrors(r) ==> Mirrors(AddAll(r, es, sourceId))
  {
    if es != [] {
      var init := es[..|es| - 1];
      AddAllSpec(r, init, sourceId);
      AddSpec(AddAll(r, init, sourceId), es[|es| - 1], sourceId);
    }
  }

  lemma AddAllAppend(r: Report, es: seq<Entry>, e: Entry, sourceId: string)
    ensures AddAll(r, es + [e], sourceId) == Add(AddAll(r, es, sourceId), e, sourceId)
  {
    assert (es + [e])[..|es|] == es;
  }

  lemma {:induction false} AddAllConcat(r: Report, a: seq<Entry>, b: seq<Entry>, sourceId: string)
    ensures AddAll(r, a + b, sourceId) == AddAll(AddAll(r, a, sourceId), b, sourceId)
  {
    if b != [] {
      var init := b[..|b| - 1];
      var last := b[|b| - 1];
      AddAllConcat(r, a, init, sourceId);
      assert (a + b)[..|a + b| - 1] == a + init;
      assert (a + b)[|a + b| - 1] == last;
      calc {
        AddAll(r, a + b, sourceId);
        Add(AddAll(r, a + init, sourceId), last, sourceId);
        Add(AddAll(AddAll(r, a, sourceId), init, sourceId), last, sourceId);
        AddAll(AddAll(r, a, sourceId), b, sourceId);
      }
    } else {
      assert a + b == a;
    }
  }

  // --------------------------------------------------- badges and summary

  /**
   * updateWidgetIndicators, for one widget: (warnings, errors plus tech
   * requirements, alerts) from its bucket, all zero without one.
   */
  function Badges(r: Report, widgetId: string): (nat, nat, nat)
  {
    if widgetId in r.widgetIssues then
      var b := r.widgetIssues[widgetId];
      (|b.warnings|, |b.errors| + |b.techRequirements|, |b.alerts|)
    else (0, 0, 0)
  }

  /**
   * While the buckets mirror the lists, a widget's badges count exactly
   * its own issues in the global lists, and an untracked id never shows
   * any.
   */
  lemma BadgesSpec(r: Report, widgetId: string)
    requires Mirrors(r)
    ensures Tracked(widgetId) ==>
      Badges(r, widgetId) ==
        (|FromSource(r.warnings, widgetId)|,
         |FromSource(r.errors, widgetId)| + |FromSource(r.techRequirements, widgetId)|,
         |FromSource(r.alerts, widgetId)|)
    ensures !Tracked(widgetId) ==> Badges(r, widgetId) == (0, 0, 0)
  {
    if widgetId in r.widgetIssues {
      assert BucketList(r.widgetIssues[widgetId], Warning) == FromSource(ListOf(r, Warning), widgetId);
      assert BucketList(r.widgetIssues[widgetId], Error) == FromSource(ListOf(r, Error), widgetId);
      assert BucketList(r.widgetIssues[widgetId], Tech) == FromSource(ListOf(r, Tech), widgetId);
      assert BucketList(r.widgetIssues[widgetId], Alert) == FromSource(ListOf(r, Alert), widgetId);
    }
  }

  lemma {:induction false} FromSourceEmpty(l: seq<Issue>, sourceId: string)
    ensures l == [] ==> FromSource(l, sourceId) == []
    ensures |FromSource(l, sourceId)| <= |l|
  {
    if l != [] {
      FromSourceEmpty(l[..|l| - 1], sourceId);
    }
  }

  datatype Summary = Summary(alertCount: nat, errorCount: nat, warningCount: nat, techRequirementCount: nat, hasIssues: bool)

  function SummaryOf(r: Report): Summary
  {
    Summary(|r.alerts|, |r.errors|, |r.warnings|, |r.techRequirements|, |r.errors| > 0 || |r.techRequirements| > 0)
  }

  /**
   * The summary reports issues exactly when some error or tech requirement
   * was recorded; while the buckets mirror the lists, a summary without
   * issues means no widget shows an error badge, and one with issues
   * means some source shows one (or the issue came from an untracked source).
   */
  lemma SummarySpec(r: Report)
    requires Mirrors(r)
    ensures !SummaryOf(r).hasIssues ==> forall id :: Badges(r, id).1 == 0
    ensures SummaryOf(r).errorCount + SummaryOf(r).techRequirementCount ==
      |r.errors| + |r.techRequirements|
    ensures SummaryOf(r).hasIssues && r.errors != [] && Tracked(r.errors[0].sourceId) ==> Badges(r, r.errors[0].sourceId).1 > 0
  {
    forall id ensures !SummaryOf(r).hasIssues ==> Badges(r, id).1 == 0 {
      BadgesSpec(r, id);
      FromSourceEmpty(r.errors, id);
      FromSourceEmpty(r.techRequirements, id);
    }
    if r.errors != [] && Tracked(r.errors[0].sourceId) {
      var id := r.errors[0].sourceId;
      BadgesSpec(r, id);
      FromSourceHead(r.errors);
    }
  }

  /** The first issue of a list is among its source's entries. */
  lemma {:induction false} FromSourceHead(l: seq<Issue>)
    requires l != []
    ensures FromSource(l, l[0].sourceId) != []
  {
    if |l| > 1 {
      FromSourceHead(l[..|l| - 1]);
    }
  }

  // ------------------------------------------------------- node counting

  /** A widget's node as the checks see it; `connections` is None when the node has no set. */
  datatype NodeView = NodeView(nodeType: string, direction: NodeGraph.Direction, connections: Option<set<string>>)

  function ConnectionCount(n: NodeView): nat
  {
    if n.connections.Some? then |n.connections.value| else 0
  }

  function Links(nodes: seq<NodeView>, nodeType: string, direction: NodeGraph.Direction): nat
  {
    if nodes == [] then 0
    else
      var n := nodes[|nodes| - 1];
      Links(nodes[..|nodes| - 1], nodeType, direction)
        + (if n.nodeType == nodeType && n.direction == direction then ConnectionCount(n) else 0)
  }

  /** countNodeConnections: 0 for a widget without nodes. */
  function CountLinks(nodes: Option<seq<NodeView>>, nodeType: string, direction: NodeGraph.Direction): nat
  {
    if nodes.None? then 0 else Links(nodes.value, nodeType, direction)
  }

  /** The count is zero exactly when no matching node has a connection. */
  lemma {:induction false} LinksZero(nodes: seq<NodeView>, nodeType: string, direction: NodeGraph.Direction)
    ensures Links(nodes, nodeType, direction) == 0 <==>
      forall i :: 0 <= i < |nodes| && nodes[i].nodeType == nodeType && nodes[i].direction == direction ==>
        ConnectionCount(nodes[i]) == 0
  {
    if nodes != [] {
      var init := nodes[..|nodes| - 1];
      LinksZero(init, nodeType, direction);
      assert forall i :: 0 <= i < |init| ==> init[i] == nodes[i];
    }
  }

  // ------------------------------------------------------------- widgets

  /** The ship data a hull-based check reads. Foundations are in key order. */
  datatype ShipView = ShipView(title: string, hulls: Ship.Hulls, foundations: seq<(string, bool)>, ignoreTech: bool)

  /**
   * The widget kinds whose checks are modelled; `parent` is the first
   * ship-typed parent (getShipParent) and `items` the loadout item types.
   */
  datatype WidgetKind =
    | ShipWidget(ship: ShipView, parent: Option<ShipView>)
    | OutfitWidget
    | LoadoutsWidget(items: Option<seq<string>>)
    | ShipCoreWidget
    | OtherWidget(widgetType: string)

  datatype WidgetView = WidgetView(id: string, title: string, nodes: Option<seq<NodeView>>, kind: WidgetKind)

  /** The issues the modelled checks can raise, with the data their messages carry. */
  datatype Code =
    | ShipNoOutfit
    | ShipNoLoadout
    | ShipHullTotal(parentTitle: string, parentTotal: int, total: int)
    | ShipFoundations(parentTitle: string, labels: seq<string>)
    | ShipFoundationTech(tech: string)
    | OutfitNoClass
    | OutfitNoCore
    | OutfitNoHullPlan
    | LoadoutEmpty
    | LoadoutNoAmmunition
    | LoadoutNoClass
    | LoadoutNoCraft
    | LoadoutNoWeapon
    | LoadoutNoHullPlan

  function KindOf(c: Code): Kind
  {
    match c
    case ShipNoOutfit | ShipNoLoadout | LoadoutEmpty | LoadoutNoAmmunition => Warning
    case ShipHullTotal(_, _, _) | ShipFoundations(_, _) | OutfitNoClass | OutfitNoCore => Error
    case ShipFoundationTech(_) => Tech
    case OutfitNoHullPlan | LoadoutNoClass | LoadoutNoCraft | LoadoutNoWeapon | LoadoutNoHullPlan => Alert
  }

  function Quoted(noun: string, title: string): string
  {
    noun + " \"" + title + "\" "
  }

  /** The message each check writes for a widget with this title. */
  function MessageOf(c: Code, title: string): string
  {
    match c
    case ShipNoOutfit => Quoted("Ship", title) + "requires an Outfit connection"
    case ShipNoLoadout => Quoted("Ship", title) + "has magazine or hangar hulls without a Loadout connection"
    case ShipHullTotal(p, pt, t) =>
      Quoted("Ship", title) + "inherits from \"" + p + "\" and must keep " + IntToString(pt)
        + " hulls (currently " + IntToString(t) + ")."
    case ShipFoundations(p, labels) =>
      Quoted("Ship", title) + "foundations must match parent \"" + p + "\" (" + JoinWith(labels, ", ") + ")."
    case ShipFoundationTech(tech) => Quoted("Ship", title) + "foundation \"" + tech + "\" requires technology"
    case OutfitNoClass => Quoted("Outfit", title) + "must connect to a Ship Class"
    case OutfitNoCore => Quoted("Outfit", title) + "requires at least one Ship Core"
    case OutfitNoHullPlan => Quoted("Outfit", title) + "is not assigned to any Hull plan"
    case LoadoutEmpty => Quoted("Loadout", title) + "is empty"
    case LoadoutNoAmmunition => Quoted("Loadout", title) + "has weapons but no ammunition"
    case LoadoutNoClass => Quoted("Loadout", title) + "is not linked to a ship class"
    case LoadoutNoCraft => Quoted("Loadout", title) + "has unused hangar bays"
    case LoadoutNoWeapon => Quoted("Loadout", title) + "has unused magazines"
    case LoadoutNoHullPlan => Quoted("Loadout", title) + "is not assigned to a hull plan"
  }

  /** The entry a code becomes; only a tech requirement names its technology. */
  function Render(c: Code, title: string): Entry
  {
    Entry(KindOf(c), MessageOf(c, title), if c.ShipFoundationTech? then c.tech else "")
  }

  function RenderAll(cs: seq<Code>, title: string): (r: seq<Entry>)
    ensures |r| == |cs| && forall i :: 0 <= i < |cs| ==> r[i] == Render(cs[i], title)
  {
    seq(|cs|, i requires 0 <= i < |cs| => Render(cs[i], title))
  }

  lemma RenderAllAppend(cs: seq<Code>, c: Code, title: string)
    ensures RenderAll(cs + [c], title) == RenderAll(cs, title) + [Render(c, title)]
  {
  }

  /** A value looked up by key in an ordered key/flag list; a missing key reads false. */
  function Flag(entries: seq<(string, bool)>, key: string): bool
  {
    if entries == [] then false
    else if entries[0].0 == key then entries[0].1
    else Flag(entries[1..], key)
  }

  /** The parent's foundation keys whose truthiness differs in the child, in the parent's order. */
  function MismatchedKeys(parent: seq<(string, bool)>, child: seq<(string, bool)>): seq<string>
  {
    if parent == [] then []
    else
      var e := parent[|parent| - 1];
      MismatchedKeys(parent[..|parent| - 1], child) + (if e.1 != Flag(child, e.0) then [e.0] else [])
  }

  function Labels(keys: seq<string>): (r: seq<string>)
    ensures |r| == |keys| && forall i :: 0 <= i < |keys| ==> r[i] == Label(keys[i])
  {
    seq(|keys|, i requires 0 <= i < |keys| => Label(keys[i]))
  }

  /** The tech requirements of a ship's enabled but unresearched foundations, in key order. */
  function FoundationTech(foundations: seq<(string, bool)>, researched: set<string>): seq<Code>
  {
    if foundations == [] then []
    else
      var e := foundations[|foundations| - 1];
      FoundationTech(foundations[..|foundations| - 1], researched)
        + (if e.1 && e.0 !in researched then [ShipFoundationTech(e.0)] else [])
  }

  /** The code a check raises when its condition holds, or nothing. */
  function When(cond: bool, c: Code): (r: seq<Code>)
    ensures forall x :: x in r <==> cond && x == c
  {
    if cond then [c] else []
  }

  /** The parent half of checkHullBasedShip: hull total, then foundations. */
  function ParentCodes(ship: ShipView, parent: ShipView): seq<Code>
  {
    var total := Ship.TotalHulls(ship.hulls);
    var parentTotal := Ship.TotalHulls(parent.hulls);
    var mismatched := MismatchedKeys(parent.foundations, ship.foundations);
    When(total != parentTotal, ShipHullTotal(parent.title, parentTotal, total))
      + When(mismatched != [], ShipFoundations(parent.title, Labels(mismatched)))
  }

  /** The connection warnings of checkHullBasedShip. */
  function ShipLinkCodes(nodes: Option<seq<NodeView>>, ship: ShipView): seq<Code>
  {
    When(CountLinks(nodes, "Class", NodeGraph.Output) == 0, ShipNoOutfit)
      + When(ship.hulls.magazine + ship.hulls.hangar > 0 && CountLinks(nodes, "loadout", NodeGraph.Output) == 0,
             ShipNoLoadout)
  }

  /** checkHullBasedShip. */
  function ShipCodes(nodes: Option<seq<NodeView>>, ship: ShipView, parent: Option<ShipView>, researched: set<string>): seq<Code>
  {
    ShipLinkCodes(nodes, ship)
      + (if parent.Some? then ParentCodes(ship, parent.value) else [])
      + (if !ship.ignoreTech then FoundationTech(ship.foundations, researched) else [])
  }

  /** checkOutfitWidget. */
  function OutfitCodes(nodes: Option<seq<NodeView>>): seq<Code>
  {
    When(CountLinks(nodes, "Class", NodeGraph.Input) == 0, OutfitNoClass)
      + When(CountLinks(nodes, "Core", NodeGraph.Input) == 0, OutfitNoCore)
      + When(CountLinks(nodes, "outfit-hull", NodeGraph.Output) == 0, OutfitNoHullPlan)
  }

  function CountType(items: seq<string>, t: string): nat
  {
    if items == [] then 0 else CountType(items[..|items| - 1], t) + (if items[|items| - 1] == t then 1 else 0)
  }

  /** The item checks of checkLoadoutsWidget. */
  function LoadoutItemCodes(items: Option<seq<string>>): seq<Code>
  {
    When(items.None? || items.value == [], LoadoutEmpty)
      + When(items.Some? && CountType(items.value, "weapon") > 0 && CountType(items.value, "ammunition") == 0,
             LoadoutNoAmmunition)
  }

  /** The connection checks of checkLoadoutsWidget. */
  function LoadoutLinkCodes(nodes: Option<seq<NodeView>>): seq<Code>
  {
    When(CountLinks(nodes, "loadout", NodeGraph.Input) == 0, LoadoutNoClass)
      + When(CountLinks(nodes, "craft", NodeGraph.Input) == 0, LoadoutNoCraft)
      + When(CountLinks(nodes, "weapon", NodeGraph.Input) == 0, LoadoutNoWeapon)
      + When(CountLinks(nodes, "loadout-hull", NodeGraph.Output) == 0, LoadoutNoHullPlan)
  }

  /** checkLoadoutsWidget. */
  function LoadoutCodes(nodes: Option<seq<NodeView>>, items: Option<seq<string>>): seq<Code>
  {
    LoadoutItemCodes(items) + LoadoutLinkCodes(nodes)
  }

  /** checkWidget, for the modelled widget kinds; a ship core never reports anything. */
  function WidgetCodes(w: WidgetView, researched: set<string>): seq<Code>
  {
    match w.kind
    case ShipWidget(ship, parent) => ShipCodes(w.nodes, ship, parent, researched)
    case OutfitWidget => OutfitCodes(w.nodes)
    case LoadoutsWidget(items) => LoadoutCodes(w.nodes, items)
    case ShipCoreWidget => []
    case OtherWidget(_) => []
  }

  function Ids(widgets: seq<WidgetView>): set<string>
  {
    if widgets == [] then {} else Ids(widgets[..|widgets| - 1]) + {widgets[|widgets| - 1].id}
  }

  /** runCheck: a fresh report, then each widget marked checked and checked in order. */
  function RunReport(widgets: seq<WidgetView>, researched: set<string>): Report
  {
    if widgets == [] then EmptyReport
    else
      var w := widgets[|widgets| - 1];
      var before := RunReport(widgets[..|widgets| - 1], researched);
      AddAll(before.(checked := before.checked + {w.id}), RenderAll(WidgetCodes(w, researched), w.title), w.id)
  }

  // ------------------------------------------------------ check properties

  function B(c: bool): nat { if c then 1 else 0 }

  /**
   * An outfit gets the Class error exactly when it has no Class input
   * connection, the Core error exactly when it has no Core input, and the
   * hull-plan alert exactly when it has no outfit-hull output; nothing else.
   */
  lemma OutfitCodesSpec(nodes: Option<seq<NodeView>>)
    ensures var cs := OutfitCodes(nodes);
      && (OutfitNoClass in cs <==> CountLinks(nodes, "Class", NodeGraph.Input) == 0)
      && (OutfitNoCore in cs <==> CountLinks(nodes, "Core", NodeGraph.Input) == 0)
      && (OutfitNoHullPlan in cs <==> CountLinks(nodes, "outfit-hull", NodeGraph.Output) == 0)
      && |cs| == B(CountLinks(nodes, "Class", NodeGraph.Input) == 0) + B(CountLinks(nodes, "Core", NodeGraph.Input) == 0)
                 + B(CountLinks(nodes, "outfit-hull", NodeGraph.Output) == 0)
  {
  }

  /**
   * A loadout warns that it is empty exactly when it has no item list or
   * an empty one, warns about ammunition exactly when it has a weapon item
   * but no ammunition item, and raises each of its four alerts exactly
   * when the corresponding connection is missing; it raises no error.
   */
  lemma LoadoutCodesSpec(nodes: Option<seq<NodeView>>, items: Option<seq<string>>)
    ensures var cs := LoadoutCodes(nodes, items);
      && (LoadoutEmpty in cs <==> items.None? || items.value == [])
      && (LoadoutNoAmmunition in cs <==>
            items.Some? && CountType(items.value, "weapon") > 0 && CountType(items.value, "ammunition") == 0)
      && (LoadoutNoClass in cs <==> CountLinks(nodes, "loadout", NodeGraph.Input) == 0)
      && (LoadoutNoCraft in cs <==> CountLinks(nodes, "craft", NodeGraph.Input) == 0)
      && (LoadoutNoWeapon in cs <==> CountLinks(nodes, "weapon", NodeGraph.Input) == 0)
      && (LoadoutNoHullPlan in cs <==> CountLinks(nodes, "loadout-hull", NodeGraph.Output) == 0)
      && (forall c :: c in cs ==> KindOf(c) == Warning || KindOf(c) == Alert)
  {
    LoadoutItemCodesSpec(items);
    LoadoutLinkCodesSpec(nodes);
  }

  lemma LoadoutItemCodesSpec(items: Option<seq<string>>)
    ensures var cs := LoadoutItemCodes(items);
      && (LoadoutEmpty in cs <==> items.None? || items.value == [])
      && (LoadoutNoAmmunition in cs <==>
            items.Some? && CountType(items.value, "weapon") > 0 && CountType(items.value, "ammunition") == 0)
      && (forall c :: c in cs ==> c == LoadoutEmpty || c == LoadoutNoAmmunition)
  {
  }

  lemma LoadoutLinkCodesSpec(nodes: Option<seq<NodeView>>)
    ensures var cs := LoadoutLinkCodes(nodes);
      && (LoadoutNoClass in cs <==> CountLinks(nodes, "loadout", NodeGraph.Input) == 0)
      && (LoadoutNoCraft in cs <==> CountLinks(nodes, "craft", NodeGraph.Input) == 0)
      && (LoadoutNoWeapon in cs <==> CountLinks(nodes, "weapon", NodeGraph.Input) == 0)
      && (LoadoutNoHullPlan in cs <==> CountLinks(nodes, "loadout-hull", NodeGraph.Output) == 0)
      && (forall c :: c in cs ==> KindOf(c) == Alert)
  {
  }

  /** An empty loadout cannot also lack ammunition: it has no weapon items. */
  lemma LoadoutEmptyNoAmmunition(nodes: Option<seq<NodeView>>, items: Option<seq<string>>)
    ensures var cs := LoadoutCodes(nodes, items);
      !(LoadoutEmpty in cs && LoadoutNoAmmunition in cs)
  {
  }

  /** A key is mismatched exactly when some parent entry with that key differs in truthiness from the child. */
  lemma {:induction false} MismatchedKeysSpec(parent: seq<(string, bool)>, child: seq<(string, bool)>)
    ensures forall key :: key in MismatchedKeys(parent, child) <==>
      exists i :: 0 <= i < |parent| && parent[i].0 == key && parent[i].1 != Flag(child, key)
    ensures |MismatchedKeys(parent, child)| <= |parent|
  {
    if parent != [] {
      var init := parent[..|parent| - 1];
      MismatchedKeysSpec(init, child);
      assert forall i :: 0 <= i < |init| ==> init[i] == parent[i];
    }
  }

  /** The foundation tech codes name exactly the enabled, unresearched foundations. */
  lemma {:induction false} FoundationTechSpec(foundations: seq<(string, bool)>, researched: set<string>)
    ensures var cs := FoundationTech(foundations, researched);
      && |cs| <= |foundations|
      && (forall c :: c in cs ==> c.ShipFoundationTech?)
      && (forall t :: ShipFoundationTech(t) in cs <==> (t, true) in foundations && t !in researched)
  {
    if foundations != [] {
      var init := foundations[..|foundations| - 1];
      FoundationTechSpec(init, researched);
      assert foundations == init + [foundations[|foundations| - 1]];
    }
  }

  /** The parent checks raise the hull error exactly when the totals differ, and the foundations error exactly when some foundation differs. */
  lemma ParentCodesSpec(ship: ShipView, parent: ShipView)
    ensures var cs := ParentCodes(ship, parent);
      && (forall c :: c in cs && c.ShipHullTotal? ==>
            c == ShipHullTotal(parent.title, Ship.TotalHulls(parent.hulls), Ship.TotalHulls(ship.hulls)))
      && (ShipHullTotal(parent.title, Ship.TotalHulls(parent.hulls), Ship.TotalHulls(ship.hulls)) in cs <==>
            Ship.TotalHulls(ship.hulls) != Ship.TotalHulls(parent.hulls))
      && (forall c :: c in cs && c.ShipFoundations? ==>
            c == ShipFoundations(parent.title, Labels(MismatchedKeys(parent.foundations, ship.foundations))))
      && ((exists c :: c in cs && c.ShipFoundations?) <==>
            exists j :: 0 <= j < |parent.foundations| && parent.foundations[j].1 != Flag(ship.foundations, parent.foundations[j].0))
      && (forall c :: c in cs ==> c.ShipHullTotal? || c.ShipFoundations?)
  {
    MismatchedNonEmpty(parent.foundations, ship.foundations);
    var m := MismatchedKeys(parent.foundations, ship.foundations);
    if m != [] {
      assert ShipFoundations(parent.title, Labels(m)) in ParentCodes(ship, parent);
    }
  }

  lemma MismatchedKeysStep(parent: seq<(string, bool)>, child: seq<(string, bool)>, i: nat)
    requires i < |parent|
    ensures MismatchedKeys(parent[..i + 1], child) == MismatchedKeys(parent[..i], child)
      + (if parent[i].1 != Flag(child, parent[i].0) then [parent[i].0] else [])
  {
    assert parent[..i + 1][..i] == parent[..i];
  }

  lemma LabelsSnoc(keys: seq<string>, key: string)
    ensures Labels(keys + [key]) == Labels(keys) + [Label(key)]
  {
  }

  /** Some key is mismatched exactly when some parent entry differs in truthiness from the child. */
  lemma MismatchedNonEmpty(parent: seq<(string, bool)>, child: seq<(string, bool)>)
    ensures MismatchedKeys(parent, child) != [] <==>
      exists j :: 0 <= j < |parent| && parent[j].1 != Flag(child, parent[j].0)
  {
    MismatchedKeysSpec(parent, child);
    var m := MismatchedKeys(parent, child);
    if exists j :: 0 <= j < |parent| && parent[j].1 != Flag(child, parent[j].0) {
      var j :| 0 <= j < |parent| && parent[j].1 != Flag(child, parent[j].0);
      assert parent[j].0 in m;
    }
    if m != [] {
      assert m[0] in m;
    }
  }

  lemma ShipLinkCodesSpec(nodes: Option<seq<NodeView>>, ship: ShipView)
    ensures var cs := ShipLinkCodes(nodes, ship);
      && (ShipNoOutfit in cs <==> CountLinks(nodes, "Class", NodeGraph.Output) == 0)
      && (ShipNoLoadout in cs <==>
            ship.hulls.magazine + ship.hulls.hangar > 0 && CountLinks(nodes, "loadout", NodeGraph.Output) == 0)
      && (forall c :: c in cs ==> c == ShipNoOutfit || c == ShipNoLoadout)
  {
  }

  /**
   * A hull-based ship warns about its Outfit connection exactly when it has
   * no Class output connection, and about loadouts exactly when it has
   * magazine or hangar hulls but no loadout output connection.
   */
  lemma ShipWarningsSpec(nodes: Option<seq<NodeView>>, ship: ShipView, parent: Option<ShipView>, researched: set<string>)
    ensures var cs := ShipCodes(nodes, ship, parent, researched);
      && (ShipNoOutfit in cs <==> CountLinks(nodes, "Class", NodeGraph.Output) == 0)
      && (ShipNoLoadout in cs <==>
            ship.hulls.magazine + ship.hulls.hangar > 0 && CountLinks(nodes, "loadout", NodeGraph.Output) == 0)
  {
    var p := if parent.Some? then ParentCodes(ship, parent.value) else [];
    var t := if !ship.ignoreTech then FoundationTech(ship.foundations, researched) else [];
    ShipLinkCodesSpec(nodes, ship);
    FoundationTechSpec(ship.foundations, researched);
    assert ShipNoOutfit !in t && ShipNoLoadout !in t;
    if parent.Some? {
      ParentCodesSpec(ship, parent.value);
      assert ShipNoOutfit !in p && ShipNoLoadout !in p;
    }
  }

  /**
   * With a ship parent, a hull-based ship gets the hull error exactly when
   * the hull totals differ, carrying both totals, and the foundations error
   * exactly when some foundation differs in truthiness; without a parent it
   * gets neither.
   */
  lemma ShipParentSpec(nodes: Option<seq<NodeView>>, ship: ShipView, parent: Option<ShipView>, researched: set<string>)
    ensures var cs := ShipCodes(nodes, ship, parent, researched);
      && (forall c :: c in cs && c.ShipHullTotal? ==>
            parent.Some? && c == ShipHullTotal(parent.value.title, Ship.TotalHulls(parent.value.hulls), Ship.TotalHulls(ship.hulls)))
      && (parent.Some? ==>
            (ShipHullTotal(parent.value.title, Ship.TotalHulls(parent.value.hulls), Ship.TotalHulls(ship.hulls)) in cs <==>
               Ship.TotalHulls(ship.hulls) != Ship.TotalHulls(parent.value.hulls)))
      && ((exists c :: c in cs && c.ShipFoundations?) <==>
            parent.Some? &&
            exists j :: 0 <= j < |parent.value.foundations| &&
              parent.value.foundations[j].1 != Flag(ship.foundations, parent.value.foundations[j].0))
  {
    var w := ShipLinkCodes(nodes, ship);
    var p := if parent.Some? then ParentCodes(ship, parent.value) else [];
    var t := if !ship.ignoreTech then FoundationTech(ship.foundations, researched) else [];
    var cs := ShipCodes(nodes, ship, parent, researched);
    ShipLinkCodesSpec(nodes, ship);
    FoundationTechSpec(ship.foundations, researched);
    assert forall c :: c in cs && (c.ShipHullTotal? || c.ShipFoundations?) ==> c in p;
    if parent.Some? {
      ParentCodesSpec(ship, parent.value);
    }
  }

  /** A hull-based ship's tech requirements are its enabled, unresearched foundations, unless it ignores them. */
  lemma ShipTechSpec(nodes: Option<seq<NodeView>>, ship: ShipView, parent: Option<ShipView>, researched: set<string>)
    ensures var cs := ShipCodes(nodes, ship, parent, researched);
      forall t :: ShipFoundationTech(t) in cs <==> !ship.ignoreTech && (t, true) in ship.foundations && t !in researched
  {
    var p := if parent.Some? then ParentCodes(ship, parent.value) else [];
    ShipLinkCodesSpec(nodes, ship);
    FoundationTechSpec(ship.foundations, researched);
    if parent.Some? {
      ParentCodesSpec(ship, parent.value);
    }
    assert forall c :: c in p ==> !c.ShipFoundationTech?;
  }

  /** A ship core check never reports anything, whatever its connections. */
  lemma ShipCoreSilent(w: WidgetView, researched: set<string>)
    requires w.kind.ShipCoreWidget?
    ensures WidgetCodes(w, researched) == []
  {
  }

  /** Changing the checked set leaves the kinds and the mirroring alone. */
  lemma MarkChecked(r: Report, c: set<string>)
    ensures KindsMatch(r) ==> KindsMatch(r.(checked := c))
    ensures Mirrors(r) ==> Mirrors(r.(checked := c))
  {
    var r' := r.(checked := c);
    assert forall k :: ListOf(r', k) == ListOf(r, k);
    assert forall id :: Mentioned(r', id) == Mentioned(r, id);
  }

  /**
   * A run's report depends only on the widgets and the researched
   * technologies: it checks exactly the listed widgets, its lists hold only
   * issues of their kind, and the buckets mirror the lists.
   */
  lemma {:induction false} RunReportSpec(widgets: seq<WidgetView>, researched: set<string>)
    ensures var r := RunReport(widgets, researched);
      && r.checked == Ids(widgets)
      && KindsMatch(r)
      && Mirrors(r)
  {
    if widgets != [] {
      var init := widgets[..|widgets| - 1];
      var w := widgets[|widgets| - 1];
      RunReportSpec(init, researched);
      var before := RunReport(init, researched);
      var marked := before.(checked := before.checked + {w.id});
      MarkChecked(before, before.checked + {w.id});
      AddAllSpec(marked, RenderAll(WidgetCodes(w, researched), w.title), w.id);
    }
  }

  /** Ids collects exactly the widgets' ids. */
  lemma {:induction false} IdsSpec(widgets: seq<WidgetView>)
    ensures forall id :: id in Ids(widgets) <==> exists i :: 0 <= i < |widgets| && widgets[i].id == id
  {
    if widgets != [] {
      var init := widgets[..|widgets| - 1];
      IdsSpec(init);
      assert forall i :: 0 <= i < |init| ==> init[i] == widgets[i];
    }
  }

  // ------------------------------------------------------------ check steps

  /** One check of a widget: raise the code's issue when the condition holds. */
  function Step(r: Report, cond: bool, c: Code, w: WidgetView): Report
  {
    if cond then Add(r, Render(c, w.title), w.id) else r
  }

  /** The checks in the order checkHullBasedShip, checkOutfitWidget and checkLoadoutsWidget run them. */
  function ShipLinkSteps(r: Report, w: WidgetView, ship: ShipView): Report
  {
    var r1 := Step(r, CountLinks(w.nodes, "Class", NodeGraph.Output) == 0, ShipNoOutfit, w);
    Step(r1, ship.hulls.magazine + ship.hulls.hangar > 0 && CountLinks(w.nodes, "loadout", NodeGraph.Output) == 0,
         ShipNoLoadout, w)
  }

  function ParentSteps(r: Report, w: WidgetView, ship: ShipView, parent: ShipView): Report
  {
    var total := Ship.TotalHulls(ship.hulls);
    var parentTotal := Ship.TotalHulls(parent.hulls);
    var mismatched := MismatchedKeys(parent.foundations, ship.foundations);
    var r1 := Step(r, total != parentTotal, ShipHullTotal(parent.title, parentTotal, total), w);
    Step(r1, mismatched != [], ShipFoundations(parent.title, Labels(mismatched)), w)
  }

  function OutfitSteps(r: Report, w: WidgetView): Report
  {
    var r1 := Step(r, CountLinks(w.nodes, "Class", NodeGraph.Input) == 0, OutfitNoClass, w);
    var r2 := Step(r1, CountLinks(w.nodes, "Core", NodeGraph.Input) == 0, OutfitNoCore, w);
    Step(r2, CountLinks(w.nodes, "outfit-hull", NodeGraph.Output) == 0, OutfitNoHullPlan, w)
  }

  function LoadoutItemSteps(r: Report, w: WidgetView, items: Option<seq<string>>): Report
  {
    var r1 := Step(r, items.None? || items.value == [], LoadoutEmpty, w);
    Step(r1, items.Some? && CountType(items.value, "weapon") > 0 && CountType(items.value, "ammunition") == 0,
         LoadoutNoAmmunition, w)
  }

  function LoadoutLinkSteps(r: Report, w: WidgetView): Report
  {
    var r1 := Step(r, CountLinks(w.nodes, "loadout", NodeGraph.Input) == 0, LoadoutNoClass, w);
    var r2 := Step(r1, CountLinks(w.nodes, "craft", NodeGraph.Input) == 0, LoadoutNoCraft, w);
    var r3 := Step(r2, CountLinks(w.nodes, "weapon", NodeGraph.Input) == 0, LoadoutNoWeapon, w);
    Step(r3, CountLinks(w.nodes, "loadout-hull", NodeGraph.Output) == 0, LoadoutNoHullPlan, w)
  }

  /** A step adds the issues of the codes it raises, after those already raised. */
  lemma StepAppend(start: Report, done: seq<Code>, cond: bool, c: Code, w: WidgetView)
    ensures Step(AddAll(start, RenderAll(done, w.title), w.id), cond, c, w) ==
      AddAll(start, RenderAll(done + When(cond, c), w.title), w.id)
  {
    if cond {
      RenderAllAppend(done, c, w.title);
      AddAllAppend(start, RenderAll(done, w.title), Render(c, w.title), w.id);
    } else {
      assert done + When(cond, c) == done;
    }
  }

  /** Raising two runs of codes one after the other raises their concatenation. */
  lemma RaiseConcat(r: Report, a: seq<Code>, b: seq<Code>, w: WidgetView)
    ensures AddAll(AddAll(r, RenderAll(a, w.title), w.id), RenderAll(b, w.title), w.id) ==
      AddAll(r, RenderAll(a + b, w.title), w.id)
  {
    assert RenderAll(a + b, w.title) == RenderAll(a, w.title) + RenderAll(b, w.title);
    AddAllConcat(r, RenderAll(a, w.title), RenderAll(b, w.title), w.id);
  }

  lemma ShipLinkStepsSpec(r: Report, w: WidgetView, ship: ShipView)
    ensures ShipLinkSteps(r, w, ship) == AddAll(r, RenderAll(ShipLinkCodes(w.nodes, ship), w.title), w.id)
  {
    var b1 := CountLinks(w.nodes, "Class", NodeGraph.Output) == 0;
    var b2 := ship.hulls.magazine + ship.hulls.hangar > 0 && CountLinks(w.nodes, "loadout", NodeGraph.Output) == 0;
    StepAppend(r, [], b1, ShipNoOutfit, w);
    assert [] + When(b1, ShipNoOutfit) == When(b1, ShipNoOutfit);
    StepAppend(r, When(b1, ShipNoOutfit), b2, ShipNoLoadout, w);
  }

  lemma ParentStepsSpec(r: Report, w: WidgetView, ship: ShipView, parent: ShipView)
    ensures ParentSteps(r, w, ship, parent) == AddAll(r, RenderAll(ParentCodes(ship, parent), w.title), w.id)
  {
    var total := Ship.TotalHulls(ship.hulls);
    var parentTotal := Ship.TotalHulls(parent.hulls);
    var mismatched := MismatchedKeys(parent.foundations, ship.foundations);
    var c1 := ShipHullTotal(parent.title, parentTotal, total);
    StepAppend(r, [], total != parentTotal, c1, w);
    assert [] + When(total != parentTotal, c1) == When(total != parentTotal, c1);
    StepAppend(r, When(total != parentTotal, c1), mismatched != [], ShipFoundations(parent.title, Labels(mismatched)), w);
  }

  lemma OutfitStepsSpec(r: Report, w: WidgetView)
    ensures OutfitSteps(r, w) == AddAll(r, RenderAll(OutfitCodes(w.nodes), w.title), w.id)
  {
    var b1 := CountLinks(w.nodes, "Class", NodeGraph.Input) == 0;
    var b2 := CountLinks(w.nodes, "Core", NodeGraph.Input) == 0;
    var b3 := CountLinks(w.nodes, "outfit-hull", NodeGraph.Output) == 0;
    StepAppend(r, [], b1, OutfitNoClass, w);
    assert [] + When(b1, OutfitNoClass) == When(b1, OutfitNoClass);
    StepAppend(r, When(b1, OutfitNoClass), b2, OutfitNoCore, w);
    StepAppend(r, When(b1, OutfitNoClass) + When(b2, OutfitNoCore), b3, OutfitNoHullPlan, w);
  }

  lemma LoadoutItemStepsSpec(r: Report, w: WidgetView, items: Option<seq<string>>)
    ensures LoadoutItemSteps(r, w, items) == AddAll(r, RenderAll(LoadoutItemCodes(items), w.title), w.id)
  {
    var b1 := items.None? || items.value == [];
    var b2 := items.Some? && CountType(items.value, "weapon") > 0 && CountType(items.value, "ammunition") == 0;
    StepAppend(r, [], b1, LoadoutEmpty, w);
    assert [] + When(b1, LoadoutEmpty) == When(b1, LoadoutEmpty);
    StepAppend(r, When(b1, LoadoutEmpty), b2, LoadoutNoAmmunition, w);
  }

  lemma LoadoutLinkStepsSpec(r: Report, w: WidgetView)
    ensures LoadoutLinkSteps(r, w) == AddAll(r, RenderAll(LoadoutLinkCodes(w.nodes), w.title), w.id)
  {
    var b1 := CountLinks(w.nodes, "loadout", NodeGraph.Input) == 0;
    var b2 := CountLinks(w.nodes, "craft", NodeGraph.Input) == 0;
    var b3 := CountLinks(w.nodes, "weapon", NodeGraph.Input) == 0;
    var b4 := CountLinks(w.nodes, "loadout-hull", NodeGraph.Output) == 0;
    var w1 := When(b1, LoadoutNoClass);
    var w2 := w1 + When(b2, LoadoutNoCraft);
    var w3 := w2 + When(b3, LoadoutNoWeapon);
    StepAppend(r, [], b1, LoadoutNoClass, w);
    assert [] + w1 == w1;
    StepAppend(r, w1, b2, LoadoutNoCraft, w);
    StepAppend(r, w2, b3, LoadoutNoWeapon, w);
    StepAppend(r, w3, b4, LoadoutNoHullPlan, w);
  }

  // ------------------------------------------------------------- the class

  class PreflightCheck {
    var alerts: seq<Issue>
    var warnings: seq<Issue>
    var errors: seq<Issue>
    var techRequirements: seq<Issue>
    var widgetIssues: map<string, Bucket>
    var checkedWidgetsThisRun: set<string>

    function State(): Report
      reads this
    {
      Report(alerts, warnings, errors, techRequirements, widgetIssues, checkedWidgetsThisRun)
    }

    constructor ()
      ensures State() == EmptyReport
    {
      alerts, warnings, errors, techRequirements := [], [], [], [];
      widgetIssues, checkedWidgetsThisRun := map[], {};
    }

    /** runCheck: the reset, then the modelled widget checks. */
    method RunCheck(widgets: seq<WidgetView>, researched: set<string>)
      modifies this
      ensures State() == RunReport(widgets, researched)
    {
      alerts := [];
      warnings := [];
      errors := [];
      techRequirements := [];
      widgetIssues := map[];
      checkedWidgetsThisRun := {};
      for i := 0 to |widgets|
        invariant State() == RunReport(widgets[..i], researched)
      {
        assert widgets[..i + 1][..i] == widgets[..i];
        checkedWidgetsThisRun := checkedWidgetsThisRun + {widgets[i].id};
        CheckWidget(widgets[i], researched);
      }
      assert widgets[..|widgets|] == widgets;
    }

    method CheckWidget(w: WidgetView, researched: set<string>)
      modifies this
      ensures State() == AddAll(old(State()), RenderAll(WidgetCodes(w, researched), w.title), w.id)
    {
      match w.kind {
        case ShipWidget(ship, parent) => CheckHullBasedShip(w, ship, parent, researched);
        case OutfitWidget => CheckOutfitWidget(w);
        case LoadoutsWidget(items) => CheckLoadoutsWidget(w, items);
        case ShipCoreWidget =>
          var coreLinks := CountNodeConnections(w.nodes, "Core", NodeGraph.Output);
        case OtherWidget(_) =>
      }
    }

    /** countNodeConnections. */
    method CountNodeConnections(nodes: Option<seq<NodeView>>, nodeType: string, direction: NodeGraph.Direction)
      returns (total: nat)
      ensures total == CountLinks(nodes, nodeType, direction)
      ensures total == 0 <==>
        nodes.None? ||
        forall i :: 0 <= i < |nodes.value| && nodes.value[i].nodeType == nodeType && nodes.value[i].direction == direction ==>
          ConnectionCount(nodes.value[i]) == 0
    {
      if nodes.None? {
        return 0;
      }
      var ns := nodes.value;
      total := 0;
      for i := 0 to |ns|
        invariant total == Links(ns[..i], nodeType, direction)
      {
        assert ns[..i + 1][..i] == ns[..i];
        var node := ns[i];
        if node.nodeType == nodeType && node.direction == direction {
          total := total + if node.connections.Some? then |node.connections.value| else 0;
        }
      }
      assert ns[..|ns|] == ns;
      LinksZero(ns, nodeType, direction);
    }

    /** One check: raises the code's issue through the add method of its kind when the condition holds. */
    method RaiseIf(cond: bool, c: Code, w: WidgetView)
      modifies this
      ensures State() == Step(old(State()), cond, c, w)
    {
      if cond {
        var message := MessageOf(c, w.title);
        match KindOf(c) {
          case Alert => AddAlert(message, w.id);
          case Warning => AddWarning(message, w.id);
          case Error => AddError(message, w.id);
          case Tech => AddTechRequirement(message, c.tech, w.id);
        }
      }
    }

    method CheckHullBasedShip(w: WidgetView, ship: ShipView, parent: Option<ShipView>, researched: set<string>)
      modifies this
      ensures State() == AddAll(old(State()), RenderAll(ShipCodes(w.nodes, ship, parent, researched), w.title), w.id)
    {
      ghost var r0 := State();
      CheckShipLinks(w, ship);
      ShipLinkStepsSpec(r0, w, ship);
      ghost var links := ShipLinkCodes(w.nodes, ship);
      ghost var parentCodes: seq<Code> := [];
      if parent.Some? {
        ghost var r1 := State();
        CheckShipParent(w, ship, parent.value);
        ParentStepsSpec(r1, w, ship, parent.value);
        parentCodes := ParentCodes(ship, parent.value);
        RaiseConcat(r0, links, parentCodes, w);
      } else {
        assert links + parentCodes == links;
      }
      ghost var techCodes: seq<Code> := [];
      if !ship.ignoreTech {
        ghost var r2 := State();
        CheckFoundationTech(w, ship.foundations, researched);
        techCodes := FoundationTech(ship.foundations, researched);
        RaiseConcat(r0, links + parentCodes, techCodes, w);
      } else {
        assert links + parentCodes + techCodes == links + parentCodes;
      }
      assert links + parentCodes + techCodes == ShipCodes(w.nodes, ship, parent, researched);
    }

    /** The connection checks of checkHullBasedShip. */
    method CheckShipLinks(w: WidgetView, ship: ShipView)
      modifies this
      ensures State() == ShipLinkSteps(old(State()), w, ship)
    {
      var hull := ship.hulls;
      var classConnections := CountNodeConnections(w.nodes, "Class", NodeGraph.Output);
      RaiseIf(classConnections == 0, ShipNoOutfit, w);
      var loadoutConnections := CountNodeConnections(w.nodes, "loadout", NodeGraph.Output);
      RaiseIf(hull.magazine + hull.hangar > 0 && loadoutConnections == 0, ShipNoLoadout, w);
    }

    /** The parent checks of checkHullBasedShip. */
    method CheckShipParent(w: WidgetView, ship: ShipView, parentShip: ShipView)
      modifies this
      ensures State() == ParentSteps(old(State()), w, ship, parentShip)
    {
      var totalHulls := Ship.TotalHulls(ship.hulls);
      var parentTotal := Ship.TotalHulls(parentShip.hulls);
      RaiseIf(totalHulls != parentTotal, ShipHullTotal(parentShip.title, parentTotal, totalHulls), w);
      var mismatched := CollectMismatched(parentShip.foundations, ship.foundations);
      RaiseIf(|mismatched| > 0, ShipFoundations(parentShip.title, mismatched), w);
    }

    /** The tech checks of checkHullBasedShip: one requirement per enabled, unresearched foundation. */
    method CheckFoundationTech(w: WidgetView, foundations: seq<(string, bool)>, researched: set<string>)
      modifies this
      ensures State() == AddAll(old(State()), RenderAll(FoundationTech(foundations, researched), w.title), w.id)
    {
      ghost var r0 := State();
      for i := 0 to |foundations|
        invariant State() == AddAll(r0, RenderAll(FoundationTech(foundations[..i], researched), w.title), w.id)
      {
        assert foundations[..i + 1][..i] == foundations[..i];
        var (tech, enabled) := foundations[i];
        RaiseIf(enabled && tech !in researched, ShipFoundationTech(tech), w);
        StepAppend(r0, FoundationTech(foundations[..i], researched), enabled && tech !in researched, ShipFoundationTech(tech), w);
      }
      assert foundations[..|foundations|] == foundations;
    }

    /** The mismatched foundation labels, collected in the parent's key order. */
    method CollectMismatched(parentFoundations: seq<(string, bool)>, childFoundations: seq<(string, bool)>)
      returns (labels: seq<string>)
      ensures labels == Labels(MismatchedKeys(parentFoundations, childFoundations))
      ensures labels == [] <==>
        forall i :: 0 <= i < |parentFoundations| ==> parentFoundations[i].1 == Flag(childFoundations, parentFoundations[i].0)
    {
      labels := [];
      for i := 0 to |parentFoundations|
        invariant labels == Labels(MismatchedKeys(parentFoundations[..i], childFoundations))
      {
        MismatchedKeysStep(parentFoundations, childFoundations, i);
        var (key, value) := parentFoundations[i];
        if value != Flag(childFoundations, key) {
          LabelsSnoc(MismatchedKeys(parentFoundations[..i], childFoundations), key);
          labels := labels + [Label(key)];
        }
      }
      assert parentFoundations[..|parentFoundations|] == parentFoundations;
      MismatchedNonEmpty(parentFoundations, childFoundations);
    }

    method CheckOutfitWidget(w: WidgetView)
      modifies this
      ensures State() == AddAll(old(State()), RenderAll(OutfitCodes(w.nodes), w.title), w.id)
    {
      ghost var r0 := State();
      var classLinks := CountNodeConnections(w.nodes, "Class", NodeGraph.Input);
      RaiseIf(classLinks == 0, OutfitNoClass, w);
      var coreLinks := CountNodeConnections(w.nodes, "Core", NodeGraph.Input);
      RaiseIf(coreLinks == 0, OutfitNoCore, w);
      var hullLinks := CountNodeConnections(w.nodes, "outfit-hull", NodeGraph.Output);
      RaiseIf(hullLinks == 0, OutfitNoHullPlan, w);
      OutfitStepsSpec(r0, w);
    }

    method CheckLoadoutsWidget(w: WidgetView, items: Option<seq<string>>)
      modifies this
      ensures State() == AddAll(old(State()), RenderAll(LoadoutCodes(w.nodes, items), w.title), w.id)
    {
      ghost var r0 := State();
      CheckLoadoutItems(w, items);
      LoadoutItemStepsSpec(r0, w, items);
      ghost var r1 := State();
      CheckLoadoutLinks(w);
      LoadoutLinkStepsSpec(r1, w);
      RaiseConcat(r0, LoadoutItemCodes(items), LoadoutLinkCodes(w.nodes), w);
    }

    /** The item checks of checkLoadoutsWidget: emptiness, then weapons without ammunition. */
    method CheckLoadoutItems(w: WidgetView, items: Option<seq<string>>)
      modifies this
      ensures State() == LoadoutItemSteps(old(State()), w, items)
    {
      RaiseIf(items.None? || |items.value| == 0, LoadoutEmpty, w);
      var missingAmmunition := false;
      if items.Some? {
        var weaponCount := CountType(items.value, "weapon");
        var ammoCount := CountType(items.value, "ammunition");
        missingAmmunition := weaponCount > 0 && ammoCount == 0;
      }
      RaiseIf(missingAmmunition, LoadoutNoAmmunition, w);
    }

    /** The connection checks of checkLoadoutsWidget. */
    method CheckLoadoutLinks(w: WidgetView)
      modifies this
      ensures State() == LoadoutLinkSteps(old(State()), w)
    {
      var classLinks := CountNodeConnections(w.nodes, "loadout", NodeGraph.Input);
      RaiseIf(classLinks == 0, LoadoutNoClass, w);
      var craftLinks := CountNodeConnections(w.nodes, "craft", NodeGraph.Input);
      RaiseIf(craftLinks == 0, LoadoutNoCraft, w);
      var weaponLinks := CountNodeConnections(w.nodes, "weapon", NodeGraph.Input);
      RaiseIf(weaponLinks == 0, LoadoutNoWeapon, w);
      var hullLinks := CountNodeConnections(w.nodes, "loadout-hull", NodeGraph.Output);
      RaiseIf(hullLinks == 0, LoadoutNoHullPlan, w);
    }

    method AddAlert(message: string, sourceId: string)
      modifies this
      ensures State() == Add(old(State()), Entry(Alert, message, ""), sourceId)
    {
      alerts := alerts + [Issue(Alert, message, "", sourceId)];
      AddToWidgetIssues(sourceId, Alert, Entry(Alert, message, ""));
    }

    method AddWarning(message: string, sourceId: string)
      modifies this
      ensures State() == Add(old(State()), Entry(Warning, message, ""), sourceId)
    {
      warnings := warnings + [Issue(Warning, message, "", sourceId)];
      AddToWidgetIssues(sourceId, Warning, Entry(Warning, message, ""));
    }

    method AddError(message: string, sourceId: string)
      modifies this
      ensures State() == Add(old(State()), Entry(Error, message, ""), sourceId)
    {
      errors := errors + [Issue(Error, message, "", sourceId)];
      AddToWidgetIssues(sourceId, Error, Entry(Error, message, ""));
    }

    method AddTechRequirement(message: string, tech: string, sourceId: string)
      modifies this
      ensures State() == Add(old(State()), Entry(Tech, message, tech), sourceId)
    {
      techRequirements := techRequirements + [Issue(Tech, message, tech, sourceId)];
      AddToWidgetIssues(sourceId, Tech, Entry(Tech, message, tech));
    }

    method AddToWidgetIssues(sourceId: string, category: Kind, issue: Entry)
      modifies this
      ensures State() == old(State()).(widgetIssues := WithIssue(old(widgetIssues), sourceId, category, issue))
    {
      if sourceId == "" || sourceId == "empire" || IsPrefix("connection-", sourceId) {
        return;
      }
      if sourceId !in widgetIssues {
        widgetIssues := widgetIssues[sourceId := EmptyBucket];
      }
      var b := widgetIssues[sourceId];
      widgetIssues := widgetIssues[sourceId := WithBucketList(b, category, BucketList(b, category) + [issue])];
    }

    /** getSummary: the four counts; issues means errors or tech requirements. */
    function GetSummary(): (s: Summary)
      reads this
      ensures s == SummaryOf(State())
    {
      Summary(|alerts|, |errors|, |warnings|, |techRequirements|, |errors| > 0 || |techRequirements| > 0)
    }
  }
}
