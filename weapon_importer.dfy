// The row loop of the weapon-table importer: rows are classified one at a time
// as noise, a category header or a weapon, and weapons are appended to the
// current category with counter-suffixed ids.

module WeaponImporter {
  import opened Wrappers
  import opened Text
  import opened WeaponParser

  // ------------------------------------------------------------- records

  datatype Range = Range(accuracy: Cell, damage: Cell)

  datatype Weapon = Weapon(
    id: string,
    name: string,
    ranges: seq<Range>,
    notes: seq<Note>,
    hardpoint: Option<string>,
    cost: Cell)

  datatype Category = Category(name: string, weapons: seq<Weapon>)

  /** Number of data columns after the name: ten range cells, notes, hardpoint, cost. */
  const DataColumns: nat := 13

  const DefaultCategory: string := "General"

  // ------------------------------------------------------ row classification

  /** The data cells padded with '' or truncated so that there are exactly 13. */
  function FitColumns(cols: seq<string>): (r: seq<string>)
    ensures |r| == DataColumns
    ensures forall k :: 0 <= k < DataColumns ==> r[k] == (if k < |cols| then cols[k] else "")
  {
    if |cols| >= DataColumns then cols[..DataColumns]
    else cols + seq(DataColumns - |cols|, _ => "")
  }

  predicate IsBlank(s: string) { Strip(s) == [] }

  /** How many cells hold non-blank text. */
  function NonEmptyCount(cols: seq<string>): (n: nat)
    ensures n <= |cols|
  {
    if cols == [] then 0 else NonEmptyCount(cols[..|cols| - 1]) + (if IsBlank(cols[|cols| - 1]) then 0 else 1)
  }

  /**
   * The header heuristic: at most one non-empty data cell, a cost of '' or '0',
   * and neither notes nor hardpoint.
   */
  predicate IsHeaderRow(cols: seq<string>)
    requires |cols| == DataColumns
  {
    NonEmptyCount(cols) <= 1
    && (Strip(cols[12]) == "" || Strip(cols[12]) == "0")
    && IsBlank(cols[10]) && IsBlank(cols[11])
  }

  /** A row whose name means it is not a weapon: empty, the word 'weapon', or a generator. */
  predicate ExcludedName(name: string)
  {
    name == [] || Lower(name) == "weapon" || Contains(Lower(name), "generator")
  }

  datatype Row =
    | Skip
    | Header(name: string)
    | Data(name: string, cols: seq<string>)

  /** split_line, then the first cell as the name and the rest fitted to 13 data cells. */
  function RowCells(line: string): (r: (string, seq<string>))
    ensures IsStripped(r.0) && |r.1| == DataColumns
    ensures forall k :: 0 <= k < DataColumns ==> IsStripped(r.1[k])
  {
    var parts := SplitLine(line);
    var cols := FitColumns(parts[1..]);
    assert forall k :: 0 <= k < DataColumns ==> IsStripped(cols[k]) by {
      forall k | 0 <= k < DataColumns ensures IsStripped(cols[k]) {
        if k + 1 < |parts| { assert cols[k] == parts[k + 1]; }
      }
    }
    (parts[0], cols)
  }

  /** What the loop body decides about one line. */
  function Classify(line: string): (r: Row)
    ensures r.Header? || r.Data? ==> !ExcludedName(r.name) && IsStripped(r.name)
    ensures r.Data? ==> |r.cols| == DataColumns && !IsHeaderRow(r.cols)
    ensures r.Data? ==> forall k :: 0 <= k < DataColumns ==> IsStripped(r.cols[k])
  {
    if IsBlank(line) then Skip
    else
      var (name, cols) := RowCells(line);
      if ExcludedName(name) then Skip
      else if IsHeaderRow(cols) then Header(name)
      else Data(name, cols)
  }

  // --------------------------------------------------------- weapon fields

  /** The k-th range band: accuracy and damage from cells 2k and 2k+1. */
  function RangeAt(cols: seq<string>, k: nat): Range
    requires |cols| == DataColumns && k < 5
  {
    Range(ParseNumeric(Some(cols[2 * k])), ParseNumeric(Some(cols[2 * k + 1])))
  }

  /** The first `n` range bands. */
  function RangesUpTo(cols: seq<string>, n: nat): (r: seq<Range>)
    requires |cols| == DataColumns && n <= 5
    ensures |r| == n
  {
    if n == 0 then [] else RangesUpTo(cols, n - 1) + [RangeAt(cols, n - 1)]
  }

  function Ranges(cols: seq<string>): seq<Range>
    requires |cols| == DataColumns
  {
    RangesUpTo(cols, 5)
  }

  function Hardpoint(cell: string): Option<string>
  {
    if cell == [] then None else Some(cell)
  }

  /** The cost cell through parse_numeric, with 'N/A' turned into no cost. */
  function Cost(cell: string): (c: Cell)
    ensures !c.NotApplicable?
    ensures IsBlank(cell) || Upper(Strip(cell)) == "N/A" <==> c.Absent?
  {
    var c := ParseNumeric(Some(cell));
    if c.NotApplicable? then Absent else c
  }

  /** The id of the weapon that is occurrence `count + 1` of its base slug. */
  function MakeId(base: string, count: nat): string
  {
    if count == 0 then base else base + "-" + NatToString(count + 1)
  }

  // ------------------------------------------------------------ the state

  /**
   * The loop's globals: the categories in first-seen order, the lookup from
   * a category name to its position, the current category and the per-slug
   * occurrence counters.
   */
  datatype ImportState = ImportState(
    categories: seq<Category>,
    lookup: map<string, nat>,
    current: Option<string>,
    slugCounts: map<string, nat>)

  const Initial := ImportState([], map[], None, map[])

  /** The lookup and the category list describe the same categories. */
  predicate IndexConsistent(categories: seq<Category>, lookup: map<string, nat>)
  {
    (forall i :: 0 <= i < |categories| ==> categories[i].name in lookup && lookup[categories[i].name] == i)
    && (forall n :: n in lookup ==> lookup[n] < |categories| && categories[lookup[n]].name == n)
  }

  predicate Consistent(st: ImportState)
  {
    IndexConsistent(st.categories, st.lookup)
    && (st.current.Some? ==> st.current.value in st.lookup)
  }

  /** `slug_counts.get(s, 0)` */
  function SlugCountOf(counts: map<string, nat>, s: string): nat
  {
    if s in counts then counts[s] else 0
  }

  /** ensure_category: the category named `name`, appended when it is new, with its position. */
  function EnsureCat(st: ImportState, name: string): (r: (ImportState, nat))
    requires IndexConsistent(st.categories, st.lookup)
    ensures IndexConsistent(r.0.categories, r.0.lookup)
    ensures r.1 < |r.0.categories| && r.0.categories[r.1].name == name
    ensures name in st.lookup ==> r.0 == st
    ensures name !in st.lookup ==> r.0.categories == st.categories + [Category(name, [])]
    ensures r.0.lookup.Keys == st.lookup.Keys + {name}
    ensures r.0.current == st.current && r.0.slugCounts == st.slugCounts
  {
    if name in st.lookup then (st, st.lookup[name])
    else
      var k := |st.categories|;
      var r := st.(categories := st.categories + [Category(name, [])], lookup := st.lookup[name := k]);
      assert forall n :: n in st.lookup ==> n != name;
      (r, k)
  }

  /** The weapon a data row becomes once its id is known. */
  function BuildWeapon(id: string, name: string, cols: seq<string>): (w: Weapon)
    requires |cols| == DataColumns
  {
    Weapon(id, name, Ranges(cols),
           ParseNotes(cols[10]), Hardpoint(cols[11]), Cost(cols[12]))
  }

  function AppendWeapon(c: Category, w: Weapon): Category
  {
    c.(weapons := c.weapons + [w])
  }

  /** `slug_counts[base] = count + 1` */
  function CountSlug(st: ImportState, base: string): ImportState
  {
    st.(slugCounts := st.slugCounts[base := SlugCountOf(st.slugCounts, base) + 1])
  }

  /** `category_entry["weapons"].append(weapon_entry)` for the category at position `k`. */
  function AppendAt(st: ImportState, k: nat, w: Weapon): (r: ImportState)
    requires k < |st.categories|
  {
    st.(categories := st.categories[k := AppendWeapon(st.categories[k], w)])
  }

  /** Count one more occurrence of `base` and append `w` to the current category. */
  function AddWeapon(st: ImportState, base: string, w: Weapon): (r: ImportState)
    requires Consistent(st) && st.current.Some?
    ensures Consistent(r)
  {
    var e := EnsureCat(CountSlug(st, base), st.current.value);
    AppendAt(e.0, e.1, w)
  }

  /** A header row: it becomes the current category, which is created if it is new. */
  function HeaderStep(st: ImportState, name: string): (r: ImportState)
    requires Consistent(st)
    ensures Consistent(r)
  {
    EnsureCat(st.(current := Some(name)), name).0
  }

  /** Before a data row: fall back to 'General' when no category is current. */
  function WithTarget(st: ImportState): (r: ImportState)
    requires Consistent(st)
    ensures Consistent(r) && r.current.Some?
  {
    if st.current.None? then EnsureCat(st.(current := Some(DefaultCategory)), DefaultCategory).0 else st
  }

  /** The weapon a data row becomes: its id is its slug, suffixed when the slug was seen before. */
  function RowWeapon(counts: map<string, nat>, name: string, cols: seq<string>): Weapon
    requires |cols| == DataColumns
  {
    var base := Slugify(name);
    BuildWeapon(MakeId(base, SlugCountOf(counts, base)), name, cols)
  }

  /** A data row: make sure a category is current, then add the row's weapon to it. */
  function DataStep(st: ImportState, name: string, cols: seq<string>): (r: ImportState)
    requires Consistent(st) && |cols| == DataColumns
    ensures Consistent(r)
  {
    AddWeapon(WithTarget(st), Slugify(name), RowWeapon(st.slugCounts, name, cols))
  }

  /** One pass of the loop body. */
  function Step(st: ImportState, line: string): (r: ImportState)
    requires Consistent(st)
    ensures Consistent(r)
  {
    match Classify(line)
    case Skip => st
    case Header(name) => HeaderStep(st, name)
    case Data(name, cols) => DataStep(st, name, cols)
  }

  /** The state after the loop has run over `lines`. */
  function Run(lines: seq<string>): (r: ImportState)
    ensures Consistent(r)
  {
    if lines == [] then Initial else Step(Run(lines[..|lines| - 1]), lines[|lines| - 1])
  }

  function IsNewlineChar(c: char): bool { c == '\n' }

  /** `raw.strip('\n').split('\n')` */
  function Lines(raw: string): seq<string>
  {
    Split(Trim(raw, IsNewlineChar), '\n')
  }

  // ------------------------------------------------------------ the loop

  /** The importer's globals and the loop over the rows. */
  class Importer {
    var categories: seq<Category>
    var lookup: map<string, nat>
    var current: Option<string>
    var slugCounts: map<string, nat>

    function State(): ImportState
      reads this
    {
      ImportState(categories, lookup, current, slugCounts)
    }

    predicate Valid()
      reads this
    {
      Consistent(State())
    }

    constructor ()
      ensures State() == Initial && Valid()
    {
      categories := [];
      lookup := map[];
      current := None;
      slugCounts := map[];
    }

    /** ensure_category: reuse the category named `name` or append a new empty one. */
    method EnsureCategory(name: string) returns (k: nat)
      requires IndexConsistent(categories, lookup)
      modifies this
      ensures (State(), k) == EnsureCat(old(State()), name)
    {
      if name in lookup {
        k := lookup[name];
      } else {
        k := |categories|;
        lookup := lookup[name := k];
        categories := categories + [Category(name, [])];
      }
    }

    /** The loop body for one line. */
    method ProcessLine(line: string)
      requires Valid()
      modifies this
      ensures Valid()
      ensures State() == Step(old(State()), line)
    {
      if IsBlank(line) {
        return;
      }
      var (name, cols) := RowCells(line);
      assert (name, cols) == RowCells(line);
      if name == [] || Lower(name) == "weapon" {
        return;
      }
      if Contains(Lower(name), "generator") {
        return;
      }
      if IsHeaderRow(cols) {
        assert Classify(line) == Header(name);
        current := Some(name);
        var _ := EnsureCategory(name);
        return;
      }
      assert Classify(line) == Data(name, cols);
      DataRow(name, cols);
    }

    /** The loop body for a data row. */
    method DataRow(name: string, cols: seq<string>)
      requires Valid() && |cols| == DataColumns
      modifies this
      ensures State() == DataStep(old(State()), name, cols)
    {
      if current.None? {
        current := Some(DefaultCategory);
        var _ := EnsureCategory(DefaultCategory);
      }
      AddWeaponRow(name, cols);
    }

    /** `count = slug_counts.get(base, 0)` followed by `slug_counts[base] = count + 1`. */
    method NextSlugCount(base: string) returns (count: nat)
      modifies this
      ensures count == SlugCountOf(old(slugCounts), base)
      ensures State() == CountSlug(old(State()), base)
    {
      count := SlugCountOf(slugCounts, base);
      slugCounts := slugCounts[base := count + 1];
    }

    /** The data-row part of the loop body: build the weapon and append it to the current category. */
    method AddWeaponRow(name: string, cols: seq<string>)
      requires Valid() && current.Some? && |cols| == DataColumns
      modifies this
      ensures State() == AddWeapon(old(State()), Slugify(name), RowWeapon(old(slugCounts), name, cols))
    {
      var base := Slugify(name);
      var count := NextSlugCount(base);
      var weapon := ReadWeapon(MakeId(base, count), name, cols);
      var k := EnsureCategory(current.value);
      categories := categories[k := AppendWeapon(categories[k], weapon)];
    }
  }

  /** The weapon record of a data row: five range bands, notes, hardpoint and cost. */
  method ReadWeapon(id: string, name: string, cols: seq<string>) returns (weapon: Weapon)
    requires |cols| == DataColumns
    ensures weapon == BuildWeapon(id, name, cols)
  {
    var ranges := ReadRanges(cols);
    var notes := ParseNotes(cols[10]);
    var hardpoint := Hardpoint(cols[11]);
    var cost := ParseNumeric(Some(cols[12]));
    if cost == NotApplicable {
      cost := Absent;
    }
    assert cost == Cost(cols[12]);
    weapon := Weapon(id, name, ranges, notes, hardpoint, cost);
  }

  /** The five range bands, read pairwise from the first ten data cells. */
  method ReadRanges(cols: seq<string>) returns (ranges: seq<Range>)
    requires |cols| == DataColumns
    ensures ranges == Ranges(cols)
  {
    ranges := [];
    for k := 0 to 5
      invariant ranges == RangesUpTo(cols, k)
    {
      var i := 2 * k;
      var acc := ParseNumeric(Some(cols[i]));
      var dmg := ParseNumeric(Some(cols[i + 1]));
      assert Range(acc, dmg) == RangeAt(cols, k);
      ranges := ranges + [Range(acc, dmg)];
    }
  }

  /** The whole run: every line of the raw table through the loop body, in order. */
  method Import(raw: string) returns (categories: seq<Category>)
    ensures categories == Run(Lines(raw)).categories
  {
    var lines := Lines(raw);
    var importer := new Importer();
    var i := 0;
    while i < |lines|
      invariant 0 <= i <= |lines|
      invariant importer.Valid() && importer.State() == Run(lines[..i])
    {
      assert lines[..i + 1][..i] == lines[..i];
      importer.ProcessLine(lines[i]);
      i := i + 1;
    }
    assert lines[..|lines|] == lines;
    categories := importer.categories;
  }

  // ------------------------------------------------------------- counting

  /** How many of `ws` have base slug `s`. */
  function SlugOccurrences(ws: seq<Weapon>, s: string): nat
  {
    if ws == [] then 0
    else SlugOccurrences(ws[..|ws| - 1], s) + (if Slugify(ws[|ws| - 1].name) == s then 1 else 0)
  }

  /** How many weapons of the document have base slug `s`. */
  function DocSlugCount(categories: seq<Category>, s: string): nat
  {
    if categories == [] then 0
    else DocSlugCount(categories[..|categories| - 1], s) + SlugOccurrences(categories[|categories| - 1].weapons, s)
  }

  /** How many weapons the document holds. */
  function TotalWeapons(categories: seq<Category>): nat
  {
    if categories == [] then 0
    else TotalWeapons(categories[..|categories| - 1]) + |categories[|categories| - 1].weapons|
  }

  /** The per-slug counters agree with the weapons in the document. */
  ghost predicate SlugsCounted(st: ImportState)
  {
    forall s :: SlugCountOf(st.slugCounts, s) == DocSlugCount(st.categories, s)
  }

  /** How many of `lines` are data rows. */
  function DataRows(lines: seq<string>): nat
  {
    if lines == [] then 0
    else DataRows(lines[..|lines| - 1]) + (if Classify(lines[|lines| - 1]).Data? then 1 else 0)
  }

  /** Replacing one category changes the document's tallies by that category's difference. */
  lemma {:induction false} ReplaceCategoryCounts(categories: seq<Category>, k: nat, c: Category, s: string)
    requires k < |categories|
    ensures DocSlugCount(categories[k := c], s) + SlugOccurrences(categories[k].weapons, s)
         == DocSlugCount(categories, s) + SlugOccurrences(c.weapons, s)
    ensures TotalWeapons(categories[k := c]) + |categories[k].weapons| == TotalWeapons(categories) + |c.weapons|
  {
    var n := |categories|;
    var u := categories[k := c];
    if k < n - 1 {
      assert u[..n - 1] == categories[..n - 1][k := c];
      ReplaceCategoryCounts(categories[..n - 1], k, c, s);
    } else {
      assert u[..n - 1] == categories[..n - 1];
    }
  }

  /** A new, empty category adds nothing to the tallies. */
  lemma EmptyCategoryCounts(categories: seq<Category>, name: string, s: string)
    ensures DocSlugCount(categories + [Category(name, [])], s) == DocSlugCount(categories, s)
    ensures TotalWeapons(categories + [Category(name, [])]) == TotalWeapons(categories)
  {
    assert (categories + [Category(name, [])])[..|categories|] == categories;
  }

  lemma EnsureCatCounts(st: ImportState, name: string, s: string)
    requires IndexConsistent(st.categories, st.lookup)
    ensures DocSlugCount(EnsureCat(st, name).0.categories, s) == DocSlugCount(st.categories, s)
    ensures TotalWeapons(EnsureCat(st, name).0.categories) == TotalWeapons(st.categories)
  {
    if name !in st.lookup {
      EmptyCategoryCounts(st.categories, name, s);
    }
  }

  lemma AppendAtCounts(st: ImportState, k: nat, w: Weapon, s: string)
    requires k < |st.categories|
    ensures DocSlugCount(AppendAt(st, k, w).categories, s)
         == DocSlugCount(st.categories, s) + (if Slugify(w.name) == s then 1 else 0)
    ensures TotalWeapons(AppendAt(st, k, w).categories) == TotalWeapons(st.categories) + 1
  {
    var c := AppendWeapon(st.categories[k], w);
    ReplaceCategoryCounts(st.categories, k, c, s);
    assert c.weapons[..|c.weapons| - 1] == st.categories[k].weapons;
  }

  // -------------------------------------------------------- step properties

  /** The category a data row goes to: the current one, or 'General' when there is none. */
  function TargetCategory(st: ImportState): string
  {
    if st.current.Some? then st.current.value else DefaultCategory
  }

  /** Every category of `before` is still there, under its name, with its weapons as a prefix. */
  predicate Extends(before: seq<Category>, after: seq<Category>)
  {
    |before| <= |after|
    && forall i :: 0 <= i < |before| ==> after[i].name == before[i].name && before[i].weapons <= after[i].weapons
  }

  lemma ExtendsTransitive(a: seq<Category>, b: seq<Category>, c: seq<Category>)
    requires Extends(a, b) && Extends(b, c)
    ensures Extends(a, c)
  {
    forall i | 0 <= i < |a|
      ensures c[i].name == a[i].name && a[i].weapons <= c[i].weapons
    {
      assert b[i].weapons <= c[i].weapons;
    }
  }

  /** A header row makes its name current, creating the category if new, and adds no weapon. */
  lemma HeaderStepFacts(st: ImportState, name: string, s: string)
    requires Consistent(st)
    ensures var r := HeaderStep(st, name);
      r.current == Some(name) && name in r.lookup
      && |r.categories| == |st.categories| + (if name in st.lookup then 0 else 1)
      && Extends(st.categories, r.categories)
      && r.slugCounts == st.slugCounts
      && DocSlugCount(r.categories, s) == DocSlugCount(st.categories, s)
      && TotalWeapons(r.categories) == TotalWeapons(st.categories)
  {
    EnsureCatCounts(st.(current := Some(name)), name, s);
  }

  /** Adding a category with no weapons extends the list and changes no tally. */
  lemma AddCategoryExtends(categories: seq<Category>, name: string, s: string)
    ensures Extends(categories, categories + [Category(name, [])])
    ensures DocSlugCount(categories + [Category(name, [])], s) == DocSlugCount(categories, s)
    ensures TotalWeapons(categories + [Category(name, [])]) == TotalWeapons(categories)
  {
    EmptyCategoryCounts(categories, name, s);
  }

  /** Appending a weapon to one category extends the list and adds one to the tallies. */
  lemma AppendWeaponExtends(categories: seq<Category>, k: nat, w: Weapon, s: string)
    requires k < |categories|
    ensures Extends(categories, categories[k := AppendWeapon(categories[k], w)])
    ensures DocSlugCount(categories[k := AppendWeapon(categories[k], w)], s)
         == DocSlugCount(categories, s) + (if Slugify(w.name) == s then 1 else 0)
    ensures TotalWeapons(categories[k := AppendWeapon(categories[k], w)]) == TotalWeapons(categories) + 1
  {
    AppendAtCounts(ImportState(categories, map[], None, map[]), k, w, s);
  }

  /**
   * Placing a weapon appends it to the target category (created first when
   * it is new), counts its slug and leaves every other category as it was.
   */
  lemma PlaceShape(st: ImportState, base: string, w: Weapon)
    requires Consistent(st)
    ensures var r := AddWeapon(WithTarget(st), base, w);
      var cur := TargetCategory(st);
      var before := if cur in st.lookup then st.categories else st.categories + [Category(cur, [])];
      var k := if cur in st.lookup then st.lookup[cur] else |st.categories|;
      k < |before| && cur in r.lookup && r.lookup[cur] == k
      && r.categories == before[k := AppendWeapon(before[k], w)]
      && r.current == Some(cur)
      && r.slugCounts == st.slugCounts[base := SlugCountOf(st.slugCounts, base) + 1]
  {
    var st1 := WithTarget(st);
    var cur := TargetCategory(st);
    assert st1.current == Some(cur) && cur in st1.lookup;
    assert st1.categories == if cur in st.lookup then st.categories else st.categories + [Category(cur, [])];
    var e := EnsureCat(CountSlug(st1, base), cur);
    assert e.0 == CountSlug(st1, base);
  }

  /** What placing a weapon does to the categories already read and to the tallies. */
  lemma PlaceFacts(st: ImportState, base: string, w: Weapon, s: string)
    requires Consistent(st) && Slugify(w.name) == base
    ensures var r := AddWeapon(WithTarget(st), base, w);
      Extends(st.categories, r.categories)
      && SlugCountOf(r.slugCounts, s) == SlugCountOf(st.slugCounts, s) + (if base == s then 1 else 0)
      && DocSlugCount(r.categories, s) == DocSlugCount(st.categories, s) + (if base == s then 1 else 0)
      && TotalWeapons(r.categories) == TotalWeapons(st.categories) + 1
  {
    var cur := TargetCategory(st);
    var r := AddWeapon(WithTarget(st), base, w);
    PlaceShape(st, base, w);
    assert SlugCountOf(r.slugCounts, s) == SlugCountOf(st.slugCounts, s) + (if base == s then 1 else 0);
    if cur in st.lookup {
      var k := st.lookup[cur];
      assert r.categories == st.categories[k := AppendWeapon(st.categories[k], w)];
      AppendWeaponExtends(st.categories, k, w, s);
    } else {
      var before := st.categories + [Category(cur, [])];
      var k := |st.categories|;
      assert r.categories == before[k := AppendWeapon(before[k], w)];
      AddCategoryExtends(st.categories, cur, s);
      AppendWeaponExtends(before, k, w, s);
      ExtendsTransitive(st.categories, before, r.categories);
    }
  }

  /** What a data row does to the categories already read and to the tallies. */
  lemma DataStepFacts(st: ImportState, name: string, cols: seq<string>, s: string)
    requires Consistent(st) && |cols| == DataColumns
    ensures var r := DataStep(st, name, cols);
      Extends(st.categories, r.categories)
      && SlugCountOf(r.slugCounts, s) == SlugCountOf(st.slugCounts, s) + (if Slugify(name) == s then 1 else 0)
      && DocSlugCount(r.categories, s) == DocSlugCount(st.categories, s) + (if Slugify(name) == s then 1 else 0)
      && TotalWeapons(r.categories) == TotalWeapons(st.categories) + 1
  {
    var w := RowWeapon(st.slugCounts, name, cols);
    assert w.name == name;
    PlaceFacts(st, Slugify(name), w, s);
  }

  /** What one row does to the tallies and to the categories already read. */
  lemma StepFacts(st: ImportState, line: string, s: string)
    requires Consistent(st)
    ensures var r := Step(st, line);
      Extends(st.categories, r.categories)
      && TotalWeapons(r.categories) == TotalWeapons(st.categories) + (if Classify(line).Data? then 1 else 0)
      && DocSlugCount(r.categories, s)
         == DocSlugCount(st.categories, s) + (if Classify(line).Data? && Slugify(Classify(line).name) == s then 1 else 0)
      && SlugCountOf(r.slugCounts, s)
         == SlugCountOf(st.slugCounts, s) + (if Classify(line).Data? && Slugify(Classify(line).name) == s then 1 else 0)
  {
    match Classify(line)
    case Skip =>
    case Header(name) =>
      HeaderStepFacts(st, name, s);
    case Data(name, cols) =>
      DataStepFacts(st, name, cols, s);
  }

  /** A data row adds exactly one weapon; a header or skipped row adds none. */
  lemma StepWeaponTotal(st: ImportState, line: string)
    requires Consistent(st)
    ensures TotalWeapons(Step(st, line).categories)
         == TotalWeapons(st.categories) + (if Classify(line).Data? then 1 else 0)
  {
    StepFacts(st, line, "");
  }

  /** The document holds exactly one weapon per data row read. */
  lemma {:induction false} RunWeaponTotal(lines: seq<string>)
    ensures TotalWeapons(Run(lines).categories) == DataRows(lines)
  {
    if lines != [] {
      RunWeaponTotal(lines[..|lines| - 1]);
      StepWeaponTotal(Run(lines[..|lines| - 1]), lines[|lines| - 1]);
    }
  }

  /** The per-slug counters keep agreeing with the document, row after row. */
  lemma StepSlugsCounted(st: ImportState, line: string)
    requires Consistent(st) && SlugsCounted(st)
    ensures SlugsCounted(Step(st, line))
  {
    forall s
      ensures SlugCountOf(Step(st, line).slugCounts, s) == DocSlugCount(Step(st, line).categories, s)
    {
      StepFacts(st, line, s);
    }
  }

  lemma {:induction false} RunSlugsCounted(lines: seq<string>)
    ensures SlugsCounted(Run(lines))
  {
    if lines != [] {
      RunSlugsCounted(lines[..|lines| - 1]);
      StepSlugsCounted(Run(lines[..|lines| - 1]), lines[|lines| - 1]);
    }
  }

  /**
   * A data row's weapon goes last into the target category, and its id is
   * its slug when no weapon read so far has that slug, and the slug
   * suffixed with one more than their number otherwise.
   */
  lemma DataStepId(st: ImportState, name: string, cols: seq<string>)
    requires Consistent(st) && SlugsCounted(st) && |cols| == DataColumns
    ensures var r := DataStep(st, name, cols);
      var base := Slugify(name);
      var cur := TargetCategory(st);
      cur in r.lookup && r.current == Some(cur)
      && r.categories[r.lookup[cur]].weapons
         == (if cur in st.lookup then st.categories[st.lookup[cur]].weapons else [])
            + [BuildWeapon(MakeId(base, DocSlugCount(st.categories, base)), name, cols)]
  {
    var base := Slugify(name);
    PlaceShape(st, base, RowWeapon(st.slugCounts, name, cols));
    assert SlugCountOf(st.slugCounts, base) == DocSlugCount(st.categories, base);
  }

  lemma DataRowId(st: ImportState, line: string)
    requires Consistent(st) && SlugsCounted(st) && Classify(line).Data?
    ensures var r := Step(st, line);
      var name := Classify(line).name;
      var base := Slugify(name);
      var cur := TargetCategory(st);
      cur in r.lookup && r.current == Some(cur)
      && r.categories[r.lookup[cur]].weapons
         == (if cur in st.lookup then st.categories[st.lookup[cur]].weapons else [])
            + [BuildWeapon(MakeId(base, DocSlugCount(st.categories, base)), name, Classify(line).cols)]
  {
    DataStepId(st, Classify(line).name, Classify(line).cols);
  }

  /** Rows never remove, rename or reorder a category, nor drop a weapon from one. */
  lemma {:induction false} RunExtends(lines: seq<string>, n: nat)
    requires n <= |lines|
    ensures Extends(Run(lines[..n]).categories, Run(lines).categories)
    decreases |lines|
  {
    if n == |lines| {
      assert lines[..n] == lines;
    } else {
      var prefix := lines[..|lines| - 1];
      assert lines[..n] == prefix[..n];
      RunExtends(prefix, n);
      StepFacts(Run(prefix), lines[|lines| - 1], "");
      ExtendsTransitive(Run(lines[..n]).categories, Run(prefix).categories, Run(lines).categories);
    }
  }

  /** A header row makes its name current, adds no weapon, and adds a category only for a new name. */
  lemma StepHeader(st: ImportState, line: string)
    requires Consistent(st) && Classify(line).Header?
    ensures var r := Step(st, line);
      var name := Classify(line).name;
      r.current == Some(name) && name in r.lookup
      && |r.categories| == |st.categories| + (if name in st.lookup then 0 else 1)
      && TotalWeapons(r.categories) == TotalWeapons(st.categories)
  {
    HeaderStepFacts(st, Classify(line).name, "");
  }

  /** No two categories share a name. */
  lemma CategoryNamesUnique(st: ImportState)
    requires Consistent(st)
    ensures forall i, j :: 0 <= i < j < |st.categories| ==> st.categories[i].name != st.categories[j].name
  {
  }

  // -------------------------------------------------------------------- ids

  /** A suffixed id is still a slug: the counter only adds a hyphen and digits. */
  lemma MakeIdIsSlug(base: string, count: nat)
    requires IsSlug(base)
    ensures IsSlug(MakeId(base, count))
  {
    if count != 0 {
      var digits := NatToString(count + 1);
      var id := base + "-" + digits;
      assert id == MakeId(base, count);
      forall k | 0 <= k < |id|
        ensures IsSlugChar(id[k])
      {
        if k > |base| {
          assert id[k] == digits[k - |base| - 1];
        }
      }
      forall k | 0 <= k < |id| - 1
        ensures !(id[k] == '-' && id[k + 1] == '-')
      {
        if k + 1 > |base| {
          assert id[k + 1] == digits[k - |base|];
        }
      }
      assert AllSlugChars(id);
    }
  }

  /** Two occurrences of the same slug never get the same id. */
  lemma MakeIdInjective(base: string, m: nat, n: nat)
    requires MakeId(base, m) == MakeId(base, n)
    ensures m == n
  {
    if m != 0 && n != 0 {
      var a := NatToString(m + 1);
      var b := NatToString(n + 1);
      assert (base + "-" + a)[|base| + 1..] == a;
      assert (base + "-" + b)[|base| + 1..] == b;
      NatToStringInjective(m + 1, n + 1);
    }
  }

  /**
   * Ids are unique per slug only: for any slug `b` (say 'x'), the second
   * weapon named `b` and the first one named `b`-2 both get the id `b`-2.
   */
  lemma IdsNotGloballyUnique(b: string)
    requires IsSlug(b)
    ensures Slugify(b) != Slugify(b + "-2")
    ensures MakeId(Slugify(b), 1) == MakeId(Slugify(b + "-2"), 0)
  {
    assert NatToString(2) == "2";
    MakeIdIsSlug(b, 1);
    SlugifyOfSlug(b);
    SlugifyOfSlug(b + "-2");
  }

  // ------------------------------------------------------- weapon records

  /** Band `k` of a row's ranges is read from cells 2k and 2k+1, for each of the five bands. */
  lemma {:induction false} RangesUpToAt(cols: seq<string>, n: nat, k: nat)
    requires |cols| == DataColumns && k < n <= 5
    ensures RangesUpTo(cols, n)[k] == RangeAt(cols, k)
  {
    var prefix := RangesUpTo(cols, n - 1);
    assert RangesUpTo(cols, n) == prefix + [RangeAt(cols, n - 1)];
    if k < n - 1 {
      RangesUpToAt(cols, n - 1, k);
      assert RangesUpTo(cols, n)[k] == prefix[k];
    }
  }

  /**
   * Range cells keep 'N/A' while the cost cell turns it into no cost: an
   * 'N/A' accuracy or damage cell is NotApplicable in its band.
   */
  lemma RangeKeepsNotApplicable(cols: seq<string>, k: nat)
    requires |cols| == DataColumns && k < 5
    ensures Ranges(cols)[k].accuracy.NotApplicable? <==> Upper(Strip(cols[2 * k])) == "N/A"
    ensures Ranges(cols)[k].damage.NotApplicable? <==> Upper(Strip(cols[2 * k + 1])) == "N/A"
  {
    RangesUpToAt(cols, 5, k);
    ParseNumericNotApplicable(cols[2 * k]);
    ParseNumericNotApplicable(cols[2 * k + 1]);
  }

  /** What every weapon record in the output satisfies. */
  predicate WeaponOk(w: Weapon)
  {
    IsSlug(w.id) && !ExcludedName(w.name) && IsStripped(w.name)
    && |w.ranges| == 5 && !w.cost.NotApplicable?
  }

  predicate AllWeaponsOk(categories: seq<Category>)
  {
    forall i, j :: 0 <= i < |categories| && 0 <= j < |categories[i].weapons| ==> WeaponOk(categories[i].weapons[j])
  }

  /** A data row's weapon: a slug id, a kept name, five bands, and a cost that is never 'N/A'. */
  lemma RowWeaponOk(counts: map<string, nat>, name: string, cols: seq<string>)
    requires |cols| == DataColumns && !ExcludedName(name) && IsStripped(name)
    ensures WeaponOk(RowWeapon(counts, name, cols))
  {
    var base := Slugify(name);
    SlugifyIsSlug(name);
    MakeIdIsSlug(base, SlugCountOf(counts, base));
  }

  lemma AppendKeepsOk(categories: seq<Category>, k: nat, w: Weapon)
    requires k < |categories| && AllWeaponsOk(categories) && WeaponOk(w)
    ensures AllWeaponsOk(categories[k := AppendWeapon(categories[k], w)])
  {
    var after := categories[k := AppendWeapon(categories[k], w)];
    forall i, j | 0 <= i < |after| && 0 <= j < |after[i].weapons|
      ensures WeaponOk(after[i].weapons[j])
    {
      if i == k && j == |categories[k].weapons| {
        assert after[i].weapons[j] == w;
      } else {
        assert after[i].weapons[j] == categories[i].weapons[j];
      }
    }
  }

  lemma HeaderStepOk(st: ImportState, name: string)
    requires Consistent(st) && AllWeaponsOk(st.categories)
    ensures AllWeaponsOk(HeaderStep(st, name).categories)
  {
    var r := HeaderStep(st, name);
    if name !in st.lookup {
      var after := st.categories + [Category(name, [])];
      assert r.categories == after;
      forall i, j | 0 <= i < |after| && 0 <= j < |after[i].weapons|
        ensures WeaponOk(after[i].weapons[j])
      {
        assert after[i] == st.categories[i];
      }
    }
  }

  lemma DataStepOk(st: ImportState, name: string, cols: seq<string>)
    requires Consistent(st) && AllWeaponsOk(st.categories)
    requires |cols| == DataColumns && !ExcludedName(name) && IsStripped(name)
    ensures AllWeaponsOk(DataStep(st, name, cols).categories)
  {
    var cur := TargetCategory(st);
    var w := RowWeapon(st.slugCounts, name, cols);
    PlaceShape(st, Slugify(name), w);
    RowWeaponOk(st.slugCounts, name, cols);
    if cur in st.lookup {
      AppendKeepsOk(st.categories, st.lookup[cur], w);
    } else {
      var before := st.categories + [Category(cur, [])];
      HeaderStepOk(st, cur);
      assert HeaderStep(st, cur).categories == before;
      AppendKeepsOk(before, |st.categories|, w);
    }
  }

  lemma StepWeaponsOk(st: ImportState, line: string)
    requires Consistent(st) && AllWeaponsOk(st.categories)
    ensures AllWeaponsOk(Step(st, line).categories)
  {
    match Classify(line)
    case Skip =>
    case Header(name) =>
      HeaderStepOk(st, name);
    case Data(name, cols) =>
      DataStepOk(st, name, cols);
  }

  /** Every weapon the importer produces is well formed. */
  lemma {:induction false} RunWeaponsOk(lines: seq<string>)
    ensures AllWeaponsOk(Run(lines).categories)
  {
    if lines != [] {
      RunWeaponsOk(lines[..|lines| - 1]);
      StepWeaponsOk(Run(lines[..|lines| - 1]), lines[|lines| - 1]);
    }
  }
}
