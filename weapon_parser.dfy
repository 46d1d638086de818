/**
 * Cell-level parsing of the weapon table: splitting a row into columns,
 * reading numeric cells, reading the comma-separated note tags and turning a
 * weapon name into a URL-safe slug.
 */
module WeaponParser {
  import opened Wrappers
  import opened Text

  // ------------------------------------------------------------ split_line

  /** True when `s[k]` and `s[k + 1]` are both whitespace. */
  predicate DoubleSpace(s: string, k: int)
  {
    0 <= k && k + 1 < |s| && IsSpace(s[k]) && IsSpace(s[k + 1])
  }

  /** No two whitespace characters stand side by side in `s`. */
  predicate NoDoubleSpace(s: string)
  {
    forall k :: 0 <= k < |s| ==> !DoubleSpace(s, k)
  }

  /** Index where the first run of two or more whitespace characters starts, or `|s|`. */
  function FirstRun(s: string): (i: nat)
    ensures i <= |s|
    ensures i < |s| ==> DoubleSpace(s, i)
    ensures forall k :: 0 <= k < i ==> !DoubleSpace(s, k)
  {
    if |s| < 2 then |s|
    else if IsSpace(s[0]) && IsSpace(s[1]) then 0
    else
      var j := 1 + FirstRun(s[1..]);
      assert forall k :: 1 <= k < j ==> (DoubleSpace(s, k) <==> DoubleSpace(s[1..], k - 1));
      j
  }

  /** Python `re.split(r'\s{2,}', s)`: every maximal run of two or more whitespace characters separates. */
  function SplitOnRuns(s: string): (r: seq<string>)
    ensures |r| >= 1
    decreases |s|
  {
    var i := FirstRun(s);
    if i == |s| then [s]
    else
      var rest := TrimStart(s[i..], IsSpace);
      assert s[i..] != [] && IsSpace(s[i..][0]);
      [s[..i]] + SplitOnRuns(rest)
  }

  function IsNewline(c: char): bool { c == '\n' }

  function StripAll(parts: seq<string>): (r: seq<string>)
    ensures |r| == |parts|
    ensures forall k :: 0 <= k < |r| ==> r[k] == Strip(parts[k])
  {
    seq(|parts|, k requires 0 <= k < |parts| => Strip(parts[k]))
  }

  /**
   * split_line: a row holding a tab is cut at every tab (after dropping trailing
   * newlines); any other row is stripped and cut at runs of two or more
   * whitespace characters. Every cell is stripped.
   */
  function SplitLine(line: string): (r: seq<string>)
    ensures |r| >= 1
    ensures forall k :: 0 <= k < |r| ==> IsStripped(r[k])
  {
    var parts := if '\t' in line then Split(TrimEnd(line, IsNewline), '\t')
                 else SplitOnRuns(Strip(line));
    var r := StripAll(parts);
    assert forall k :: 0 <= k < |r| ==> IsStripped(r[k]) by {
      forall k | 0 <= k < |r| ensures IsStripped(r[k]) { StripSpec(parts[k]); }
    }
    r
  }

  /** Dropping trailing newlines keeps every tab. */
  lemma TrimNewlinesKeepsTabs(line: string)
    ensures Count(TrimEnd(line, IsNewline), '\t') == Count(line, '\t')
  {
    var t := TrimEnd(line, IsNewline);
    TrimEndSpec(line, IsNewline);
    var tail := line[|t|..];
    assert line == t + tail;
    CountAppend(t, tail, '\t');
    forall k | 0 <= k < |tail| ensures tail[k] != '\t' {
      assert tail[k] == line[|t| + k];
      assert IsNewline(line[|t| + k]);
    }
    CountAbsent(tail, '\t');
  }

  /** A tab-separated row has one cell more than it has tabs; empty cells are kept. */
  lemma SplitLineTabCount(line: string)
    requires '\t' in line
    ensures |SplitLine(line)| == Count(line, '\t') + 1
  {
    var t := TrimEnd(line, IsNewline);
    assert SplitLine(line) == StripAll(Split(t, '\t'));
    SplitCount(t, '\t');
    TrimNewlinesKeepsTabs(line);
  }

  lemma {:induction false} SplitOnRunsSingle(s: string)
    requires NoDoubleSpace(s)
    ensures SplitOnRuns(s) == [s]
  {
    assert FirstRun(s) == |s|;
  }

  lemma NoDoubleSpaceSlice(s: string, a: nat, b: nat)
    requires a <= b <= |s|
    requires NoDoubleSpace(s)
    ensures NoDoubleSpace(s[a..b])
  {
    var t := s[a..b];
    forall k | 0 <= k < |t| ensures !DoubleSpace(t, k) {
      assert !DoubleSpace(s, a + k);
      if k + 1 < |t| {
        assert t[k] == s[a + k] && t[k + 1] == s[a + k + 1];
      }
    }
  }

  lemma StripNoDoubleSpace(line: string)
    requires NoDoubleSpace(line)
    ensures NoDoubleSpace(Strip(line))
  {
    StripIsSlice(line);
    NoDoubleSpaceSlice(line, |line| - |TrimStart(line, IsSpace)|, |line| - |TrimStart(line, IsSpace)| + |Strip(line)|);
  }

  /** A row without tabs and without two whitespace characters in a row is one cell: a single space never separates. */
  lemma SplitLineSingleSpace(line: string)
    requires '\t' !in line
    requires NoDoubleSpace(line)
    ensures SplitLine(line) == [Strip(line)]
  {
    var s := Strip(line);
    StripNoDoubleSpace(line);
    assert SplitLine(line) == StripAll(SplitOnRuns(s));
    SplitOnRunsSingle(s);
    StripIdempotent(line);
    assert StripAll([s]) == [s];
  }

  /** Joins the pieces back, putting the given separator runs between neighbours. */
  function Interleave(pieces: seq<string>, seps: seq<string>): string
    requires |pieces| == |seps| + 1
  {
    if seps == [] then pieces[0] else pieces[0] + seps[0] + Interleave(pieces[1..], seps[1..])
  }

  /** A separator run: two or more whitespace characters. */
  predicate IsRun(sep: string)
  {
    |sep| >= 2 && forall k :: 0 <= k < |sep| ==> IsSpace(sep[k])
  }

  predicate AllRuns(seps: seq<string>)
  {
    seps == [] || (IsRun(seps[0]) && AllRuns(seps[1..]))
  }

  /** The whitespace runs `SplitOnRuns` cuts at, in order. */
  function SeparatorRuns(s: string): (seps: seq<string>)
    ensures |seps| == |SplitOnRuns(s)| - 1
    decreases |s|
  {
    var i := FirstRun(s);
    if i == |s| then []
    else
      var rest := TrimStart(s[i..], IsSpace);
      assert s[i..] != [] && IsSpace(s[i..][0]);
      [s[i..|s| - |rest|]] + SeparatorRuns(rest)
  }

  predicate PiecesNoDoubleSpace(pieces: seq<string>)
  {
    pieces == [] || (NoDoubleSpace(pieces[0]) && PiecesNoDoubleSpace(pieces[1..]))
  }

  predicate EndsClean(piece: string) { piece == [] || !IsSpace(piece[|piece| - 1]) }

  predicate StartsClean(piece: string) { piece == [] || !IsSpace(piece[0]) }

  /**
   * Between neighbouring pieces, the left one does not end and the right one
   * does not start with whitespace: each separator run is maximal.
   */
  predicate MaximalRuns(pieces: seq<string>)
  {
    |pieces| <= 1 || (EndsClean(pieces[0]) && StartsClean(pieces[1]) && MaximalRuns(pieces[1..]))
  }

  lemma PrefixNoDoubleSpace(s: string, i: nat)
    requires i <= |s|
    requires forall k :: 0 <= k < i ==> !DoubleSpace(s, k)
    ensures NoDoubleSpace(s[..i])
  {
    forall k | 0 <= k < i ensures !DoubleSpace(s[..i], k) {
      assert !DoubleSpace(s, k);
    }
  }

  /** No piece of `SplitOnRuns(s)` holds two whitespace characters side by side. */
  lemma {:induction false} SplitOnRunsNoDoubleSpace(s: string)
    ensures PiecesNoDoubleSpace(SplitOnRuns(s))
    decreases |s|
  {
    var i := FirstRun(s);
    PrefixNoDoubleSpace(s, i);
    if i < |s| {
      var rest := TrimStart(s[i..], IsSpace);
      SplitOnRunsNoDoubleSpace(rest);
      var r := [s[..i]] + SplitOnRuns(rest);
      assert SplitOnRuns(s) == r;
      assert r[1..] == SplitOnRuns(rest);
    } else {
      assert s[..i] == s;
    }
  }

  /** When the text does not start with whitespace, neither does its first piece. */
  lemma FirstPieceStartsClean(s: string)
    requires StartsClean(s)
    ensures StartsClean(SplitOnRuns(s)[0])
  {
    var i := FirstRun(s);
    if i < |s| && i > 0 {
      assert SplitOnRuns(s)[0] == s[..i];
      assert s[..i][0] == s[0];
    }
  }

  /** What follows the first double space: the run is at least two long and is all whitespace. */
  lemma AfterRun(s: string, i: nat)
    requires i < |s| && DoubleSpace(s, i)
    ensures var rest := TrimStart(s[i..], IsSpace);
      && i + 2 <= |s| - |rest|
      && rest == s[|s| - |rest|..]
      && IsRun(s[i..|s| - |rest|])
      && s == s[..i] + s[i..|s| - |rest|] + rest
      && StartsClean(rest)
  {
    var t := s[i..];
    var rest := TrimStart(t, IsSpace);
    TrimStartSpec(t, IsSpace);
    assert t[0] == s[i] && t[1] == s[i + 1];
    TrimStartDropsPrefix(t, 2, IsSpace);
    var sep := s[i..|s| - |rest|];
    forall k | 0 <= k < |sep| ensures IsSpace(sep[k]) {
      assert sep[k] == t[k];
    }
  }

  /** The piece before the first double space does not end with whitespace. */
  lemma PieceBeforeRunEndsClean(s: string, i: nat)
    requires i < |s| && DoubleSpace(s, i)
    requires forall k :: 0 <= k < i ==> !DoubleSpace(s, k)
    ensures EndsClean(s[..i])
  {
    if i > 0 {
      assert !DoubleSpace(s, i - 1);
      assert s[..i][i - 1] == s[i - 1];
    }
  }

  /** The whitespace runs `SplitOnRuns` cuts at are maximal. */
  lemma {:induction false} SplitOnRunsMaximal(s: string)
    ensures MaximalRuns(SplitOnRuns(s))
    decreases |s|
  {
    var i := FirstRun(s);
    if i < |s| {
      var rest := TrimStart(s[i..], IsSpace);
      var tail := SplitOnRuns(rest);
      SplitOnRunsMaximal(rest);
      TrimStartSpec(s[i..], IsSpace);
      FirstPieceStartsClean(rest);
      PieceBeforeRunEndsClean(s, i);
      var r := [s[..i]] + tail;
      assert SplitOnRuns(s) == r;
      assert r[1..] == tail && r[1] == tail[0];
    }
  }

  /** Putting the separator runs back between the pieces of `SplitOnRuns(s)` gives `s`; each separator is two or more whitespace characters. */
  lemma {:induction false} SplitOnRunsRebuilds(s: string)
    ensures AllRuns(SeparatorRuns(s))
    ensures Interleave(SplitOnRuns(s), SeparatorRuns(s)) == s
    decreases |s|
  {
    var i := FirstRun(s);
    if i < |s| {
      var rest := TrimStart(s[i..], IsSpace);
      AfterRun(s, i);
      var sep := s[i..|s| - |rest|];
      var pieces := [s[..i]] + SplitOnRuns(rest);
      var seps := [sep] + SeparatorRuns(rest);
      assert SplitOnRuns(s) == pieces && SeparatorRuns(s) == seps;
      SplitOnRunsRebuilds(rest);
      assert seps[1..] == SeparatorRuns(rest) && pieces[1..] == SplitOnRuns(rest);
    }
  }

  // ---------------------------------------------------------- parse_numeric

  /** The value of one table cell after numeric parsing. */
  datatype Cell =
    | Absent                     // Python None
    | NotApplicable              // the string 'N/A'
    | Integer(value: int)        // a Python int
    | Decimal(literal: string)   // a Python float, kept as its literal text
    | Text(raw: string)          // anything else, returned as the stripped text

  /** Splits off an optional leading sign: whether it was '-', and the rest. */
  function SignAndDigits(t: string): (bool, string)
  {
    if t != [] && (t[0] == '+' || t[0] == '-') then (t[0] == '-', t[1..]) else (false, t)
  }

  /** What Python's `int()` accepts here: an optional sign and one or more ASCII digits. */
  predicate IsIntLiteral(t: string)
  {
    var (_, digits) := SignAndDigits(t);
    digits != [] && AllDigits(digits)
  }

  function IntLiteralValue(t: string): int
    requires IsIntLiteral(t)
  {
    var (negative, digits) := SignAndDigits(t);
    var v: int := DigitsValue(digits);
    if negative then -v else v
  }

  /** What Python's `float()` accepts here: an optional sign, digits, one '.', digits, with a digit somewhere. */
  predicate IsDecimalLiteral(t: string)
  {
    var (_, body) := SignAndDigits(t);
    var dot := IndexOf(body, '.');
    dot < |body| && |body| >= 2 && AllDigits(body[..dot]) && AllDigits(body[dot + 1..])
  }

  /**
   * parse_numeric: `None` and blank text give Absent; 'N/A' in any letter case
   * gives NotApplicable; text holding a '.' is a float when it is a decimal
   * literal; other text is an int when it is an integer literal; whatever fails
   * both comes back as the stripped text.
   */
  function ParseNumeric(value: Option<string>): (r: Cell)
    ensures r.Text? ==> value.Some? && r.raw == Strip(value.value) && r.raw != []
    ensures r.Decimal? ==> value.Some? && '.' in r.literal && r.literal == Strip(value.value)
  {
    match value
    case None => Absent
    case Some(raw) =>
      var t := Strip(raw);
      if t == [] then Absent
      else if Upper(t) == "N/A" then NotApplicable
      else if '.' in t then (if IsDecimalLiteral(t) then Decimal(t) else Text(t))
      else if IsIntLiteral(t) then Integer(IntLiteralValue(t))
      else Text(t)
  }

  /** A cell is Absent exactly when there is no text or the text is blank. */
  lemma ParseNumericAbsent(value: Option<string>)
    ensures ParseNumeric(value) == Absent <==> value.None? || Strip(value.value) == []
  {
  }

  /** 'N/A' is recognised in any letter case and with surrounding whitespace. */
  lemma ParseNumericNotApplicable(raw: string)
    ensures ParseNumeric(Some(raw)) == NotApplicable <==> Upper(Strip(raw)) == "N/A"
  {
  }

  lemma NoSpaceInDigits(s: string)
    requires AllDigits(s)
    ensures forall k :: 0 <= k < |s| ==> !IsSpace(s[k]) && s[k] != '.'
  {
  }

  /** Every character of a rendered integer is a digit, except a leading minus sign. */
  lemma IntToStringChars(n: int)
    ensures var t := IntToString(n);
      IsDigit(t[|t| - 1]) && forall k :: 0 <= k < |t| ==> IsDigit(t[k]) || (k == 0 && t[k] == '-')
  {
    var t := IntToString(n);
    if n < 0 {
      var digits := NatToString(-n);
      assert t == "-" + digits;
      assert forall k :: 1 <= k < |t| ==> t[k] == digits[k - 1];
    }
  }

  /** A rendered integer is an integer literal for the same value. */
  lemma IntToStringLiteral(n: int)
    ensures IsIntLiteral(IntToString(n)) && IntLiteralValue(IntToString(n)) == n
  {
    var t := IntToString(n);
    if n < 0 {
      var digits := NatToString(-n);
      assert t == "-" + digits;
      assert t[1..] == digits;
      assert SignAndDigits(t) == (true, digits);
      NatToStringRoundTrip(-n);
    } else {
      assert IsDigit(t[0]);
      assert SignAndDigits(t) == (false, t);
      NatToStringRoundTrip(n);
    }
  }

  /** The decimal rendering of an integer: stripped, no '.', no parentheses or commas, and an integer literal for the same value. */
  lemma IntToStringShape(n: int)
    ensures var t := IntToString(n);
      t != [] && IsStripped(t) && '.' !in t && ParenFree(t) && ',' !in t
      && Upper(t) != "N/A" && IsIntLiteral(t) && IntLiteralValue(t) == n
  {
    var t := IntToString(n);
    IntToStringChars(n);
    IntToStringLiteral(n);
    assert Upper(t)[|t| - 1] == t[|t| - 1];
  }

  /** Rendering an integer and parsing it back gives the integer, whatever whitespace surrounds it. */
  lemma ParseNumericIntRoundTrip(n: int, before: string, after: string)
    requires forall k :: 0 <= k < |before| ==> IsSpace(before[k])
    requires forall k :: 0 <= k < |after| ==> IsSpace(after[k])
    ensures ParseNumeric(Some(before + IntToString(n) + after)) == Integer(n)
  {
    IntToStringShape(n);
    StripAround(before, IntToString(n), after);
  }

  /** An integer literal is stripped text with no '.', and not 'N/A'. */
  lemma IntLiteralShape(t: string)
    requires IsIntLiteral(t)
    ensures t != [] && IsStripped(t) && '.' !in t && Upper(t) != "N/A"
  {
    var (_, digits) := SignAndDigits(t);
    assert forall k :: 0 <= k < |t| ==> IsDigit(t[k]) || (k == 0 && (t[k] == '+' || t[k] == '-')) by {
      if t[0] == '+' || t[0] == '-' {
        assert forall k :: 1 <= k < |t| ==> t[k] == digits[k - 1];
      }
    }
    assert Upper(t)[|t| - 1] == t[|t| - 1];
  }

  /** Any integer literal, whatever whitespace surrounds it, is read as its value. */
  lemma ParseNumericIntLiteral(t: string, before: string, after: string)
    requires forall k :: 0 <= k < |before| ==> IsSpace(before[k])
    requires forall k :: 0 <= k < |after| ==> IsSpace(after[k])
    requires IsIntLiteral(t)
    ensures ParseNumeric(Some(before + t + after)) == Integer(IntLiteralValue(t))
  {
    IntLiteralShape(t);
    StripAround(before, t, after);
  }

  /**
   * A signed or unsigned literal with leading zeros, such as "+1", "-2" or
   * "007", is read as the integer it denotes.
   */
  lemma ParseNumericSignedLiteral(z: nat, n: nat, before: string, after: string)
    requires forall k :: 0 <= k < |before| ==> IsSpace(before[k])
    requires forall k :: 0 <= k < |after| ==> IsSpace(after[k])
    ensures ParseNumeric(Some(before + ("+" + (Zeros(z) + NatToString(n))) + after)) == Integer(n)
    ensures ParseNumeric(Some(before + ("-" + (Zeros(z) + NatToString(n))) + after)) == Integer(-(n as int))
    ensures ParseNumeric(Some(before + (Zeros(z) + NatToString(n)) + after)) == Integer(n)
  {
    var d := Zeros(z) + NatToString(n);
    LeadingZerosValue(z, NatToString(n));
    NatToStringRoundTrip(n);
    assert IsDigit(d[0]);
    assert SignAndDigits(d) == (false, d);
    assert ("+" + d)[1..] == d && ("-" + d)[1..] == d;
    ParseNumericIntLiteral("+" + d, before, after);
    ParseNumericIntLiteral("-" + d, before, after);
    ParseNumericIntLiteral(d, before, after);
  }

  /** The accuracy column's "+1", and "-2" and "007", are read as 1, -2 and 7. */
  lemma ParseNumericLiteralExamples()
    ensures ParseNumeric(Some("+1")) == Integer(1)
    ensures ParseNumeric(Some("-2")) == Integer(-2)
    ensures ParseNumeric(Some("007")) == Integer(7)
  {
    assert NatToString(1) == ['1'] && NatToString(2) == ['2'] && NatToString(7) == ['7'];
    assert Zeros(0) == [] && Zeros(2) == ['0', '0'] by {
      assert Zeros(1) == ['0'];
    }
    ParseNumericSignedLiteral(0, 1, "", "");
    assert "" + ("+" + (Zeros(0) + NatToString(1))) + "" == "+1";
    ParseNumericSignedLiteral(0, 2, "", "");
    assert "" + ("-" + (Zeros(0) + NatToString(2))) + "" == "-2";
    ParseNumericSignedLiteral(2, 7, "", "");
    assert "" + (Zeros(2) + NatToString(7)) + "" == "007";
  }

  /** Text that is neither blank, nor 'N/A', nor a number literal comes back unchanged (after stripping). */
  lemma ParseNumericKeepsText(raw: string)
    requires Strip(raw) != [] && Upper(Strip(raw)) != "N/A"
    requires !IsIntLiteral(Strip(raw)) && !IsDecimalLiteral(Strip(raw))
    ensures ParseNumeric(Some(raw)) == Text(Strip(raw))
  {
  }

  // ------------------------------------------------------------ parse_notes

  /** One note tag: a bare name, or a name with a parenthesised value. */
  datatype Note = Note(name: string, value: Option<Cell>)

  predicate ParenFree(s: string) { '(' !in s && ')' !in s }

  /**
   * The regular expression `^([^()]+)\(([^()]+)\)$`: a non-empty paren-free
   * head, '(', a non-empty paren-free payload, ')' and nothing after.
   */
  function MatchTag(part: string): Option<(string, string)>
  {
    var i := IndexOf(part, '(');
    if 0 < i && i + 2 < |part| && part[|part| - 1] == ')'
       && ParenFree(part[..i]) && ParenFree(part[i + 1..|part| - 1])
    then Some((part[..i], part[i + 1..|part| - 1]))
    else None
  }

  /** MatchTag finds a head and payload exactly when the part has the `head(payload)` shape. */
  lemma MatchTagIff(part: string, head: string, payload: string)
    ensures MatchTag(part) == Some((head, payload)) <==>
      (part == head + "(" + payload + ")" && head != [] && payload != [] && ParenFree(head) && ParenFree(payload))
  {
    if part == head + "(" + payload + ")" && head != [] && payload != [] && ParenFree(head) && ParenFree(payload) {
      assert part[|head|] == '(';
      assert forall k :: 0 <= k < |head| ==> part[k] == head[k];
      IndexOfFirst(part, '(', |head|);
      assert part[..|head|] == head;
      assert part[|head| + 1..|part| - 1] == payload;
    }
    if MatchTag(part) == Some((head, payload)) {
      var i := IndexOf(part, '(');
      assert part == part[..i] + "(" + part[i + 1..|part| - 1] + ")";
    }
  }

  function ParseNote(part: string): Note
  {
    match MatchTag(part)
    case Some((head, payload)) => Note(Strip(head), Some(ParseNumeric(Some(Strip(payload)))))
    case None => Note(part, None)
  }

  /** The stripped, non-blank comma-separated pieces of the notes text, in order. */
  function NoteParts(pieces: seq<string>): seq<string>
  {
    if pieces == [] then []
    else
      var rest := NoteParts(pieces[1..]);
      if Strip(pieces[0]) == [] then rest else [Strip(pieces[0])] + rest
  }

  /** Each note part is non-empty and already stripped. */
  lemma {:induction false} NotePartsClean(pieces: seq<string>)
    ensures forall k :: 0 <= k < |NoteParts(pieces)| ==> NoteParts(pieces)[k] != [] && IsStripped(NoteParts(pieces)[k])
  {
    if pieces != [] {
      NotePartsClean(pieces[1..]);
      StripSpec(pieces[0]);
    }
  }

  function ParseNoteList(parts: seq<string>): (r: seq<Note>)
    ensures |r| == |parts|
  {
    if parts == [] then [] else [ParseNote(parts[0])] + ParseNoteList(parts[1..])
  }

  /** parse_notes: one note per non-blank comma-separated part, in order. */
  function ParseNotes(notes: string): seq<Note>
  {
    if notes == [] then [] else ParseNoteList(NoteParts(Split(notes, ',')))
  }

  /** Every note has a non-empty, stripped name; a value is present exactly when the part matched the tag shape. */
  lemma {:induction false} ParseNotesNames(notes: string)
    ensures forall k :: 0 <= k < |ParseNotes(notes)| ==>
      ParseNotes(notes)[k].name != [] && IsStripped(ParseNotes(notes)[k].name)
  {
    if notes != [] {
      var parts := NoteParts(Split(notes, ','));
      NotePartsClean(Split(notes, ','));
      ParseNoteListNames(parts);
    }
  }

  lemma {:induction false} ParseNoteListNames(parts: seq<string>)
    requires forall k :: 0 <= k < |parts| ==> parts[k] != [] && IsStripped(parts[k])
    ensures forall k :: 0 <= k < |parts| ==> ParseNoteList(parts)[k].name != [] && IsStripped(ParseNoteList(parts)[k].name)
  {
    if parts != [] {
      ParseNoteListNames(parts[1..]);
      var p := parts[0];
      match MatchTag(p)
      case Some((head, payload)) =>
        MatchTagIff(p, head, payload);
        assert head[0] == p[0];
        StripSpec(head);
        assert !IsSpace(head[0]);
        StripEmptyIff(head);
      case None =>
    }
  }

  /** A note tag as written in the table: a name and an optional integer amount. */
  datatype Tag = Tag(name: string, amount: Option<int>)

  predicate ValidTagName(name: string)
  {
    name != [] && IsStripped(name) && ParenFree(name) && ',' !in name
  }

  function RenderTag(t: Tag): string
  {
    match t.amount
    case None => t.name
    case Some(n) => t.name + "(" + IntToString(n) + ")"
  }

  /** Each tag rendered with one space in front of it. */
  function RenderPieces(tags: seq<Tag>): seq<string>
  {
    if tags == [] then [] else [" " + RenderTag(tags[0])] + RenderPieces(tags[1..])
  }

  /** A notes column: the tags, each preceded by a space, joined by ","; parsing strips the spaces again. */
  function RenderNotes(tags: seq<Tag>): string
  {
    Join(RenderPieces(tags), ',')
  }

  function Expected(tags: seq<Tag>): seq<Note>
  {
    if tags == [] then []
    else
      var t := tags[0];
      [ExpectedNote(t)] + Expected(tags[1..])
  }

  function ExpectedNote(t: Tag): Note
  {
    Note(t.name, if t.amount.Some? then Some(Integer(t.amount.value)) else None)
  }

  lemma RenderTagChars(t: Tag)
    requires ValidTagName(t.name)
    ensures var s := RenderTag(t); s != [] && IsStripped(s) && ',' !in s
  {
    var s := RenderTag(t);
    if t.amount.Some? {
      var v := IntToString(t.amount.value);
      IntToStringShape(t.amount.value);
      assert s == t.name + "(" + v + ")";
      forall k | 0 <= k < |s| ensures s[k] != ',' {
        if k < |t.name| { assert s[k] == t.name[k]; }
        else if |t.name| < k < |t.name| + 1 + |v| { assert s[k] == v[k - |t.name| - 1]; }
      }
    }
  }

  /** A rendered tag parses back to its name and integer amount. */
  lemma ParseRenderedTag(t: Tag)
    requires ValidTagName(t.name)
    ensures ParseNote(RenderTag(t)) == ExpectedNote(t)
  {
    var s := RenderTag(t);
    match t.amount
    case None =>
      assert IndexOf(s, '(') == |s|;
    case Some(n) =>
      var v := IntToString(n);
      IntToStringShape(n);
      MatchTagIff(s, t.name, v);
      StripOfStripped(t.name);
      StripOfStripped(v);
      ParseNumericIntRoundTrip(n, [], []);
      assert [] + v + [] == v;
  }

  /** The rendered piece " tag" strips back to the tag and parses to the expected note. */
  lemma RenderPieceParses(t: Tag)
    requires ValidTagName(t.name)
    ensures ',' !in " " + RenderTag(t)
    ensures Strip(" " + RenderTag(t)) == RenderTag(t) != []
    ensures ParseNote(Strip(" " + RenderTag(t))) == ExpectedNote(t)
  {
    var s := RenderTag(t);
    RenderTagChars(t);
    StripAround(" ", s, []);
    assert " " + s + [] == " " + s;
    ParseRenderedTag(t);
    assert forall k :: 1 <= k < |" " + s| ==> (" " + s)[k] == s[k - 1];
  }

  lemma {:induction false} NoteRoundTripParts(tags: seq<Tag>)
    requires forall k :: 0 <= k < |tags| ==> ValidTagName(tags[k].name)
    ensures var pieces := RenderPieces(tags);
      |pieces| == |tags| && (forall k :: 0 <= k < |pieces| ==> ',' !in pieces[k])
      && ParseNoteList(NoteParts(pieces)) == Expected(tags)
  {
    if tags != [] {
      NoteRoundTripParts(tags[1..]);
      RenderPieceParses(tags[0]);
      var pieces := RenderPieces(tags);
      assert pieces[1..] == RenderPieces(tags[1..]);
    }
  }

  /**
   * Notes rendered as "name, name(amount), …" parse back to the same names
   * and integer amounts; no tags render as blank notes, which parse to none.
   */
  lemma NotesRoundTrip(tags: seq<Tag>)
    requires forall k :: 0 <= k < |tags| ==> ValidTagName(tags[k].name)
    ensures ParseNotes(RenderNotes(tags)) == Expected(tags)
  {
    var pieces := RenderPieces(tags);
    if tags == [] {
      assert pieces == [];
    } else {
      NoteRoundTripParts(tags);
      SplitJoin(pieces, ',');
      assert RenderNotes(tags) != [] by {
        assert pieces[0] == " " + RenderTag(tags[0]);
        if |pieces| > 1 {
          assert RenderNotes(tags) == pieces[0] + [','] + Join(pieces[1..], ',');
        }
      }
    }
  }

  // ------------------------------------------------------------------ slugify

  predicate IsSlugChar(c: char) { IsLowerAlnum(c) || c == '-' }

  /** Never two hyphens side by side. */
  predicate NoDoubleHyphen(s: string)
  {
    forall k :: 0 <= k < |s| - 1 ==> !(s[k] == '-' && s[k + 1] == '-')
  }

  /** The shape slugify guarantees: non-empty, `[a-z0-9-]` only, no hyphen at either end or doubled. */
  predicate IsSlug(s: string)
  {
    s != [] && AllSlugChars(s) && s[0] != '-' && s[|s| - 1] != '-' && NoDoubleHyphen(s)
  }

  /** `re.sub(r'[^a-z0-9]+', '-', s)`: every maximal run of other characters becomes one hyphen. */
  function ReplaceRuns(s: string, inRun: bool): (r: string)
    ensures AllSlugChars(r)
    ensures NoDoubleHyphen(r)
    ensures inRun ==> r == [] || r[0] != '-'
  {
    if s == [] then []
    else if IsLowerAlnum(s[0]) then [s[0]] + ReplaceRuns(s[1..], false)
    else if inRun then ReplaceRuns(s[1..], true)
    else ['-'] + ReplaceRuns(s[1..], true)
  }

  /** `re.sub(r'-{2,}', '-', s)`: every run of hyphens becomes one hyphen. */
  function CollapseHyphens(s: string, afterHyphen: bool): string
  {
    if s == [] then []
    else if s[0] == '-' then (if afterHyphen then CollapseHyphens(s[1..], true) else ['-'] + CollapseHyphens(s[1..], true))
    else [s[0]] + CollapseHyphens(s[1..], false)
  }

  function IsHyphen(c: char): bool { c == '-' }

  /** slugify: lower-case, hyphenate runs of non-alphanumerics, trim hyphens, collapse doubles, or 'weapon'. */
  function Slugify(name: string): string
  {
    var slug := Trim(ReplaceRuns(Lower(name), false), IsHyphen);
    var slug2 := CollapseHyphens(slug, false);
    if slug2 == [] then "weapon" else slug2
  }

  lemma {:induction false} CollapseHyphensFixed(s: string, afterHyphen: bool)
    requires NoDoubleHyphen(s)
    requires afterHyphen ==> s == [] || s[0] != '-'
    ensures CollapseHyphens(s, afterHyphen) == s
  {
    if s != [] {
      CollapseHyphensFixed(s[1..], s[0] == '-');
    }
  }

  lemma {:induction false} ReplaceRunsFixed(s: string, inRun: bool)
    requires AllSlugChars(s)
    requires NoDoubleHyphen(s)
    requires inRun ==> s == [] || s[0] != '-'
    ensures ReplaceRuns(s, inRun) == s
  {
    if s != [] {
      ReplaceRunsFixed(s[1..], s[0] == '-');
    }
  }

  predicate AllSlugChars(s: string)
  {
    forall k :: 0 <= k < |s| ==> IsSlugChar(s[k])
  }

  lemma SliceStaysClean(r: string, a: nat, b: nat)
    requires a <= b <= |r|
    requires AllSlugChars(r) && NoDoubleHyphen(r)
    ensures AllSlugChars(r[a..b]) && NoDoubleHyphen(r[a..b])
  {
    var t := r[a..b];
    assert forall k :: 0 <= k < |t| ==> t[k] == r[a + k];
  }

  /** Trimming hyphens from a hyphen-clean string leaves a string with no hyphen at either end and none doubled. */
  lemma TrimHyphensClean(r: string)
    requires AllSlugChars(r) && NoDoubleHyphen(r)
    ensures var slug := Trim(r, IsHyphen);
      AllSlugChars(slug) && NoDoubleHyphen(slug) && (slug == [] || (slug[0] != '-' && slug[|slug| - 1] != '-'))
  {
    var t := TrimStart(r, IsHyphen);
    var slug := TrimEnd(t, IsHyphen);
    TrimStartSpec(r, IsHyphen);
    TrimEndSpec(t, IsHyphen);
    SliceStaysClean(r, |r| - |t|, |r|);
    SliceStaysClean(t, 0, |slug|);
    if slug != [] {
      assert slug[0] == t[0];
    }
  }


  /** Whatever the name, the slug is non-empty, uses only `[a-z0-9-]`, and has no leading, trailing or doubled hyphen. */
  lemma SlugifyIsSlug(name: string)
    ensures IsSlug(Slugify(name))
  {
    var r := ReplaceRuns(Lower(name), false);
    TrimHyphensClean(r);
    var slug := Trim(r, IsHyphen);
    CollapseHyphensFixed(slug, false);
  }

  /** A slug is its own slug. */
  lemma SlugifyOfSlug(s: string)
    requires IsSlug(s)
    ensures Slugify(s) == s
  {
    assert Lower(s) == s;
    ReplaceRunsFixed(s, false);
    TrimStartFixed(s, IsHyphen);
    TrimEndFixed(s, IsHyphen);
    CollapseHyphensFixed(s, false);
  }

  /** Slugifying twice is slugifying once. */
  lemma SlugifyIdempotent(name: string)
    ensures Slugify(Slugify(name)) == Slugify(name)
  {
    SlugifyIsSlug(name);
    SlugifyOfSlug(Slugify(name));
  }
}
