/** The small derivation rules the extractors apply to names and columns:
    filename tokens, the `first_word` of a layer, the temporal range over the date
    columns, the line count behind a CSV row count, and the dispatch of a table
    on its extension. */
module Derive {
  import opened Outcomes
  import opened Strings
  import opened Paths

  // ---------------------------------------------------------------------------
  // Filename tokens

  /** `name_no_ext.replace("-", "_").split("_")`. */
  function FilenameTokens(nameNoExt: string): (tokens: seq<string>)
    ensures |tokens| >= 1
  {
    Split(Replace(nameNoExt, '-', '_'), '_')
  }

  /** The `filename_tokens` field: the tokens joined with ", ". */
  function FilenameTokensField(nameNoExt: string): string {
    Join(FilenameTokens(nameNoExt), ", ")
  }

  /** Every character of a piece of a split occurs in the split string. */
  lemma {:induction false} SplitPiecesWithin(s: string, c: char, k: int, x: char)
    requires 0 <= k < |Split(s, c)| && x in Split(s, c)[k]
    ensures x in s
    decreases |s|
  {
    if |s| > 0 {
      var r := Split(s[1..], c);
      if s[0] == c {
        assert Split(s, c)[k] == r[k - 1];
        SplitPiecesWithin(s[1..], c, k - 1, x);
      } else if k == 0 {
        if x != s[0] {
          assert x in r[0];
          SplitPiecesWithin(s[1..], c, 0, x);
        }
      } else {
        assert Split(s, c)[k] == r[k];
        SplitPiecesWithin(s[1..], c, k, x);
      }
    }
  }

  /** The tokens round-trip: joined with "_" they give back the name with its dashes
      turned into underscores, and no token holds a dash or an underscore. */
  lemma FilenameTokensRoundTrip(nameNoExt: string)
    ensures Join(FilenameTokens(nameNoExt), "_") == Replace(nameNoExt, '-', '_')
    ensures forall k :: 0 <= k < |FilenameTokens(nameNoExt)| ==>
              '_' !in FilenameTokens(nameNoExt)[k] && '-' !in FilenameTokens(nameNoExt)[k]
  {
    var s := Replace(nameNoExt, '-', '_');
    ReplaceChars(nameNoExt, '-', '_');
    JoinSplit(s, '_');
    SplitPiecesFree(s, '_');
    forall k | 0 <= k < |Split(s, '_')|
      ensures '-' !in Split(s, '_')[k]
    {
      if '-' in Split(s, '_')[k] {
        SplitPiecesWithin(s, '_', k, '-');
      }
    }
  }

  /** A name without dashes or underscores is a single token. */
  lemma SingleToken(nameNoExt: string)
    requires '-' !in nameNoExt && '_' !in nameNoExt
    ensures FilenameTokens(nameNoExt) == [nameNoExt]
  {
    ReplaceChars(nameNoExt, '-', '_');
    assert Replace(nameNoExt, '-', '_') == nameNoExt;
    SplitWithout(nameNoExt, '_');
  }

  // ---------------------------------------------------------------------------
  // first_word

  /** What calling `.split` on a missing layer name raises. */
  const NoneHasNoSplit: Exc := Exc(AttributeError, "'NoneType' object has no attribute 'split'")

  /** `parts = layer.split('_'); f"{parts[0]}_{parts[1]}"`. */
  function FirstWord(layer: Option<string>): Result<string> {
    match layer
    case None => Err(NoneHasNoSplit)
    case Some(l) =>
      var parts := Split(l, '_');
      if |parts| >= 2 then Ok(parts[0] + "_" + parts[1]) else Err(IndexOutOfRange)
  }

  /** A string splits into two or more pieces exactly when it holds the separator. */
  lemma SplitHasTwo(s: string, c: char)
    ensures |Split(s, c)| >= 2 <==> c in s
  {
    if c in s {
      var i :| 0 <= i < |s| && s[i] == c;
      assert s == s[..i] + [c] + s[i + 1..];
      SplitAround(s[..i], c, s[i + 1..]);
    } else {
      SplitWithout(s, c);
    }
  }

  /** A join starts with its first part. */
  lemma JoinStartsWithFirst(parts: seq<string>, sep: string)
    requires |parts| >= 1
    ensures StartsWith(Join(parts, sep), parts[0])
  {
  }

  /** `first_word` succeeds exactly when the layer name holds an underscore; it is
      then the first two underscore-separated words: a prefix of the name holding
      exactly one underscore, ending at the second underscore or at the end.  A missing layer raises AttributeError and a name
      without an underscore raises IndexError. */
  lemma FirstWordIsPrefix(layer: Option<string>)
    ensures FirstWord(layer).Ok? <==> layer.Some? && '_' in layer.value
    ensures layer.None? ==> FirstWord(layer) == Err(NoneHasNoSplit)
    ensures layer.Some? && '_' !in layer.value ==> FirstWord(layer) == Err(IndexOutOfRange)
    ensures FirstWord(layer).Ok? ==>
              StartsWith(layer.value, FirstWord(layer).value) &&
              exists a, b :: FirstWord(layer).value == a + "_" + b && '_' !in a && '_' !in b
    ensures FirstWord(layer).Ok? ==>
              |FirstWord(layer).value| == |layer.value| || layer.value[|FirstWord(layer).value|] == '_'
  {
    if layer.Some? {
      var l := layer.value;
      var parts := Split(l, '_');
      SplitHasTwo(l, '_');
      if |parts| >= 2 {
        SplitPiecesFree(l, '_');
        JoinSplit(l, '_');
        JoinCons(parts[0], parts[1..], "_");
        assert parts == [parts[0]] + parts[1..];
        JoinStartsWithFirst(parts[1..], "_");
        assert parts[1..][0] == parts[1];
        var w := parts[0] + "_" + parts[1];
        var rest := Join(parts[1..], "_");
        assert l == parts[0] + "_" + rest;
        assert rest[..|parts[1]|] == parts[1];
        assert l[..|w|] == w;
        assert '_' !in parts[0] && '_' !in parts[1];
        if |parts| > 2 {
          JoinCons(parts[1], parts[2..], "_");
          assert parts[1..] == [parts[1]] + parts[2..];
        } else {
          assert parts[1..] == [parts[1]];
        }
      }
    }
  }

  // ---------------------------------------------------------------------------
  // Temporal range

  /** The columns whose dates are gathered, in this order (helper_functions.py line 23). */
  const DateColumns: seq<string> := ["Timestamp", "Date_", "StartDate", "EndDate"]

  /** One column of a frame: its name, its dtype as read, its dtype once converted
      by `pd.to_datetime`, and the converted values (None for an unparsable cell),
      dates being seconds on a common clock. */
  datatype Column = Column(name: string, dtype: string, dateDtype: string, parsed: seq<Option<int>>)

  /** The column names in frame order. */
  function ColumnNames(cols: seq<Column>): (names: seq<string>)
    ensures |names| == |cols|
    ensures forall i :: 0 <= i < |cols| ==> names[i] == cols[i].name
  {
    seq(|cols|, i requires 0 <= i < |cols| => cols[i].name)
  }

  /** `[c for c in candidates if c in names]`. */
  function Present(candidates: seq<string>, names: seq<string>): (present: seq<string>)
    ensures forall c :: c in present <==> c in candidates && c in names
    decreases |candidates|
  {
    if |candidates| == 0 then []
    else
      var init := Present(DropLast(candidates), names);
      assert forall c :: c in candidates <==> c in DropLast(candidates) || c == Last(candidates);
      if Last(candidates) in names then init + [Last(candidates)] else init
  }

  /** `df[name]`: the first column of that name. */
  function ColumnNamed(cols: seq<Column>, name: string): (c: Column)
    requires name in ColumnNames(cols)
    ensures c in cols && c.name == name
    decreases |cols|
  {
    if cols[0].name == name then cols[0]
    else
      assert ColumnNames(cols) == [cols[0].name] + ColumnNames(cols[1..]);
      ColumnNamed(cols[1..], name)
  }

  /** `series.dropna()` on parsed values. */
  function NonNull(xs: seq<Option<int>>): (ys: seq<int>)
    ensures forall y :: y in ys <==> Some(y) in xs
    decreases |xs|
  {
    if |xs| == 0 then []
    else
      var init := NonNull(DropLast(xs));
      assert forall o :: o in xs <==> o in DropLast(xs) || o == Last(xs);
      if Last(xs).Some? then init + [Last(xs).value] else init
  }

  /** `pd.concat([df[c].dropna() for c in present])`. */
  function DatesOf(cols: seq<Column>, present: seq<string>): seq<int>
    requires forall c :: c in present ==> c in ColumnNames(cols)
    decreases |present|
  {
    if |present| == 0 then []
    else DatesOf(cols, DropLast(present)) + NonNull(ColumnNamed(cols, Last(present)).parsed)
  }

  /** The date columns a frame has. */
  function PresentDateColumns(cols: seq<Column>): seq<string> {
    Present(DateColumns, ColumnNames(cols))
  }

  /** All non-null dates of the date columns a frame has. */
  function AllDates(cols: seq<Column>): seq<int> {
    DatesOf(cols, PresentDateColumns(cols))
  }

  /** A date is gathered exactly when some present date column parsed to it. */
  lemma {:induction false} DatesOfMembers(cols: seq<Column>, present: seq<string>, x: int)
    requires forall c :: c in present ==> c in ColumnNames(cols)
    ensures x in DatesOf(cols, present) <==>
            exists c :: c in present && Some(x) in ColumnNamed(cols, c).parsed
    decreases |present|
  {
    if |present| > 0 {
      var init := DropLast(present);
      assert forall c :: c in present <==> c in init || c == Last(present);
      DatesOfMembers(cols, init, x);
      var lastDates := NonNull(ColumnNamed(cols, Last(present)).parsed);
      assert DatesOf(cols, present) == DatesOf(cols, init) + lastDates;
      if x in lastDates {
        assert Last(present) in present;
      }
      if exists c :: c in present && Some(x) in ColumnNamed(cols, c).parsed {
        var c :| c in present && Some(x) in ColumnNamed(cols, c).parsed;
        if c != Last(present) {
          assert c in init;
        }
      }
    }
  }

  /** `all_dates` is the union of the non-null parsed dates of the date columns
      present, and nothing else. */
  lemma AllDatesIsUnion(cols: seq<Column>, x: int)
    ensures x in AllDates(cols) <==>
            exists c :: c in DateColumns && c in ColumnNames(cols) && Some(x) in ColumnNamed(cols, c).parsed
  {
    DatesOfMembers(cols, PresentDateColumns(cols), x);
  }

  /** `min` of a non-empty sequence. */
  function MinOf(xs: seq<int>): (m: int)
    requires |xs| > 0
    ensures m in xs && forall x :: x in xs ==> m <= x
    decreases |xs|
  {
    if |xs| == 1 then
      assert xs == [xs[0]];
      xs[0]
    else
      var m := MinOf(DropLast(xs));
      assert forall x :: x in xs ==> x in DropLast(xs) || x == Last(xs);
      if Last(xs) < m then Last(xs) else m
  }

  /** `max` of a non-empty sequence. */
  function MaxOf(xs: seq<int>): (m: int)
    requires |xs| > 0
    ensures m in xs && forall x :: x in xs ==> x <= m
    decreases |xs|
  {
    if |xs| == 1 then
      assert xs == [xs[0]];
      xs[0]
    else
      var m := MaxOf(DropLast(xs));
      assert forall x :: x in xs ==> x in DropLast(xs) || x == Last(xs);
      if Last(xs) > m then Last(xs) else m
  }

  /** What the temporal block finds: no date column, date columns without a
      single parsable date, or the earliest and latest date. */
  datatype DateRange = NoDateColumns | NoDates | Range(min: int, max: int)

  /** The temporal block of the extractors. */
  function Temporal(cols: seq<Column>): (t: DateRange)
    ensures t.NoDateColumns? <==> |PresentDateColumns(cols)| == 0
    ensures t.NoDates? <==> |PresentDateColumns(cols)| > 0 && |AllDates(cols)| == 0
    ensures t.Range? ==> t.min <= t.max && t.min in AllDates(cols) && t.max in AllDates(cols) &&
                         forall x :: x in AllDates(cols) ==> t.min <= x <= t.max
  {
    var dates := AllDates(cols);
    if |PresentDateColumns(cols)| == 0 then NoDateColumns
    else if |dates| == 0 then NoDates
    else Range(MinOf(dates), MaxOf(dates))
  }

  // ---------------------------------------------------------------------------
  // Line count

  /** A line break character of Python's universal-newline reading. */
  predicate IsBreak(c: char) {
    c == '\n' || c == '\r'
  }

  /** The lines `for _ in open(path)` yields: each runs up to and including "\n",
      "\r" or "\r\n"; a final unterminated stretch is a line of its own. */
  function Lines(s: string): (ls: seq<string>)
    ensures |s| > 0 <==> |ls| > 0
    decreases |s|
  {
    if |s| == 0 then []
    else if s[0] == '\n' then ["\n"] + Lines(s[1..])
    else if s[0] == '\r' then
      if |s| > 1 && s[1] == '\n' then ["\r\n"] + Lines(s[2..]) else ["\r"] + Lines(s[1..])
    else
      var rest := Lines(s[1..]);
      if |rest| == 0 then [[s[0]]] else [[s[0]] + rest[0]] + rest[1..]
  }

  /** The lines laid end to end. */
  function Concat(ls: seq<string>): string
    decreases |ls|
  {
    if |ls| == 0 then "" else ls[0] + Concat(ls[1..])
  }

  /** A line as universal-newline reading delimits it: non-empty, a break only at
      its end (or "\r\n" there), and a break at its end unless it is the last. */
  predicate WellLine(l: string, last: bool) {
    |l| > 0 &&
    (forall i :: 0 <= i < |l| - 1 && IsBreak(l[i]) ==> i == |l| - 2 && l[i] == '\r' && l[i + 1] == '\n') &&
    (!last ==> IsBreak(l[|l| - 1]))
  }

  /** A cut between two lines that parts a "\r" from the "\n" right after it. */
  predicate CutsCrLf(a: string, b: string) {
    |a| > 0 && |b| > 0 && a[|a| - 1] == '\r' && b[0] == '\n'
  }

  /** The lines are exactly the text, cut at its breaks. */
  lemma {:induction false} LinesRoundTrip(s: string)
    ensures Concat(Lines(s)) == s
    ensures forall k :: 0 <= k < |Lines(s)| ==> WellLine(Lines(s)[k], k == |Lines(s)| - 1)
    decreases |s|
  {
    if |s| == 0 {
    } else if s[0] == '\n' {
      LinesRoundTrip(s[1..]);
      LinesCons("\n", s[1..]);
    } else if s[0] == '\r' {
      if |s| > 1 && s[1] == '\n' {
        LinesRoundTrip(s[2..]);
        LinesCons("\r\n", s[2..]);
        assert s == "\r\n" + s[2..];
      } else {
        LinesRoundTrip(s[1..]);
        LinesCons("\r", s[1..]);
      }
    } else {
      LinesRoundTrip(s[1..]);
      LinesGlue(s);
    }
  }

  /** No cut between the lines parts a "\r" from the "\n" right after it. */
  lemma {:induction false} LinesKeepCrLf(s: string)
    ensures forall k :: 0 <= k < |Lines(s)| - 1 ==> !CutsCrLf(Lines(s)[k], Lines(s)[k + 1])
    decreases |s|
  {
    if |s| == 0 {
    } else if s[0] == '\n' {
      LinesKeepCrLf(s[1..]);
      LinesRoundTrip(s[1..]);
      LinesConsUncut("\n", s[1..]);
    } else if s[0] == '\r' {
      if |s| > 1 && s[1] == '\n' {
        LinesKeepCrLf(s[2..]);
        LinesRoundTrip(s[2..]);
        LinesConsUncut("\r\n", s[2..]);
      } else {
        LinesKeepCrLf(s[1..]);
        LinesRoundTrip(s[1..]);
        LinesConsUncut("\r", s[1..]);
      }
    } else {
      LinesKeepCrLf(s[1..]);
      LinesRoundTrip(s[1..]);
      LinesGlueUncut(s);
    }
  }

  /** A break-terminated first line followed by the lines of the rest. */
  lemma LinesCons(first: string, rest: string)
    requires first == "\n" || first == "\r" || first == "\r\n"
    requires Concat(Lines(rest)) == rest
    requires forall k :: 0 <= k < |Lines(rest)| ==> WellLine(Lines(rest)[k], k == |Lines(rest)| - 1)
    ensures Concat([first] + Lines(rest)) == first + rest
    ensures forall k :: 0 <= k < |[first] + Lines(rest)| ==>
              WellLine(([first] + Lines(rest))[k], k == |[first] + Lines(rest)| - 1)
  {
    assert ([first] + Lines(rest))[1..] == Lines(rest);
  }

  /** A break line in front of the lines of the rest parts no "\r\n", as long as
      a lone "\r" is not followed by "\n". */
  lemma LinesConsUncut(first: string, rest: string)
    requires first == "\n" || first == "\r" || first == "\r\n"
    requires first == "\r" && |rest| > 0 ==> rest[0] != '\n'
    requires Concat(Lines(rest)) == rest
    requires |Lines(rest)| > 0 ==> |Lines(rest)[0]| > 0
    requires forall k :: 0 <= k < |Lines(rest)| - 1 ==> !CutsCrLf(Lines(rest)[k], Lines(rest)[k + 1])
    ensures forall k :: 0 <= k < |[first] + Lines(rest)| - 1 ==>
              !CutsCrLf(([first] + Lines(rest))[k], ([first] + Lines(rest))[k + 1])
  {
    if |Lines(rest)| > 0 {
      ConcatHead(Lines(rest));
    }
    NoCutAfter(first, Lines(rest));
  }

  /** A line put in front keeps the cuts whole when it does not part "\r\n" itself. */
  lemma NoCutAfter(first: string, ls: seq<string>)
    requires |ls| > 0 ==> !CutsCrLf(first, ls[0])
    requires forall k :: 0 <= k < |ls| - 1 ==> !CutsCrLf(ls[k], ls[k + 1])
    ensures forall k :: 0 <= k < |[first] + ls| - 1 ==> !CutsCrLf(([first] + ls)[k], ([first] + ls)[k + 1])
  {
    var all := [first] + ls;
    forall k | 0 <= k < |all| - 1
      ensures !CutsCrLf(all[k], all[k + 1])
    {
      assert all[k + 1] == ls[k];
      if k > 0 {
        assert all[k] == ls[k - 1];
      }
    }
  }

  /** The text of non-empty lines starts with the first line's first character. */
  lemma ConcatHead(ls: seq<string>)
    requires |ls| > 0 && |ls[0]| > 0
    ensures |Concat(ls)| > 0 && Concat(ls)[0] == ls[0][0]
  {
  }

  /** An ordinary first character joins the first line of the rest. */
  lemma LinesGlue(s: string)
    requires |s| > 0 && !IsBreak(s[0])
    requires Concat(Lines(s[1..])) == s[1..]
    requires forall k :: 0 <= k < |Lines(s[1..])| ==> WellLine(Lines(s[1..])[k], k == |Lines(s[1..])| - 1)
    ensures Concat(Lines(s)) == s
    ensures forall k :: 0 <= k < |Lines(s)| ==> WellLine(Lines(s)[k], k == |Lines(s)| - 1)
  {
    var rest := Lines(s[1..]);
    if |rest| == 0 {
      assert s == [s[0]];
    } else {
      var ls := Lines(s);
      assert ls == [[s[0]] + rest[0]] + rest[1..];
      GlueConcat(s[0], rest);
      assert s == [s[0]] + s[1..];
      GlueFirstLine(s[0], rest[0], 0 == |rest| - 1);
      forall k | 1 <= k < |ls|
        ensures WellLine(ls[k], k == |ls| - 1)
      {
        assert ls[k] == rest[k];
      }
    }
  }

  /** An ordinary first character leaves every cut where it was. */
  lemma LinesGlueUncut(s: string)
    requires |s| > 0 && !IsBreak(s[0])
    requires forall k :: 0 <= k < |Lines(s[1..])| ==> WellLine(Lines(s[1..])[k], k == |Lines(s[1..])| - 1)
    requires forall k :: 0 <= k < |Lines(s[1..])| - 1 ==> !CutsCrLf(Lines(s[1..])[k], Lines(s[1..])[k + 1])
    ensures forall k :: 0 <= k < |Lines(s)| - 1 ==> !CutsCrLf(Lines(s)[k], Lines(s)[k + 1])
  {
    var rest := Lines(s[1..]);
    if |rest| > 0 {
      var ls := Lines(s);
      assert ls == [[s[0]] + rest[0]] + rest[1..];
      forall k | 0 <= k < |ls| - 1
        ensures !CutsCrLf(ls[k], ls[k + 1])
      {
        assert ls[k + 1] == rest[k + 1];
        if k > 0 {
          assert ls[k] == rest[k];
        } else {
          assert ls[0][|ls[0]| - 1] == rest[0][|rest[0]| - 1];
        }
      }
    }
  }

  lemma GlueConcat(c: char, rest: seq<string>)
    requires |rest| > 0
    ensures Concat([[c] + rest[0]] + rest[1..]) == [c] + Concat(rest)
  {
    assert ([[c] + rest[0]] + rest[1..])[1..] == rest[1..];
  }

  lemma GlueFirstLine(c: char, l: string, last: bool)
    requires !IsBreak(c) && WellLine(l, last)
    ensures WellLine([c] + l, last)
  {
    var l0 := [c] + l;
    forall i | 0 <= i < |l0| - 1 && IsBreak(l0[i])
      ensures i == |l0| - 2 && l0[i] == '\r' && l0[i + 1] == '\n'
    {
      assert l0[i] == l[i - 1];
    }
  }

  /** Lines are cut uniquely: any way of cutting the text into well-formed lines
      that never parts "\r\n" is the one `Lines` gives, so the line count is fixed
      by the text. */
  lemma {:induction false} LinesUnique(ls: seq<string>)
    requires forall k :: 0 <= k < |ls| ==> WellLine(ls[k], k == |ls| - 1)
    requires forall k :: 0 <= k < |ls| - 1 ==> !CutsCrLf(ls[k], ls[k + 1])
    ensures Lines(Concat(ls)) == ls
    decreases |ls|
  {
    if |ls| > 0 {
      var tail := ls[1..];
      forall k | 0 <= k < |tail| - 1
        ensures !CutsCrLf(tail[k], tail[k + 1])
      {
        assert tail[k] == ls[k + 1] && tail[k + 1] == ls[k + 2];
      }
      forall k | 0 <= k < |tail|
        ensures WellLine(tail[k], k == |tail| - 1)
      {
        assert tail[k] == ls[k + 1];
      }
      LinesUnique(tail);
      if |tail| > 0 {
        ConcatHead(tail);
        assert !CutsCrLf(ls[0], ls[1]);
      }
      LineThenRest(ls[0], Concat(tail));
      assert ls == [ls[0]] + tail;
    }
  }

  /** A well-formed line in front of a text adds just that line, provided it ends
      in a break when text follows and does not part "\r\n". */
  lemma {:induction false} LineThenRest(l: string, t: string)
    requires |l| > 0
    requires forall i :: 0 <= i < |l| - 1 && IsBreak(l[i]) ==> i == |l| - 2 && l[i] == '\r' && l[i + 1] == '\n'
    requires |t| > 0 ==> IsBreak(l[|l| - 1])
    requires |t| > 0 && l[|l| - 1] == '\r' ==> t[0] != '\n'
    ensures Lines(l + t) == [l] + Lines(t)
    decreases |l|
  {
    var s := l + t;
    assert s[0] == l[0];
    if l[0] == '\n' {
      assert |l| == 1;
      assert l == "\n";
      assert s[1..] == t;
    } else if l[0] == '\r' {
      if |l| == 1 {
        assert l == "\r";
        assert s[1..] == t;
      } else {
        assert |l| == 2 && l == "\r\n";
        assert s[2..] == t;
      }
    } else if |l| == 1 {
      assert t == [] && s == l && s[1..] == [];
      assert l == [l[0]];
    } else {
      var l1 := l[1..];
      forall i | 0 <= i < |l1| - 1 && IsBreak(l1[i])
        ensures i == |l1| - 2 && l1[i] == '\r' && l1[i + 1] == '\n'
      {
        assert l1[i] == l[i + 1] && l1[i + 1] == l[i + 2];
      }
      assert l1[|l1| - 1] == l[|l| - 1];
      LineThenRest(l1, t);
      assert s[1..] == l1 + t;
      assert l == [l[0]] + l1;
    }
  }

  /** `sum(1 for _ in open(path)) - 1`: the lines less the header; -1 for an empty file. */
  function CsvRowCount(text: string): int {
    |Lines(text)| - 1
  }

  // ---------------------------------------------------------------------------
  // Table dispatch

  /** How a table is read, by its lower-cased extension. */
  datatype TableFormat = Csv | Excel | Unsupported

  /** The dispatch of `extract_table_metadata` on `ext`, already lower-cased. */
  function FormatOf(ext: string): TableFormat {
    if ext == ".csv" then Csv
    else if ext == ".xlsx" || ext == ".xls" then Excel
    else Unsupported
  }

  /** The `file_extension` of a path: the extension of its basename, lower-cased. */
  function FileExtension(path: string): string {
    Lower(SplitExt(Basename(path)).1)
  }

  /** The message for an extension nothing reads. */
  function UnsupportedType(ext: string): Exc {
    Exc(ValueError, "Unsupported file type: " + ext)
  }

  /** The dispatch ignores the case of the extension as written. */
  lemma FormatIgnoresCase()
    ensures FormatOf(Lower(".CSV")) == Csv
    ensures FormatOf(Lower(".XLSX")) == Excel
    ensures FormatOf(Lower(".Xls")) == Excel
    ensures FormatOf(Lower(".txt")) == Unsupported
  {
    assert Lower(".CSV") == ".csv";
    assert Lower(".XLSX") == ".xlsx";
    assert Lower(".Xls") == ".xls";
  }

  /** `a` and `b` spell the same text once ASCII letters are lower-cased. */
  predicate SameIgnoringCase(a: string, b: string) {
    |a| == |b| && forall i :: 0 <= i < |a| ==> LowerChar(a[i]) == LowerChar(b[i])
  }

  /** For every extension as written, the dispatch reads it as CSV exactly when
      it is ".csv" up to case, and as Excel exactly when it is ".xlsx" or ".xls"
      up to case. */
  lemma DispatchIgnoresCase(ext: string)
    ensures FormatOf(Lower(ext)) == Csv <==> SameIgnoringCase(ext, ".csv")
    ensures FormatOf(Lower(ext)) == Excel <==>
              SameIgnoringCase(ext, ".xlsx") || SameIgnoringCase(ext, ".xls")
  {
    LowerMatches(ext, ".csv");
    LowerMatches(ext, ".xlsx");
    LowerMatches(ext, ".xls");
  }

  /** Lower-casing gives an already lower-case text exactly when the two are
      the same up to case. */
  lemma LowerMatches(e: string, t: string)
    requires Lower(t) == t
    ensures Lower(e) == t <==> SameIgnoringCase(e, t)
  {
    LowerChars(e);
    LowerChars(t);
    if SameIgnoringCase(e, t) {
      assert forall i :: 0 <= i < |e| ==> Lower(e)[i] == t[i];
    }
  }
}
