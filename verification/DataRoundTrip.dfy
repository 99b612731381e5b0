/** Reading back printed lists, vectors and arrays, nested to any depth, and several data
    from one text. */
module DataRoundTrip {
  import opened Numerals
  import opened Syntax
  import opened Grammar
  import opened RoundTrip

  /** The dimensions that a printed array still shows: below an empty dimension there is
      nothing to see. */
  function Flattened(dims: seq<nat>): (shown: seq<nat>)
    ensures |shown| == |dims|
  {
    if dims == [] then []
    else if dims[0] == 0 then Zeros(|dims|)
    else [dims[0]] + Flattened(dims[1..])
  }

  function Zeros(n: nat): (zeros: seq<nat>)
    ensures |zeros| == n
  {
    if n == 0 then [] else [0] + Zeros(n - 1)
  }

  /** The data that are read back. */
  predicate Readable(d: Datum) {
    match d
    case Nil => true
    case Int(n) => |PrintInt(n)| <= READER_TOKEN_MAX - 1
    case Float(_) => false
    case Sym(name) => ReadableName(name) && name != "." && name != "READ-ERROR"
    case Str(text) => |text| <= READER_TOKEN_MAX - 1 && NulFree(text)
    case Char(_) => true
    case Pair(a, b) => Readable(a) && Readable(b)
    case Array(dims, data) => Flattened(dims) == dims && forall i :: 0 <= i < |data| ==> Readable(data[i])
  }

  /** Expressions begin with neither a blank, a comment nor a closing parenthesis. */
  predicate Opens(s: string) { Starts(s) && s[0] != ')' }

  lemma PrintOpens(d: Datum)
    requires WellFormed(d) && Readable(d)
    ensures Opens(Print(d))
  {
    if d.Int? {
      IntText(d.value);
    } else if d.Sym? {
      assert !IsDelimiter(d.name[0]);
    }
  }

  lemma SkipOneBlank(s: string)
    requires Opens(s)
    ensures SkipBlank(" " + s) == s && SkipBlank(s) == s
  {
    assert (" " + s)[1..] == s;
  }

  // ---------------------------------------------------------------- reading one datum

  lemma {:induction false} ReadPrinted(d: Datum, k: string)
    requires WellFormed(d) && Readable(d) && Delimited(k)
    ensures Opens(Print(d) + k)
    ensures ReadExpr(Print(d) + k) == Parsed(d, k)
    decreases d, Layers(d) + 2, 0, 0
  {
    PrintOpens(d);
    match d
    case Nil => NilReads(k);
    case Int(n) => IntReadsBackIff(n, k);
    case Float(_) =>
    case Sym(name) => NameReads(name, k);
    case Str(text) => StrReadsBackIff(text, k);
    case Char(c) => CharReads(c, k);
    case Pair(a, b) => ReadPrintedPair(d, k);
    case Array(dims, data) =>
      assert forall i :: 0 <= i < |data| ==> Readable(data[i]);
      ArrayReads(d, k);
  }

  lemma NilReads(k: string)
    requires Delimited(k)
    ensures ReadExpr("NIL" + k) == Parsed(Nil, k)
  {
    NilAtom("NIL");
    AtomReads("NIL", k);
  }

  lemma NilAtom(token: string)
    requires token == "NIL"
    ensures Plain(token) && Atom(token) == Nil
  {
    assert token[0..] == token;
    CStringWhole(token);
    assert Upper(token) == token;
    assert DigitValue(token[0], 10) == -1 && !IsFloatChar(token[0]);
  }

  /** A printed element between its separator and the rest of the list. */
  lemma Glue(separator: string, element: string, others: string, k: string)
    ensures separator + element + others + ")" + k == separator + (element + (others + ")" + k))
  {
  }

  lemma {:induction false} ReadPrintedPair(d: Datum, k: string)
    requires d.Pair? && WellFormed(d) && Readable(d)
    ensures ReadExpr(Print(d) + k) == Parsed(d, k)
    decreases d, Layers(d), 0, 0
  {
    TailDelimited(d.cdr, k);
    ReadPrinted(d.car, PrintTail(d.cdr) + ")" + k);
    ReadPrintedTail(d.cdr, k);
    ElementThenRest(true, Print(d.car), d.car, PrintTail(d.cdr), d.cdr, k);
    assert "" + Print(d.car) == Print(d.car);
    ListOpens(Print(d.car) + PrintTail(d.cdr), k);
  }

  lemma ListOpens(inside: string, k: string)
    ensures Opens("(" + inside + ")" + k)
    ensures ReadExpr("(" + inside + ")" + k) == ReadList(inside + ")" + k)
  {
    assert ("(" + inside + ")" + k)[1..] == inside + ")" + k;
  }

  lemma TailDelimited(d: Datum, k: string)
    requires WellFormed(d)
    ensures Delimited(PrintTail(d) + ")" + k)
  {
    if d.Nil? { assert PrintTail(d) + ")" + k == ")" + k; }
  }

  lemma RestEnds(k: string)
    ensures ReadRest(")" + k) == Parsed(Nil, k) && ReadList(")" + k) == Parsed(Nil, k)
  {
    assert (")" + k)[1..] == k;
  }

  lemma RestElement(t: string)
    requires Opens(t) && ReadExpr(t).datum != READ_ERROR && ReadExpr(t).datum != DOT
    ensures ReadRest(" " + t) == Linked(ReadExpr(t).datum, ReadRest(ReadExpr(t).rest))
  {
    SkipOneBlank(t);
  }

  lemma ListElement(t: string)
    requires Opens(t) && ReadExpr(t).datum != READ_ERROR && ReadExpr(t).datum != DOT
    ensures ReadList(t) == Linked(ReadExpr(t).datum, ReadRest(ReadExpr(t).rest))
  {
    SkipOneBlank(t);
  }

  lemma RestDotted(t: string, d: Datum, k: string)
    requires Opens(t) && ReadExpr(t) == Parsed(d, ")" + k) && d != READ_ERROR
    ensures ReadRest(" . " + t) == Parsed(d, k)
  {
    assert " . " + t == " " + (". " + t);
    DotReads(t);
    SkipOneBlank(". " + t);
    SkipOneBlank(t);
    AfterDot(t, d, k);
  }

  lemma AfterDot(t: string, d: Datum, k: string)
    requires Opens(t) && ReadExpr(t) == Parsed(d, ")" + k) && d != READ_ERROR
    ensures ReadAfterDot(" " + t) == Parsed(d, k)
  {
    SkipOneBlank(t);
    assert SkipBlank(")" + k) == ")" + k && (")" + k)[1..] == k;
  }

  /** `element` is the printed form of `d`, as far as the reader can tell. */
  ghost predicate ReadsAs(element: string, d: Datum, rest: string) {
    Opens(element + rest) && ReadExpr(element + rest) == Parsed(d, rest) && d != READ_ERROR && d != DOT
  }

  /** Before the first element of a list, or after one. */
  function ReadOn(first: bool, s: string): Parsed { if first then ReadList(s) else ReadRest(s) }

  function Separator(first: bool): string { if first then "" else " " }

  /** One more element in front of the rest of a list. */
  lemma ElementThenRest(first: bool, element: string, d: Datum, others: string, tail: Datum, k: string)
    requires ReadsAs(element, d, others + ")" + k)
    requires ReadRest(others + ")" + k) == Parsed(tail, k) && tail != READ_ERROR
    ensures ReadOn(first, Separator(first) + element + others + ")" + k) == Parsed(Pair(d, tail), k)
  {
    var t := element + (others + ")" + k);
    Glue(Separator(first), element, others, k);
    if first {
      assert "" + t == t;
      ListElement(t);
    } else {
      RestElement(t);
    }
  }

  lemma DottedTail(element: string, d: Datum, k: string)
    requires ReadsAs(element, d, ")" + k)
    ensures ReadRest(" . " + element + ")" + k) == Parsed(d, k)
  {
    assert " . " + element + ")" + k == " . " + (element + (")" + k));
    RestDotted(element + (")" + k), d, k);
  }

  /** The rest of a list after its first element, up to its parenthesis. */
  lemma {:induction false} ReadPrintedTail(d: Datum, k: string)
    requires WellFormed(d) && Readable(d)
    ensures ReadRest(PrintTail(d) + ")" + k) == Parsed(d, k)
    decreases d, Layers(d) + 3, 0, 0
  {
    if d.Nil? {
      assert PrintTail(d) + ")" + k == ")" + k;
      RestEnds(k);
    } else if d.Pair? {
      TailDelimited(d.cdr, k);
      ReadPrinted(d.car, PrintTail(d.cdr) + ")" + k);
      ReadPrintedTail(d.cdr, k);
      ElementThenRest(false, Print(d.car), d.car, PrintTail(d.cdr), d.cdr, k);
    } else {
      ReadPrinted(d, ")" + k);
      DottedTail(Print(d), d, k);
    }
  }

  lemma DotReads(k: string)
    ensures Starts(". " + k) && ReadExpr(". " + k) == Parsed(DOT, " " + k)
  {
    DotAtom(".");
    AtomReads(".", " " + k);
    assert "." + (" " + k) == ". " + k;
  }

  lemma DotAtom(token: string)
    requires token == "."
    ensures Plain(token) && Atom(token) == DOT
  {
    assert token[0..] == token;
    CStringWhole(token);
    assert Upper(token) == token;
    assert DigitValue(token[0], 10) == -1 && !IsDigit(token[0]);
  }

  // ---------------------------------------------------------------- arrays

  /** The nested lists that an array's printed form shows. */
  function Nested(a: Datum, level: nat, pos: nat): Datum
    requires a.Array? && WellFormed(a) && level <= |a.dims| && pos + Volume(a.dims, level) <= |a.data|
    decreases |a.dims| - level, 1, 0
  {
    if level == |a.dims| then a.data[pos] else RowList(a, level, 0, pos)
  }

  function RowList(a: Datum, level: nat, i: nat, pos: nat): (row: Datum)
    requires a.Array? && WellFormed(a) && level < |a.dims| && i <= a.dims[level]
    requires pos + RowVolume(a.dims, level, i) <= |a.data|
    ensures IsProper(row) && |Items(row)| == a.dims[level] - i
    decreases |a.dims| - level, 0, a.dims[level] - i
  {
    if i == a.dims[level] then Nil
    else
      var below := Volume(a.dims, level + 1);
      Pair(Nested(a, level + 1, pos), RowList(a, level, i + 1, pos + below))
  }

  ghost predicate ElementsReadable(a: Datum) {
    a.Array? && WellFormed(a) && forall i :: 0 <= i < |a.data| ==> Readable(a.data[i])
  }

  lemma LevelOpens(a: Datum, level: nat, pos: nat)
    requires ElementsReadable(a) && level <= |a.dims| && pos + Volume(a.dims, level) <= |a.data|
    ensures Opens(PrintLevel(a, level, pos))
    ensures Nested(a, level, pos) != READ_ERROR && Nested(a, level, pos) != DOT
  {
    if level == |a.dims| { PrintOpens(a.data[pos]); }
  }

  lemma {:induction false} ReadLevel(a: Datum, level: nat, pos: nat, k: string)
    requires ElementsReadable(a) && level <= |a.dims| && pos + Volume(a.dims, level) <= |a.data| && Delimited(k)
    ensures Opens(PrintLevel(a, level, pos) + k)
    ensures ReadExpr(PrintLevel(a, level, pos) + k) == Parsed(Nested(a, level, pos), k)
    decreases a, |a.dims| - level, 1, 0
  {
    LevelOpens(a, level, pos);
    if level == |a.dims| {
      ReadPrinted(a.data[pos], k);
    } else {
      ReadRow(a, level, 0, pos, k);
      ListOpens(PrintRow(a, level, 0, pos), k);
    }
  }

  lemma RowStep(first: bool, text: string, element: string, d: Datum, others: string, tail: Datum, k: string)
    requires text == Separator(first) + element + others && ReadsAs(element, d, others + ")" + k)
    requires ReadRest(others + ")" + k) == Parsed(tail, k) && tail != READ_ERROR
    ensures ReadOn(first, text + ")" + k) == Parsed(Pair(d, tail), k)
  {
    ElementThenRest(first, element, d, others, tail, k);
  }

  lemma RowEnds(a: Datum, level: nat, pos: nat, k: string)
    requires a.Array? && WellFormed(a) && level < |a.dims| && pos <= |a.data|
    ensures var s := PrintRow(a, level, a.dims[level], pos) + ")" + k;
            forall first :: ReadOn(first, s) == Parsed(RowList(a, level, a.dims[level], pos), k)
  {
    assert "" + ")" + k == ")" + k;
    RestEnds(k);
  }

  lemma RowText(a: Datum, level: nat, i: nat, pos: nat)
    requires a.Array? && WellFormed(a) && level < |a.dims| && i < a.dims[level]
    requires pos + RowVolume(a.dims, level, i) <= |a.data|
    ensures PrintRow(a, level, i, pos) == Separator(i == 0) + PrintLevel(a, level + 1, pos)
            + PrintRow(a, level, i + 1, pos + Volume(a.dims, level + 1))
  {
  }

  lemma {:induction false} ReadElement(a: Datum, level: nat, i: nat, pos: nat, k: string)
    requires ElementsReadable(a) && level < |a.dims| && i < a.dims[level]
    requires pos + RowVolume(a.dims, level, i) <= |a.data|
    ensures ReadsAs(PrintLevel(a, level + 1, pos), Nested(a, level + 1, pos),
                    PrintRow(a, level, i + 1, pos + Volume(a.dims, level + 1)) + ")" + k)
    decreases a, |a.dims| - level, 0, a.dims[level] - i, 0
  {
    var rest := pos + Volume(a.dims, level + 1);
    RowDelimited(a, level, i + 1, rest, k);
    LevelOpens(a, level + 1, pos);
    ReadLevel(a, level + 1, pos, PrintRow(a, level, i + 1, rest) + ")" + k);
  }

  /** The elements of a row from number `i` on, up to its parenthesis. */
  lemma {:induction false} ReadRow(a: Datum, level: nat, i: nat, pos: nat, k: string)
    requires ElementsReadable(a) && level < |a.dims| && i <= a.dims[level]
    requires pos + RowVolume(a.dims, level, i) <= |a.data|
    ensures var s := PrintRow(a, level, i, pos) + ")" + k;
            ReadOn(i == 0, s) == Parsed(RowList(a, level, i, pos), k)
    decreases a, |a.dims| - level, 0, a.dims[level] - i
  {
    if i == a.dims[level] {
      RowEnds(a, level, pos, k);
    } else {
      var below := Volume(a.dims, level + 1);
      ReadElement(a, level, i, pos, k);
      ReadRow(a, level, i + 1, pos + below, k);
      var element, others := PrintLevel(a, level + 1, pos), PrintRow(a, level, i + 1, pos + below);
      RowText(a, level, i, pos);
      RowStep(i == 0, PrintRow(a, level, i, pos), element, Nested(a, level + 1, pos), others,
              RowList(a, level, i + 1, pos + below), k);
    }
  }

  lemma RowDelimited(a: Datum, level: nat, i: nat, pos: nat, k: string)
    requires ElementsReadable(a) && level < |a.dims| && 0 < i <= a.dims[level]
    requires pos + RowVolume(a.dims, level, i) <= |a.data|
    ensures Delimited(PrintRow(a, level, i, pos) + ")" + k)
  {
    if i == a.dims[level] {
      assert PrintRow(a, level, i, pos) + ")" + k == ")" + k;
    } else {
      assert PrintRow(a, level, i, pos)[0] == ' ';
    }
  }

  /** Taking an array's nested lists apart again. */
  lemma {:induction false} NestedDimensions(a: Datum, level: nat, pos: nat)
    requires a.Array? && WellFormed(a) && level <= |a.dims| && pos + Volume(a.dims, level) <= |a.data|
    ensures Dimensions(|a.dims| - level, Nested(a, level, pos)) == Some(Flattened(a.dims[level..]))
    decreases |a.dims| - level
  {
    var dims := a.dims[level..];
    if level < |a.dims| {
      var n := a.dims[level];
      assert dims[1..] == a.dims[level + 1..];
      if n == 0 {
        NilDimensions(|a.dims| - level);
      } else {
        NestedDimensions(a, level + 1, pos);
      }
    }
  }

  lemma {:induction false} NilDimensions(rank: nat)
    ensures Dimensions(rank, Nil) == Some(Zeros(rank))
  {
    if rank > 0 { NilDimensions(rank - 1); }
  }

  lemma {:induction false} NestedFills(a: Datum, level: nat, pos: nat)
    requires a.Array? && WellFormed(a) && level <= |a.dims| && pos + Volume(a.dims, level) <= |a.data|
    ensures Fill(Nested(a, level, pos), Flattened(a.dims[level..])) == Some(a.data[pos..pos + Volume(a.dims, level)])
    decreases |a.dims| - level, 1, 0
  {
    var dims := a.dims[level..];
    if level == |a.dims| {
      assert a.data[pos..pos + 1] == [a.data[pos]];
    } else if a.dims[level] == 0 {
      assert a.data[pos..pos] == [];
    } else {
      assert dims[1..] == a.dims[level + 1..];
      RowFills(a, level, 0, pos, Volume(a.dims, level));
    }
  }

  lemma {:induction false} RowFills(a: Datum, level: nat, i: nat, pos: nat, len: nat)
    requires a.Array? && WellFormed(a) && level < |a.dims| && i <= a.dims[level] && a.dims[level] > 0
    requires len == RowVolume(a.dims, level, i) && pos + len <= |a.data|
    ensures FillRow(RowList(a, level, i, pos), Flattened(a.dims[level..])) == Some(a.data[pos..pos + len])
    decreases |a.dims| - level, 0, a.dims[level] - i
  {
    var shown := Flattened(a.dims[level..]);
    if i == a.dims[level] {
      assert a.data[pos..pos] == [];
    } else {
      var below := Volume(a.dims, level + 1);
      FlattenedTail(a.dims, level);
      NestedFills(a, level + 1, pos);
      RowFills(a, level, i + 1, pos + below, len - below);
      RowFillStep(Nested(a, level + 1, pos), RowList(a, level, i + 1, pos + below), shown);
      Slices(a.data, pos, below, len - below);
    }
  }

  lemma FlattenedTail(dims: seq<nat>, level: nat)
    requires level < |dims| && dims[level] > 0
    ensures Flattened(dims[level..])[1..] == Flattened(dims[level + 1..])
  {
    assert dims[level..][1..] == dims[level + 1..];
  }

  lemma RowFillStep(first: Datum, others: Datum, dims: seq<nat>)
    requires dims != [] && Fill(first, dims[1..]).Some? && FillRow(others, dims).Some?
    ensures FillRow(Pair(first, others), dims) == Some(Fill(first, dims[1..]).value + FillRow(others, dims).value)
  {
  }

  lemma Slices(data: seq<Datum>, pos: nat, m: nat, n: nat)
    requires pos + m + n <= |data|
    ensures data[pos..pos + m] + data[pos + m..pos + m + n] == data[pos..pos + (m + n)]
  {
  }

  /** What comes back of any array of readable elements: the same elements, with the
      dimensions below an empty one lost. */
  lemma ArrayReads(a: Datum, k: string)
    requires ElementsReadable(a) && Delimited(k)
    ensures Opens(Print(a) + k)
    ensures ReadExpr(Print(a) + k) == Parsed(Array(Flattened(a.dims), a.data), k)
    decreases a, |a.dims| + 1, 0, 0
  {
    ReadLevel(a, 0, 0, k);
    LevelOpens(a, 0, 0);
    if |a.dims| == 1 {
      NestedBack(a);
      VectorReads(a, k);
    } else {
      TableReads(a, k);
    }
  }

  lemma NestedBack(a: Datum)
    requires a.Array? && WellFormed(a)
    ensures Fill(Nested(a, 0, 0), Flattened(a.dims)) == Some(a.data)
    ensures ArrayFrom(|a.dims|, Nested(a, 0, 0)) == Array(Flattened(a.dims), a.data)
  {
    assert a.dims[0..] == a.dims && a.data[0..|a.data|] == a.data;
    NestedDimensions(a, 0, 0);
    NestedFills(a, 0, 0);
  }

  /** An array of any rank but 1. */
  lemma TableReads(a: Datum, k: string)
    requires a.Array? && WellFormed(a) && |a.dims| != 1
    requires Opens(PrintLevel(a, 0, 0) + k) && ReadExpr(PrintLevel(a, 0, 0) + k) == Parsed(Nested(a, 0, 0), k)
    requires Nested(a, 0, 0) != READ_ERROR
    ensures Opens(Print(a) + k)
    ensures ReadExpr(Print(a) + k) == Parsed(Array(Flattened(a.dims), a.data), k)
  {
    var t := PrintLevel(a, 0, 0) + k;
    NestedBack(a);
    PrefixReads(|a.dims|, t);
    assert Print(a) + k == ArrayPrefix(|a.dims|) + t;
  }

  /** The #nA prefix in front of an expression. */
  lemma PrefixReads(rank: nat, t: string)
    requires rank <= MAX_ARRAY_RANK && rank != 1 && Opens(t)
    ensures Starts(ArrayPrefix(rank) + t)
    ensures ReadExpr(ArrayPrefix(rank) + t) ==
            if ReadExpr(t).datum == READ_ERROR then ReadExpr(t)
                else Parsed(ArrayFrom(rank, ReadExpr(t).datum), ReadExpr(t).rest)
  {
    var blank := RankBlank(rank);
    var s := [DigitChar(rank)] + ("A" + (blank + t));
    Chain("#", [DigitChar(rank)], "A", blank, t);
    assert ("#" + s)[1..] == s;
    RankReads(rank, blank, t);
    HashDigit(s);
  }

  lemma Chain(a: string, b: string, c: string, d: string, e: string)
    ensures a + (b + (c + d)) + e == a + (b + (c + (d + e)))
  {
  }

  lemma HashDigit(s: string)
    requires s != "" && IsDigit(s[0])
    ensures ReadHash(s) == ReadArray(s)
  {
  }

  lemma RankReads(rank: nat, blank: string, t: string)
    requires rank <= MAX_ARRAY_RANK && Opens(t) && (blank == "" || blank == " ")
    ensures ReadArray([DigitChar(rank)] + ("A" + (blank + t))) ==
            if ReadExpr(t).datum == READ_ERROR then ReadExpr(t)
                else Parsed(ArrayFrom(rank, ReadExpr(t).datum), ReadExpr(t).rest)
  {
    RankStands(rank, 'A', blank + t);
    SkipOneBlank(t);
    assert "" + t == t;
    AfterRank([DigitChar(rank)] + ("A" + (blank + t)), t);
  }

  lemma RankStands(rank: nat, letter: char, t: string)
    requires rank <= MAX_ARRAY_RANK && (letter == 'A' || letter == 'a')
    ensures var s := [DigitChar(rank)] + ([letter] + t);
            DigitRun(s) == 1 && Rank(s) == rank && s[1] == letter && s[2..] == t
  {
    var u := [letter] + t;
    var s := [DigitChar(rank)] + u;
    assert s[1..] == u && s[..1] == [DigitChar(rank)] && u[1..] == t && s[2..] == u[1..];
    OneDigit(rank, 10);
    assert DigitRun(u) == 0 && DigitRun(s) == 1;
  }

  lemma AfterRank(s: string, t: string)
    requires DigitRun(s) == 1 && |s| >= 2 && (s[1] == 'A' || s[1] == 'a') && SkipBlank(s[2..]) == t && Opens(t)
    ensures ReadArray(s) ==
            if ReadExpr(t).datum == READ_ERROR then ReadExpr(t)
                else Parsed(ArrayFrom(Rank(s), ReadExpr(t).datum), ReadExpr(t).rest)
  {
  }

  lemma VectorReads(a: Datum, k: string)
    requires a.Array? && WellFormed(a) && |a.dims| == 1 && Delimited(k)
    requires Starts(PrintLevel(a, 0, 0) + k) && ReadExpr(PrintLevel(a, 0, 0) + k) == Parsed(Nested(a, 0, 0), k)
    requires Fill(Nested(a, 0, 0), Flattened(a.dims)) == Some(a.data)
    ensures ReadExpr(Print(a) + k) == Parsed(Array(Flattened(a.dims), a.data), k)
  {
    var t := PrintLevel(a, 0, 0) + k;
    assert Print(a) + k == "#" + t && ("#" + t)[1..] == t;
    HashList(t);
    var list := Nested(a, 0, 0);
    FillIsItems(list, a.dims);
    VectorDimension(a.dims);
    assert list == RowList(a, 0, 0, 0);
  }

  lemma VectorDimension(dims: seq<nat>)
    requires |dims| == 1
    ensures Flattened(dims) == dims && [dims[0]] == dims
  {
    assert Zeros(1) == [0] + Zeros(0);
    assert Flattened(dims[1..]) == [];
  }

  /** A vector literal is a # in front of a proper list. */
  lemma HashList(t: string)
    requires Starts(t) && t[0] == '(' && IsProper(ReadExpr(t).datum)
    ensures ReadHash(t) == Parsed(Array([|Items(ReadExpr(t).datum)|], Items(ReadExpr(t).datum)), ReadExpr(t).rest)
  {
    assert ReadExpr(t) == ReadList(t[1..]);
  }

  lemma {:induction false} FillIsItems(list: Datum, dims: seq<nat>)
    requires |dims| == 1
    ensures FillRow(list, dims) == Some(Items(list))
  {
    if list.Pair? { FillIsItems(list.cdr, dims); }
  }

  // ---------------------------------------------------------------- several data in one text

  predicate AllBlank(s: string) { forall i :: 0 <= i < |s| ==> IsWhitespace(s[i]) }

  /** Printed data, each followed by a gap. */
  function Text(data: seq<Datum>, gaps: seq<string>): string
    requires |gaps| == |data| && forall i :: 0 <= i < |data| ==> WellFormed(data[i])
  {
    if data == [] then "" else Print(data[0]) + (gaps[0] + Text(data[1..], gaps[1..]))
  }

  /** Gaps are blank; two data may touch when the second begins with a delimiter. */
  ghost predicate Spaced(data: seq<Datum>, gaps: seq<string>) {
    && |gaps| == |data|
    && (forall i :: 0 <= i < |data| ==> WellFormed(data[i]) && Readable(data[i]) && AllBlank(gaps[i]))
    && (forall i :: 0 <= i < |data| - 1 ==> gaps[i] != "" || Delimited(Print(data[i + 1])))
  }

  lemma {:induction false} BlanksSkipped(gap: string, s: string)
    requires AllBlank(gap)
    ensures SkipBlank(gap + s) == SkipBlank(s)
  {
    if gap == "" {
      assert "" + s == s;
    } else {
      assert (gap + s)[1..] == gap[1..] + s;
      BlanksSkipped(gap[1..], s);
    }
  }

  /** Data printed one after the other are read back as those data and nothing else. */
  lemma {:induction false} FormsReadBack(data: seq<Datum>, gaps: seq<string>)
    requires Spaced(data, gaps)
    ensures ReadForms(Text(data, gaps)) == data
  {
    if data != [] {
      var rest := Text(data[1..], gaps[1..]);
      RestDelimited(data, gaps);
      ReadPrinted(data[0], gaps[0] + rest);
      FormsReadBack(data[1..], gaps[1..]);
      BlanksSkipped(gaps[0], rest);
      SameForms(gaps[0] + rest, rest);
      assert ReadForms(Text(data, gaps)) == [data[0]] + ReadForms(gaps[0] + rest);
    }
  }

  lemma RestDelimited(data: seq<Datum>, gaps: seq<string>)
    requires Spaced(data, gaps) && data != []
    ensures Delimited(gaps[0] + Text(data[1..], gaps[1..]))
  {
    var rest := Text(data[1..], gaps[1..]);
    if gaps[0] == "" {
      assert gaps[0] + rest == rest;
      if |data| > 1 { PrintOpens(data[1]); }
    } else {
      assert (gaps[0] + rest)[0] == gaps[0][0];
    }
  }
}
