/** The ways to write a datum that the reader understands beside the printed one: abbreviations for
    quotations, names in either case, blanks and comments. */
module Spellings {
  import opened Numerals
  import opened Syntax
  import opened Grammar
  import opened RoundTrip
  import opened DataRoundTrip

  // ---------------------------------------------------------------- spellings

  datatype Mark = Quote | Quasiquote | Unquote | Splicing | Function

  function Prefix(mark: Mark): string {
    match mark
    case Quote => "'"
    case Quasiquote => "`"
    case Unquote => ","
    case Splicing => ",@"
    case Function => "#'"
  }

  function Operator(mark: Mark): string {
    match mark
    case Quote => "QUOTE"
    case Quasiquote => "QUASIQUOTE"
    case Unquote => "UNQUOTE"
    case Splicing => "UNQUOTE-SPLICING"
    case Function => "FUNCTION"
  }

  /** What may stand between expressions: blanks, and comments up to the end of their line. */
  type Gap = seq<string>

  datatype Form =
    | Printed(datum: Datum)
    | Name(name: string, token: string)
    | Letter(c: char, token: string)
    | Whole(prefix: string, sign: string, zeros: nat, magnitude: nat, token: string)
    | Quoted(text: string, marked: seq<bool>)
    | Short(mark: Mark, gap: Gap, form: Form)
    | Empty(gap: Gap)
    | List(gap: Gap, first: Form, rest: Tail)
    | Vector(list: Form)
    | Table(rank: nat, letter: char, gap: Gap, nested: Form)

  /** A list behind one of its elements. */
  datatype Tail =
    | End(gap: Gap)
    | More(gap: Gap, form: Form, rest: Tail)
    | Dotted(gap: Gap, after: Gap, form: Form, end: Gap)

  predicate IsPiece(p: string) { p == " " || p == "\t" || p == "\n" || p == "\r" || IsComment(p) }

  predicate IsComment(p: string) {
    |p| >= 2 && p[0] == ';' && p[|p| - 1] == '\n' && forall i :: 0 < i < |p| - 1 ==> p[i] != '\n'
  }

  predicate IsGap(gap: Gap) { forall i :: 0 <= i < |gap| ==> IsPiece(gap[i]) }

  /** The gap in front of a text. */
  function Spaced(gap: Gap, k: string): string { if gap == [] then k else gap[0] + Spaced(gap[1..], k) }

  /** Letters may be written small. */
  predicate SameLetters(token: string, name: string) {
    |token| == |name| && forall i :: 0 <= i < |name| ==> SameLetter(token[i], name[i])
  }

  predicate SameLetter(c: char, capital: char) { c == capital || ('A' <= capital <= 'Z' && c == capital + ' ') }

  /** The characters that have a name. */
  function CapitalName(c: char): string {
    if c == ' ' then "SPACE" else if c == '\n' then "NEWLINE" else if c == '\t' then "TAB" else ""
  }

  /** What a number may begin with, and the radix of its digits then. */
  function RadixOf(prefix: string): nat {
    if prefix == "" then 10
    else if prefix == "#b" || prefix == "#B" then 2
    else if prefix == "#o" || prefix == "#O" then 8
    else if prefix == "#x" || prefix == "#X" then 16
    else 0
  }

  function SignedBy(sign: string, n: int): int { if sign == "-" then -n else n }

  function LeadingZeros(n: nat): (s: string)
    ensures |s| == n
  {
    if n == 0 then "" else "0" + LeadingZeros(n - 1)
  }

  /** A backslash in front of the marked characters. */
  function Marked(text: string, marked: seq<bool>): string
    requires |text| == |marked|
  {
    if text == "" then ""
    else (if marked[0] then ['\\', text[0]] else [text[0]]) + Marked(text[1..], marked[1..])
  }

  /** The spelling in front of a text. */
  function Written(f: Form, k: string): string
    requires Writable(f)
  {
    match f
    case Printed(d) => Print(d) + k
    case Name(_, token) => token + k
    case Letter(_, token) => "#\\" + (token + k)
    case Whole(prefix, sign, _, _, token) => prefix + (sign + token + k)
    case Quoted(text, marked) => "\"" + (Marked(text, marked) + ("\"" + k))
    case Short(mark, gap, form) => Prefix(mark) + Spaced(gap, Written(form, k))
    case Empty(gap) => "(" + Spaced(gap, ")" + k)
    case List(gap, first, rest) => "(" + Spaced(gap, Written(first, WrittenTail(rest, k)))
    case Vector(list) => "#" + Written(list, k)
    case Table(rank, letter, gap, nested) =>
      "#" + ([DigitChar(rank)] + ([letter] + Spaced(gap, Written(nested, k))))
  }

  function WrittenTail(t: Tail, k: string): string
    requires WritableTail(t)
  {
    match t
    case End(gap) => Spaced(gap, ")" + k)
    case More(gap, form, rest) => Spaced(gap, Written(form, WrittenTail(rest, k)))
    case Dotted(gap, after, form, end) => Spaced(gap, "." + Spaced(after, Written(form, Spaced(end, ")" + k))))
  }

  /** What keeps the parts of a spelling apart. */
  predicate Writable(f: Form) {
    match f
    case Printed(d) => WellFormed(d) && Readable(d)
    case Name(name, token) => SameLetters(token, name) && (name == "NIL" || Readable(Sym(name)))
    case Letter(c, token) => token == [c] || (CapitalName(c) != "" && SameLetters(token, CapitalName(c)))
    case Whole(prefix, sign, zeros, magnitude, token) =>
      && RadixOf(prefix) > 0 && (sign == "" || sign == "+" || sign == "-") && |sign + token| <= READER_TOKEN_MAX - 1
      && SameLetters(token, LeadingZeros(zeros) + Digits(magnitude, RadixOf(prefix)))
    case Quoted(text, marked) =>
      && |text| == |marked| <= READER_TOKEN_MAX - 1 && NulFree(text)
      && forall i :: 0 <= i < |text| && (text[i] == '"' || text[i] == '\\') ==> marked[i]
    case Short(mark, gap, form) =>
      Writable(form) && IsGap(gap) && (mark == Unquote && gap == [] ==> !BeginsWithAt(form))
    case Empty(gap) => IsGap(gap)
    case List(gap, first, rest) => Writable(first) && IsGap(gap) && WritableTail(rest)
    case Vector(list) => Writable(list) && (list.Empty? || list.List?) && IsProper(Meaning(list))
    case Table(rank, letter, gap, nested) =>
      && rank <= MAX_ARRAY_RANK && (letter == 'A' || letter == 'a') && Writable(nested) && IsGap(gap)
      && ArrayFrom(rank, Meaning(nested)) != READ_ERROR
  }

  predicate WritableTail(t: Tail) {
    match t
    case End(gap) => IsGap(gap)
    case More(gap, form, rest) => Writable(form) && IsGap(gap) && WritableTail(rest) && (gap != [] || Fenced(form))
    case Dotted(gap, after, form, end) =>
      && Writable(form) && IsGap(gap) && IsGap(after) && IsGap(end)
      && gap != [] && (after != [] || Fenced(form))
  }

  /** The spelling begins with a character that ends a token. */
  predicate Fenced(f: Form) {
    match f
    case Printed(d) => d.Pair? || d.Str?
    case Quoted(_, _) => true
    case Short(mark, _, _) => mark != Function
    case Empty(_) => true
    case List(_, _, _) => true
    case _ => false
  }

  predicate BeginsWithAt(f: Form) {
    match f
    case Printed(d) => d.Sym? && d.name != "" && d.name[0] == '@'
    case Name(_, token) => token != "" && token[0] == '@'
    case _ => false
  }

  /** The datum a spelling stands for. */
  function Meaning(f: Form): Datum {
    match f
    case Printed(d) => d
    case Name(name, _) => if name == "NIL" then Nil else Sym(name)
    case Letter(c, _) => Char(c)
    case Whole(_, sign, _, magnitude, _) => Int(SignedBy(sign, magnitude))
    case Quoted(text, _) => Str(text)
    case Short(mark, _, form) => Pair(Sym(Operator(mark)), Pair(Meaning(form), Nil))
    case Empty(_) => Nil
    case List(_, first, rest) => Pair(Meaning(first), TailMeaning(rest))
    case Vector(list) => Array([|Items(Meaning(list))|], Items(Meaning(list)))
    case Table(rank, _, _, nested) => ArrayFrom(rank, Meaning(nested))
  }

  function TailMeaning(t: Tail): Datum {
    match t
    case End(_) => Nil
    case More(_, form, rest) => Pair(Meaning(form), TailMeaning(rest))
    case Dotted(_, _, form, _) => Meaning(form)
  }

  // ---------------------------------------------------------------- gaps

  lemma {:induction false} GapSkipped(gap: Gap, k: string)
    requires IsGap(gap)
    ensures SkipBlank(Spaced(gap, k)) == SkipBlank(k)
    decreases |gap|
  {
    if gap != [] {
      PieceSkipped(gap[0], Spaced(gap[1..], k));
      GapSkipped(gap[1..], k);
    }
  }

  lemma PieceSkipped(p: string, k: string)
    requires IsPiece(p)
    ensures SkipBlank(p + k) == SkipBlank(k)
  {
    if IsComment(p) {
      assert p + k == p[..|p| - 1] + ("\n" + k);
      CommentSkipped(p[1..|p| - 1], "\n" + k);
      assert (p + k)[1..] == p[1..|p| - 1] + ("\n" + k);
      assert ("\n" + k)[1..] == k;
    } else {
      assert (p + k)[1..] == k;
    }
  }

  lemma {:induction false} CommentSkipped(text: string, k: string)
    requires (forall i :: 0 <= i < |text| ==> text[i] != '\n') && k != "" && k[0] == '\n'
    ensures SkipComment(text + k) == k
  {
    if text == "" {
      assert text + k == k;
    } else {
      assert (text + k)[1..] == text[1..] + k;
      CommentSkipped(text[1..], k);
    }
  }

  lemma GapDelimits(gap: Gap, k: string)
    requires IsGap(gap) && (gap != [] || Delimited(k))
    ensures Delimited(Spaced(gap, k))
  {
    if gap != [] { assert Spaced(gap, k)[0] == gap[0][0]; }
  }

  // ---------------------------------------------------------------- names in either case

  lemma SameLettersFrom(token: string, name: string, n: nat)
    requires SameLetters(token, name) && n <= |name|
    ensures SameLetters(token[n..], name[n..])
  {
  }

  lemma SameDigits(token: string, name: string)
    requires SameLetters(token, name)
    ensures AllDigits(token, 10) <==> AllDigits(name, 10)
    ensures LooksLikeFloat(token) <==> LooksLikeFloat(name)
    ensures HasExtendedMarker(token) <==> HasExtendedMarker(name)
  {
    assert forall i :: 0 <= i < |name| ==> SameLetter(token[i], name[i]);
    assert forall i :: 0 <= i < |name| ==> IsDigit(token[i]) == IsDigit(name[i]);
  }

  lemma {:induction false} SameRun(token: string, name: string)
    requires SameLetters(token, name)
    ensures DigitRun(token) == DigitRun(name)
  {
    if name != "" {
      assert SameLetter(token[0], name[0]);
      SameLettersFrom(token, name, 1);
      SameRun(token[1..], name[1..]);
    }
  }

  lemma SameExponent(token: string, name: string, hasDot: bool)
    requires SameLetters(token, name)
    ensures ExponentSyntax(token, hasDot) <==> ExponentSyntax(name, hasDot)
  {
    if name != "" {
      assert SameLetter(token[0], name[0]);
      var n := if |name| > 1 && IsSign(name[1]) then 2 else 1;
      if |name| > 1 { assert SameLetter(token[1], name[1]); }
      SameLettersFrom(token, name, n);
      SameRun(token[n..], name[n..]);
    }
  }

  lemma SameFraction(token: string, name: string)
    requires SameLetters(token, name)
    ensures DigitRun(token) == DigitRun(name)
    ensures ExponentSyntax(token[DigitRun(name)..], true) == ExponentSyntax(name[DigitRun(name)..], true)
  {
    SameRun(token, name);
    SameLettersFrom(token, name, DigitRun(name));
    SameExponent(token[DigitRun(name)..], name[DigitRun(name)..], true);
  }

  lemma FloatParts(s: string)
    requires DigitRun(s) < |s| && s[DigitRun(s)] == '.'
    ensures var n, t := DigitRun(s), s[DigitRun(s) + 1..];
            FloatSyntax(s) == (n > 0 && DigitRun(t) > 0 && ExponentSyntax(t[DigitRun(t)..], true))
  {
    assert s[DigitRun(s) + 1..][DigitRun(s[DigitRun(s) + 1..])..] ==
           s[DigitRun(s) + 1 + DigitRun(s[DigitRun(s) + 1..])..];
  }

  lemma NoFraction(s: string)
    requires DigitRun(s) < |s| ==> s[DigitRun(s)] != '.'
    ensures FloatSyntax(s) == (DigitRun(s) > 0 && ExponentSyntax(s[DigitRun(s)..], false))
  {
  }

  lemma SameFloat(token: string, name: string)
    requires SameLetters(token, name)
    ensures FloatSyntax(token) <==> FloatSyntax(name)
  {
    SameRun(token, name);
    var n := DigitRun(name);
    if n < |name| { assert SameLetter(token[n], name[n]); }
    if n < |name| && name[n] == '.' {
      SameLettersFrom(token, name, n + 1);
      SameFraction(token[n + 1..], name[n + 1..]);
      FloatParts(token);
      FloatParts(name);
    } else {
      SameLettersFrom(token, name, n);
      SameExponent(token[n..], name[n..], false);
      NoFraction(token);
      NoFraction(name);
    }
  }

  lemma SameSymbolic(token: string, name: string)
    requires SameLetters(token, name) && Symbolic(name)
    ensures Symbolic(token)
  {
    if name != "" { assert SameLetter(token[0], name[0]); }
    var n := SignLength(name);
    SameLettersFrom(token, name, n);
    SameDigits(token[n..], name[n..]);
    SameFloat(token[n..], name[n..]);
    if name == "1+" || name == "1-" { assert SameLetter(token[1], name[1]); }
  }

  lemma SameUpper(token: string, name: string)
    requires SameLetters(token, name) && Upper(name) == name && NulFree(name)
    ensures Upper(token) == name && NulFree(token)
  {
    forall i | 0 <= i < |name| ensures UpperChar(token[i]) == name[i] && token[i] != '\0' {
      assert Upper(name)[i] == UpperChar(name[i]);
      SameCapital(token[i], name[i]);
    }
  }

  lemma SameCapital(c: char, capital: char)
    requires SameLetter(c, capital) && UpperChar(capital) == capital
    ensures UpperChar(c) == capital && (capital != '\0' ==> c != '\0')
  {
  }

  lemma SamePlain(token: string, name: string)
    requires SameLetters(token, name) && Plain(name)
    ensures Plain(token)
  {
    forall i | 0 <= i < |name| ensures !IsDelimiter(token[i]) {
      assert SameLetter(token[i], name[i]);
    }
  }

  lemma NamedReads(name: string, token: string, k: string)
    requires SameLetters(token, name) && ReadableName(name) && Delimited(k)
    ensures Opens(token + k) && ReadExpr(token + k) == Parsed(Sym(name), k)
  {
    assert SameLetter(token[0], name[0]);
    SameUpper(token, name);
    SamePlain(token, name);
    SameSymbolic(token, name);
    AtomReads(token, k);
    CStringWhole(token);
    assert Upper(CString(token)) == name;
  }

  lemma NilNamed(token: string, k: string)
    requires SameLetters(token, "NIL") && Delimited(k)
    ensures Opens(token + k) && ReadExpr(token + k) == Parsed(Nil, k)
  {
    var name := "NIL";
    assert SameLetter(token[0], name[0]);
    assert !IsFloatChar(name[0]);
    CapitalWord(name);
    SameUpper(token, name);
    SamePlain(token, name);
    SameSymbolic(token, name);
    AtomReads(token, k);
    CStringWhole(token);
    assert Upper(CString(token)) == name;
  }

  // ---------------------------------------------------------------- reading a spelling

  lemma LetterReads(c: char, token: string, k: string)
    requires Writable(Letter(c, token)) && Delimited(k)
    ensures Opens("#\\" + (token + k)) && ReadExpr("#\\" + (token + k)) == Parsed(Char(c), k)
  {
    CharOpens(token + k);
    assert "#\\" + (token + k) == "#" + ("\\" + (token + k));
    LetterNamed(c, token);
    LiteralEnds(token, k);
  }

  lemma LetterNamed(c: char, token: string)
    requires Writable(Letter(c, token))
    ensures 1 <= |token| <= 15 && Plain(token[1..]) && CharNamed(token) == Char(c)
  {
    if token != [c] { WordNamed(c, token, CapitalName(c)); }
  }

  lemma WordNamed(c: char, token: string, name: string)
    requires name == CapitalName(c) && name != "" && SameLetters(token, name)
    ensures 1 <= |token| <= 15 && Plain(token[1..]) && CharNamed(token) == Char(c)
  {
    CapitalWord(name);
    SameUpper(token, name);
    SamePlain(token, name);
  }

  lemma CapitalWord(name: string)
    requires forall i :: 0 <= i < |name| ==> 'A' <= name[i] <= 'Z'
    ensures Upper(name) == name && NulFree(name) && Plain(name)
  {
  }

  lemma LiteralEnds(token: string, k: string)
    requires 1 <= |token| <= 15 && Plain(token[1..]) && Delimited(k)
    ensures ReadCharLiteral(token + k) == Parsed(CharNamed(token), k)
  {
    assert (token + k)[1..] == token[1..] + k;
    TokenEnds(token[1..], k);
    assert (token + k)[..|token|] == token && (token + k)[|token|..] == k;
  }

  // ---------------------------------------------------------------- numbers and strings

  lemma {:induction false} ZerosCount(zeros: nat, digits: string, radix: nat)
    requires 2 <= radix <= 16 && AllDigits(digits, radix)
    ensures AllDigits(LeadingZeros(zeros) + digits, radix)
    ensures Value(LeadingZeros(zeros) + digits, radix) == Value(digits, radix)
  {
    if zeros == 0 {
      assert "" + digits == digits;
    } else {
      ZerosCount(zeros - 1, digits, radix);
      var t := LeadingZeros(zeros - 1) + digits;
      assert LeadingZeros(zeros) + digits == "0" + t;
      OneZero(t, radix);
    }
  }

  lemma {:induction false} OneZero(digits: string, radix: nat)
    requires 2 <= radix <= 16 && AllDigits(digits, radix)
    ensures AllDigits("0" + digits, radix) && Value("0" + digits, radix) == Value(digits, radix)
    decreases |digits|
  {
    if digits == "" {
      OneDigit(0, radix);
      assert "0" + "" == [DigitChar(0)];
    } else {
      var front := digits[..|digits| - 1];
      OneZero(front, radix);
      assert ("0" + digits)[..|digits|] == "0" + front;
    }
  }

  lemma {:induction false} SameValue(token: string, name: string, radix: nat)
    requires 2 <= radix <= 16 && SameLetters(token, name) && AllDigits(name, radix)
    ensures AllDigits(token, radix) && Value(token, radix) == Value(name, radix)
    decreases |name|
  {
    if name == "" {
      assert token == "";
    } else {
      var n := |name| - 1;
      SameValue(token[..n], name[..n], radix);
      SameDigitValue(token[n], name[n], radix);
    }
  }

  lemma SameDigitValue(c: char, capital: char, radix: nat)
    requires SameLetter(c, capital) && DigitValue(capital, radix) >= 0
    ensures DigitValue(c, radix) == DigitValue(capital, radix)
  {
  }

  /** The digits of a number, in any of the radices. */
  lemma WholeDigits(radix: nat, zeros: nat, magnitude: nat, token: string)
    requires 2 <= radix <= 16 && SameLetters(token, LeadingZeros(zeros) + Digits(magnitude, radix))
    ensures token != "" && AllDigits(token, radix) && Value(token, radix) == magnitude
  {
    DigitsRead(magnitude, radix);
    ZerosCount(zeros, Digits(magnitude, radix), radix);
    SameValue(token, LeadingZeros(zeros) + Digits(magnitude, radix), radix);
  }

  lemma DigitsBehindSign(sign: string, token: string, radix: nat)
    requires (sign == "" || sign == "+" || sign == "-") && token != "" && AllDigits(token, radix)
    ensures var s := sign + token;
            && s != "" && Plain(s) && s[0] != '#' && s[0] != '@'
            && Negative(s) == (sign == "-") && s[SignLength(s)..] == token
  {
    assert DigitValue(token[0], radix) >= 0;
    forall i | 0 <= i < |token| ensures !IsDelimiter(token[i]) {
      assert DigitValue(token[i], radix) >= 0;
    }
    if sign != "" { assert (sign + token)[1..] == token; } else { assert sign + token == token; }
  }

  lemma WholeReads(prefix: string, sign: string, zeros: nat, magnitude: nat, token: string, k: string)
    requires Writable(Whole(prefix, sign, zeros, magnitude, token)) && Delimited(k)
    ensures var s := prefix + (sign + token + k);
            Opens(s) && ReadExpr(s) == Parsed(Int(SignedBy(sign, magnitude)), k)
  {
    var radix := RadixOf(prefix);
    WholeDigits(radix, zeros, magnitude, token);
    DigitsBehindSign(sign, token, radix);
    var s := sign + token;
    if prefix == "" {
      AtomReads(s, k);
      assert "" + (s + k) == s + k;
    } else {
      TokenReads(s, k);
      assert s[..|s|] == s;
      PrefixedRadix(prefix, s + k);
    }
  }

  lemma PrefixedRadix(prefix: string, t: string)
    requires RadixOf(prefix) > 0 && prefix != ""
    ensures Opens(prefix + t) && ReadExpr(prefix + t) == ReadRadix(t, RadixOf(prefix))
  {
    var s := prefix + t;
    assert s[1..][1..] == t;
    assert ReadExpr(s) == ReadHash(s[1..]);
  }

  lemma {:induction false} MarkedReads(text: string, marked: seq<bool>, k: string)
    requires |text| == |marked|
    requires forall i :: 0 <= i < |text| && (text[i] == '"' || text[i] == '\\') ==> marked[i]
    ensures StringBody(Marked(text, marked) + ("\"" + k)) == Body(true, text, k)
  {
    if text == "" {
      assert "" + ("\"" + k) == "\"" + k;
    } else {
      var rest := Marked(text[1..], marked[1..]) + ("\"" + k);
      MarkedReads(text[1..], marked[1..], k);
      CharMarked(text[0], marked[0], rest);
      Joined(if marked[0] then ['\\', text[0]] else [text[0]], Marked(text[1..], marked[1..]), "\"" + k);
    }
  }

  lemma CharMarked(c: char, marked: bool, rest: string)
    requires c == '"' || c == '\\' ==> marked
    ensures var b := StringBody(rest);
            StringBody((if marked then ['\\', c] else [c]) + rest) == b.(chars := [c] + b.chars)
  {
    var e := if marked then ['\\', c] else [c];
    assert (e + rest)[|e|..] == rest;
  }

  lemma QuotedReads(text: string, marked: seq<bool>, k: string)
    requires Writable(Quoted(text, marked))
    ensures var s := "\"" + (Marked(text, marked) + ("\"" + k));
            Opens(s) && ReadExpr(s) == Parsed(Str(text), k)
  {
    MarkedReads(text, marked, k);
    Behind('"', Marked(text, marked) + ("\"" + k));
    CStringWhole(text);
    assert text[..|text|] == text;
  }

  // ---------------------------------------------------------------- expressions

  /** A prefix in front of an expression stands for its operator. */
  lemma ShortReads(mark: Mark, t: string, u: string, d: Datum, k: string)
    requires SkipBlank(t) == u && Opens(u) && ReadExpr(u) == Parsed(d, k) && d != READ_ERROR
    requires mark == Unquote ==> t != "" && t[0] != '@'
    ensures Opens(Prefix(mark) + t)
    ensures ReadExpr(Prefix(mark) + t) == Parsed(Pair(Sym(Operator(mark)), Pair(d, Nil)), k)
  {
    var s := Prefix(mark) + t;
    if mark == Function {
      FunctionReads(t, u, d, k);
    } else if mark == Splicing {
      assert s[2..] == t;
    } else {
      assert s[1..] == t;
    }
  }

  lemma FunctionReads(t: string, u: string, d: Datum, k: string)
    requires SkipBlank(t) == u && Opens(u) && ReadExpr(u) == Parsed(d, k) && d != READ_ERROR
    ensures ReadExpr("#'" + t) == Parsed(Pair(Sym("FUNCTION"), Pair(d, Nil)), k)
  {
    Behind('\'', t);
    Behind('#', "'" + t);
    assert "#'" + t == "#" + ("'" + t);
    assert ReadHash("'" + t) == ReadQuoted(t, "FUNCTION");
  }

  lemma ListReads(t: string, u: string, d: Datum, v: string, tail: Datum, k: string)
    requires SkipBlank(t) == u && Opens(u) && ReadExpr(u) == Parsed(d, v) && d != READ_ERROR && d != DOT
    requires ReadRest(v) == Parsed(tail, k) && tail != READ_ERROR
    ensures Opens("(" + t) && ReadExpr("(" + t) == Parsed(Pair(d, tail), k)
  {
    assert ("(" + t)[1..] == t;
  }

  lemma EmptyReads(t: string, k: string)
    requires SkipBlank(t) == ")" + k
    ensures Opens("(" + t) && ReadExpr("(" + t) == Parsed(Nil, k)
    ensures ReadRest(t) == Parsed(Nil, k)
  {
    assert ("(" + t)[1..] == t && (")" + k)[1..] == k;
  }

  lemma MoreReads(t: string, u: string, d: Datum, v: string, tail: Datum, k: string)
    requires SkipBlank(t) == u && Opens(u) && ReadExpr(u) == Parsed(d, v) && d != READ_ERROR && d != DOT
    requires ReadRest(v) == Parsed(tail, k) && tail != READ_ERROR
    ensures ReadRest(t) == Parsed(Pair(d, tail), k)
  {
  }

  lemma DottedReads(s: string, t: string, u: string, d: Datum, v: string, k: string)
    requires SkipBlank(s) == "." + t && Delimited(t) && SkipBlank(t) == u
    requires Opens(u) && ReadExpr(u) == Parsed(d, v) && d != READ_ERROR && SkipBlank(v) == ")" + k
    ensures ReadRest(s) == Parsed(d, k)
  {
    DotAtom(".");
    AtomReads(".", t);
    assert (")" + k)[1..] == k;
  }

  lemma TableReads(rank: nat, letter: char, t: string, u: string, d: Datum, k: string)
    requires rank <= MAX_ARRAY_RANK && (letter == 'A' || letter == 'a')
    requires SkipBlank(t) == u && Opens(u) && ReadExpr(u) == Parsed(d, k) && d != READ_ERROR
    ensures Opens("#" + ([DigitChar(rank)] + ([letter] + t)))
    ensures ReadExpr("#" + ([DigitChar(rank)] + ([letter] + t))) == Parsed(ArrayFrom(rank, d), k)
  {
    var s := [DigitChar(rank)] + ([letter] + t);
    assert ("#" + s)[1..] == s;
    RankStands(rank, letter, t);
    HashDigit(s);
    AfterRank(s, u);
  }

  lemma VectorReads(t: string, d: Datum, k: string)
    requires Opens(t) && t[0] == '(' && ReadExpr(t) == Parsed(d, k) && IsProper(d)
    ensures Opens("#" + t) && ReadExpr("#" + t) == Parsed(Array([|Items(d)|], Items(d)), k)
  {
    assert ("#" + t)[1..] == t;
    HashList(t);
  }

  lemma FencedWritten(f: Form, k: string)
    requires Writable(f) && Fenced(f)
    ensures Delimited(Written(f, k))
  {
  }

  lemma TailDelimits(t: Tail, k: string)
    requires WritableTail(t)
    ensures Delimited(WrittenTail(t, k))
  {
    match t
    case End(gap) => GapDelimits(gap, ")" + k);
    case More(gap, form, rest) =>
      if gap == [] { FencedWritten(form, WrittenTail(rest, k)); }
      GapDelimits(gap, Written(form, WrittenTail(rest, k)));
    case Dotted(gap, after, form, end) =>
      GapDelimits(gap, "." + Spaced(after, Written(form, Spaced(end, ")" + k))));
  }

  /** Nothing but an at sign that belongs to the expression would be taken for part of the prefix. */
  lemma AtSign(f: Form, gap: Gap, k: string)
    requires Writable(f) && IsGap(gap) && Opens(Written(f, k)) && (gap == [] ==> !BeginsWithAt(f))
    ensures Spaced(gap, Written(f, k)) != "" && Spaced(gap, Written(f, k))[0] != '@'
  {
    if gap != [] {
      assert Spaced(gap, Written(f, k))[0] == gap[0][0];
    } else if f.Printed? {
      PrintedAtSign(f.datum, k);
    } else if f.Whole? {
      WholeAtSign(f.prefix, f.sign, f.zeros, f.magnitude, f.token, k);
    }
  }

  lemma WholeAtSign(prefix: string, sign: string, zeros: nat, magnitude: nat, token: string, k: string)
    requires Writable(Whole(prefix, sign, zeros, magnitude, token))
    ensures (prefix + (sign + token + k))[0] != '@'
  {
    WholeDigits(RadixOf(prefix), zeros, magnitude, token);
    DigitsBehindSign(sign, token, RadixOf(prefix));
    NumberAtSign(prefix, sign + token, k);
  }

  lemma NumberAtSign(prefix: string, s: string, k: string)
    requires RadixOf(prefix) > 0 && s != "" && s[0] != '@'
    ensures (prefix + (s + k))[0] != '@'
  {
    if prefix == "" { assert (prefix + (s + k))[0] == s[0]; } else { assert (prefix + (s + k))[0] == '#'; }
  }

  lemma PrintedAtSign(d: Datum, k: string)
    requires WellFormed(d) && Readable(d) && (d.Sym? ==> d.name != "" && d.name[0] != '@')
    ensures Print(d) != "" && (Print(d) + k)[0] != '@'
  {
    if d.Int? { DigitsRead(if d.value < 0 then -d.value else d.value, 10); }
  }

  lemma MeaningIsRead(f: Form)
    requires Writable(f)
    ensures Meaning(f) != READ_ERROR && Meaning(f) != DOT
  {
  }

  lemma {:induction false} SpellingReads(f: Form, k: string)
    requires Writable(f) && Delimited(k)
    ensures Opens(Written(f, k)) && ReadExpr(Written(f, k)) == Parsed(Meaning(f), k)
    decreases f, 1
  {
    match f
    case Printed(d) => ReadPrinted(d, k);
    case Name(name, token) => if name == "NIL" { NilNamed(token, k); } else { NamedReads(name, token, k); }
    case Letter(c, token) => LetterReads(c, token, k);
    case Whole(prefix, sign, zeros, magnitude, token) => WholeReads(prefix, sign, zeros, magnitude, token, k);
    case Quoted(text, marked) => QuotedReads(text, marked, k);
    case Short(_, _, _) => ShortSpelled(f, k);
    case Empty(gap) =>
      GapSkipped(gap, ")" + k);
      EmptyReads(Spaced(gap, ")" + k), k);
    case List(_, _, _) => ListSpelled(f, k);
    case Vector(list) =>
      SpellingReads(list, k);
      VectorReads(Written(list, k), Meaning(list), k);
    case Table(_, _, _, _) => TableSpelled(f, k);
  }

  lemma {:induction false} ShortSpelled(f: Form, k: string)
    requires f.Short? && Writable(f) && Delimited(k)
    ensures Opens(Written(f, k)) && ReadExpr(Written(f, k)) == Parsed(Meaning(f), k)
    decreases f, 0
  {
    var Short(mark, gap, form) := f;
    SpellingReads(form, k);
    MeaningIsRead(form);
    GapSkipped(gap, Written(form, k));
    if mark == Unquote { AtSign(form, gap, k); }
    ShortReads(mark, Spaced(gap, Written(form, k)), Written(form, k), Meaning(form), k);
  }

  lemma {:induction false} TableSpelled(f: Form, k: string)
    requires f.Table? && Writable(f) && Delimited(k)
    ensures Opens(Written(f, k)) && ReadExpr(Written(f, k)) == Parsed(Meaning(f), k)
    decreases f, 0
  {
    var Table(rank, letter, gap, nested) := f;
    SpellingReads(nested, k);
    MeaningIsRead(nested);
    GapSkipped(gap, Written(nested, k));
    TableReads(rank, letter, Spaced(gap, Written(nested, k)), Written(nested, k), Meaning(nested), k);
  }

  lemma {:induction false} ListSpelled(f: Form, k: string)
    requires f.List? && Writable(f) && Delimited(k)
    ensures Opens(Written(f, k)) && ReadExpr(Written(f, k)) == Parsed(Meaning(f), k)
    decreases f, 0
  {
    var List(gap, first, rest) := f;
    var v := WrittenTail(rest, k);
    TailDelimits(rest, k);
    SpellingReads(first, v);
    MeaningIsRead(first);
    TailReads(rest, k);
    GapSkipped(gap, Written(first, v));
    ListReads(Spaced(gap, Written(first, v)), Written(first, v), Meaning(first), v, TailMeaning(rest), k);
  }

  lemma {:induction false} TailReads(t: Tail, k: string)
    requires WritableTail(t) && Delimited(k)
    ensures ReadRest(WrittenTail(t, k)) == Parsed(TailMeaning(t), k)
    ensures TailMeaning(t) != READ_ERROR
    decreases t, 1
  {
    match t
    case End(gap) =>
      GapSkipped(gap, ")" + k);
      EmptyReads(Spaced(gap, ")" + k), k);
    case More(gap, form, rest) =>
      var v := WrittenTail(rest, k);
      TailDelimits(rest, k);
      SpellingReads(form, v);
      MeaningIsRead(form);
      TailReads(rest, k);
      GapSkipped(gap, Written(form, v));
      MoreReads(Spaced(gap, Written(form, v)), Written(form, v), Meaning(form), v, TailMeaning(rest), k);
    case Dotted(_, _, _, _) => DottedSpelled(t, k);
  }

  lemma {:induction false} DottedSpelled(t: Tail, k: string)
    requires t.Dotted? && WritableTail(t) && Delimited(k)
    ensures ReadRest(WrittenTail(t, k)) == Parsed(TailMeaning(t), k)
    ensures TailMeaning(t) != READ_ERROR
    decreases t, 0
  {
    var Dotted(gap, after, form, end) := t;
    var v := Spaced(end, ")" + k);
    GapDelimits(end, ")" + k);
    SpellingReads(form, v);
    MeaningIsRead(form);
    GapSkipped(end, ")" + k);
    var u := Written(form, v);
    if after == [] { FencedWritten(form, v); }
    GapDelimits(after, u);
    GapSkipped(after, u);
    GapSkipped(gap, "." + Spaced(after, u));
    DottedReads(Spaced(gap, "." + Spaced(after, u)), Spaced(after, u), u, Meaning(form), v, k);
  }

  /** A comma directly in front of an expression unquotes it exactly when its text does not begin
      with an at sign, which would be taken for part of the prefix. */
  lemma UnquoteReadsIff(f: Form, k: string)
    requires Writable(f) && Delimited(k)
    ensures var p := ReadExpr("," + Written(f, k));
            p == Parsed(Pair(Sym("UNQUOTE"), Pair(Meaning(f), Nil)), k) <==> !BeginsWithAt(f)
  {
    var s := Written(f, k);
    SpellingReads(f, k);
    if BeginsWithAt(f) {
      AtSplices(s);
    } else {
      MeaningIsRead(f);
      AtSign(f, [], k);
      ShortReads(Unquote, s, s, Meaning(f), k);
    }
  }

  lemma AtSplices(s: string)
    requires s != "" && s[0] == '@'
    ensures var d := ReadExpr("," + s).datum; d.Pair? ==> d.car == Sym("UNQUOTE-SPLICING")
    ensures var d := ReadExpr("," + s).datum; d.Pair? || d == READ_ERROR
  {
    Behind(',', s);
    assert ("," + s)[1] == '@';
  }

  // ---------------------------------------------------------------- abbreviating

  function MarkNamed(name: string): Option<Mark> {
    if name == "QUOTE" then Some(Quote)
    else if name == "QUASIQUOTE" then Some(Quasiquote)
    else if name == "UNQUOTE" then Some(Unquote)
    else if name == "UNQUOTE-SPLICING" then Some(Splicing)
    else if name == "FUNCTION" then Some(Function)
    else None
  }

  /** The mark for a list of an operator and one operand. */
  function MarkOf(d: Datum): Option<Mark> {
    if d.Pair? && d.car.Sym? && d.cdr.Pair? && d.cdr.cdr.Nil? then MarkNamed(d.car.name) else None
  }

  /** The shortest spelling: every quotation at every depth is written with its prefix. */
  function Abbreviated(d: Datum): Form
    requires WellFormed(d)
    decreases d, Layers(d) + 1, 0, 0
  {
    if MarkOf(d).Some? then
      assert WellFormed(d.cdr);
      var mark, form := MarkOf(d).value, Abbreviated(d.cdr.car);
      Short(mark, if mark == Unquote && BeginsWithAt(form) then [" "] else [], form)
    else
      match d
      case Pair(a, b) => List([], Abbreviated(a), AbbreviatedTail(b))
      case Array(dims, _) => if |dims| == 1 then Vector(Level(d, 0, 0)) else Table(|dims|, 'A', [], Level(d, 0, 0))
      case _ => Printed(d)
  }

  function AbbreviatedTail(d: Datum): Tail
    requires WellFormed(d)
    decreases d, Layers(d) + 2, 0, 0
  {
    match d
    case Pair(a, b) => More([" "], Abbreviated(a), AbbreviatedTail(b))
    case Nil => End([])
    case _ => Dotted([" "], [" "], Abbreviated(d), [])
  }

  function Level(a: Datum, level: nat, pos: nat): Form
    requires a.Array? && WellFormed(a) && level <= |a.dims| && pos + Volume(a.dims, level) <= |a.data|
    decreases a, |a.dims| - level, 1, 0
  {
    if level == |a.dims| then Abbreviated(a.data[pos])
    else if a.dims[level] == 0 then Empty([])
    else
      var below := Volume(a.dims, level + 1);
      assert Volume(a.dims, level) == RowVolume(a.dims, level, 0);
      List([], Level(a, level + 1, pos), Row(a, level, 1, pos + below))
  }

  function Row(a: Datum, level: nat, i: nat, pos: nat): Tail
    requires a.Array? && WellFormed(a) && level < |a.dims| && i <= a.dims[level]
    requires pos + RowVolume(a.dims, level, i) <= |a.data|
    decreases a, |a.dims| - level, 0, a.dims[level] - i
  {
    if i == a.dims[level] then End([])
    else
      var below := Volume(a.dims, level + 1);
      More([" "], Level(a, level + 1, pos), Row(a, level, i + 1, pos + below))
  }

  lemma OperatorNamed(name: string)
    ensures MarkNamed(name).Some? ==> Operator(MarkNamed(name).value) == name
  {
  }

  lemma {:induction false} AbbreviationMeans(d: Datum)
    requires WellFormed(d) && Readable(d)
    ensures Writable(Abbreviated(d)) && Meaning(Abbreviated(d)) == d
    decreases d, Layers(d) + 1, 0, 0
  {
    if MarkOf(d).Some? {
      AbbreviationMeans(d.cdr.car);
      OperatorNamed(d.car.name);
    } else if d.Pair? {
      AbbreviationMeans(d.car);
      TailMeans(d.cdr);
    } else if d.Array? {
      ArrayMeans(d);
    }
  }

  lemma {:induction false} TailMeans(d: Datum)
    requires WellFormed(d) && Readable(d)
    ensures WritableTail(AbbreviatedTail(d)) && TailMeaning(AbbreviatedTail(d)) == d
    decreases d, Layers(d) + 2, 0, 0
  {
    if d.Pair? {
      AbbreviationMeans(d.car);
      TailMeans(d.cdr);
    } else if !d.Nil? {
      AbbreviationMeans(d);
    }
  }

  lemma LevelIsList(a: Datum, level: nat, pos: nat)
    requires a.Array? && WellFormed(a) && level < |a.dims| && a.dims[level] > 0
    requires pos + Volume(a.dims, level) <= |a.data|
    ensures var rest := pos + Volume(a.dims, level + 1);
            && rest + RowVolume(a.dims, level, 1) <= |a.data|
            && Level(a, level, pos) == List([], Level(a, level + 1, pos), Row(a, level, 1, rest))
            && Nested(a, level, pos) == Pair(Nested(a, level + 1, pos), RowList(a, level, 1, rest))
  {
    assert Volume(a.dims, level) == RowVolume(a.dims, level, 0);
    assert Nested(a, level, pos) == RowList(a, level, 0, pos);
  }

  lemma LevelIsEmpty(a: Datum, level: nat, pos: nat)
    requires a.Array? && WellFormed(a) && level < |a.dims| && a.dims[level] == 0
    requires pos + Volume(a.dims, level) <= |a.data|
    ensures Level(a, level, pos) == Empty([]) && Nested(a, level, pos) == Nil
  {
    assert Nested(a, level, pos) == RowList(a, level, 0, pos);
  }

  lemma ListMeans(first: Form, rest: Tail)
    requires Writable(first) && WritableTail(rest)
    ensures Writable(List([], first, rest)) && Meaning(List([], first, rest)) == Pair(Meaning(first), TailMeaning(rest))
  {
  }

  lemma RowIsMore(a: Datum, level: nat, i: nat, pos: nat)
    requires a.Array? && WellFormed(a) && level < |a.dims| && i < a.dims[level]
    requires pos + RowVolume(a.dims, level, i) <= |a.data|
    ensures var rest := pos + Volume(a.dims, level + 1);
            && rest + RowVolume(a.dims, level, i + 1) <= |a.data|
            && Row(a, level, i, pos) == More([" "], Level(a, level + 1, pos), Row(a, level, i + 1, rest))
            && RowList(a, level, i, pos) == Pair(Nested(a, level + 1, pos), RowList(a, level, i + 1, rest))
  {
  }

  lemma RowEnd(a: Datum, level: nat, pos: nat)
    requires a.Array? && WellFormed(a) && level < |a.dims| && pos <= |a.data|
    ensures Row(a, level, a.dims[level], pos) == End([]) && RowList(a, level, a.dims[level], pos) == Nil
  {
  }

  lemma MoreMeans(form: Form, rest: Tail)
    requires Writable(form) && WritableTail(rest)
    ensures WritableTail(More([" "], form, rest))
    ensures TailMeaning(More([" "], form, rest)) == Pair(Meaning(form), TailMeaning(rest))
  {
  }

  lemma {:induction false} LevelMeans(a: Datum, level: nat, pos: nat)
    requires ElementsReadable(a) && level <= |a.dims| && pos + Volume(a.dims, level) <= |a.data|
    ensures Writable(Level(a, level, pos)) && Meaning(Level(a, level, pos)) == Nested(a, level, pos)
    decreases a, |a.dims| - level, 1, 0
  {
    if level == |a.dims| {
      AbbreviationMeans(a.data[pos]);
    } else if a.dims[level] == 0 {
      LevelIsEmpty(a, level, pos);
    } else {
      var rest := pos + Volume(a.dims, level + 1);
      LevelIsList(a, level, pos);
      LevelMeans(a, level + 1, pos);
      RowMeans(a, level, 1, rest);
      ListMeans(Level(a, level + 1, pos), Row(a, level, 1, rest));
    }
  }

  lemma {:induction false} RowMeans(a: Datum, level: nat, i: nat, pos: nat)
    requires ElementsReadable(a) && level < |a.dims| && i <= a.dims[level]
    requires pos + RowVolume(a.dims, level, i) <= |a.data|
    ensures WritableTail(Row(a, level, i, pos)) && TailMeaning(Row(a, level, i, pos)) == RowList(a, level, i, pos)
    decreases a, |a.dims| - level, 0, a.dims[level] - i
  {
    if i == a.dims[level] {
      RowEnd(a, level, pos);
    } else {
      var rest := pos + Volume(a.dims, level + 1);
      RowIsMore(a, level, i, pos);
      LevelMeans(a, level + 1, pos);
      RowMeans(a, level, i + 1, rest);
      MoreMeans(Level(a, level + 1, pos), Row(a, level, i + 1, rest));
    }
  }

  lemma {:induction false} ArrayMeans(a: Datum)
    requires a.Array? && WellFormed(a) && Readable(a)
    ensures Writable(Abbreviated(a)) && Meaning(Abbreviated(a)) == a
    decreases a, |a.dims|, 2, 0
  {
    assert forall i :: 0 <= i < |a.data| ==> Readable(a.data[i]);
    LevelMeans(a, 0, 0);
    NestedBack(a);
    if |a.dims| == 1 {
      FillIsItems(Nested(a, 0, 0), a.dims);
      VectorDimension(a.dims);
      assert Nested(a, 0, 0) == RowList(a, 0, 0, 0);
    }
  }

  /** Main result: a readable datum comes back from its abbreviated text, whatever follows. */
  lemma AbbreviationReads(d: Datum, k: string)
    requires WellFormed(d) && Readable(d) && Delimited(k)
    ensures Writable(Abbreviated(d)) && Starts(Written(Abbreviated(d), k))
    ensures ReadExpr(Written(Abbreviated(d), k)) == Parsed(d, k)
  {
    AbbreviationMeans(d);
    SpellingReads(Abbreviated(d), k);
  }

  // ---------------------------------------------------------------- what follows stays as it is

  lemma {:induction false} SpacedBefore(gap: Gap, s: string, k: string)
    ensures Spaced(gap, s + k) == Spaced(gap, s) + k
  {
    if gap != [] {
      SpacedBefore(gap[1..], s, k);
      Joined(gap[0], Spaced(gap[1..], s), k);
    }
  }

  lemma Joined(a: string, b: string, c: string)
    ensures a + (b + c) == (a + b) + c
  {
  }

  /** A spelling in front of a text is its own text followed by that one. */
  lemma {:induction false} WrittenBefore(f: Form, s: string, k: string)
    requires Writable(f)
    ensures Written(f, s + k) == Written(f, s) + k
    decreases f
  {
    match f
    case Printed(d) => Joined(Print(d), s, k);
    case Name(_, token) => Joined(token, s, k);
    case Letter(_, token) =>
      Joined(token, s, k);
      Joined("#\\", token + s, k);
    case Whole(prefix, sign, _, _, token) =>
      Joined(sign + token, s, k);
      Joined(prefix, sign + token + s, k);
    case Quoted(text, marked) =>
      Joined("\"", s, k);
      Joined(Marked(text, marked), "\"" + s, k);
      Joined("\"", Marked(text, marked) + ("\"" + s), k);
    case Short(mark, gap, form) =>
      WrittenBefore(form, s, k);
      SpacedBefore(gap, Written(form, s), k);
      Joined(Prefix(mark), Spaced(gap, Written(form, s)), k);
    case Empty(gap) =>
      Joined(")", s, k);
      SpacedBefore(gap, ")" + s, k);
      Joined("(", Spaced(gap, ")" + s), k);
    case List(gap, first, rest) =>
      TailBefore(rest, s, k);
      WrittenBefore(first, WrittenTail(rest, s), k);
      SpacedBefore(gap, Written(first, WrittenTail(rest, s)), k);
      Joined("(", Spaced(gap, Written(first, WrittenTail(rest, s))), k);
    case Vector(list) =>
      WrittenBefore(list, s, k);
      Joined("#", Written(list, s), k);
    case Table(rank, letter, gap, nested) =>
      WrittenBefore(nested, s, k);
      SpacedBefore(gap, Written(nested, s), k);
      var t := Spaced(gap, Written(nested, s));
      Joined([letter], t, k);
      Joined([DigitChar(rank)], [letter] + t, k);
      Joined("#", [DigitChar(rank)] + ([letter] + t), k);
  }

  lemma {:induction false} TailBefore(t: Tail, s: string, k: string)
    requires WritableTail(t)
    ensures WrittenTail(t, s + k) == WrittenTail(t, s) + k
    decreases t
  {
    match t
    case End(gap) =>
      Joined(")", s, k);
      SpacedBefore(gap, ")" + s, k);
    case More(gap, form, rest) =>
      TailBefore(rest, s, k);
      WrittenBefore(form, WrittenTail(rest, s), k);
      SpacedBefore(gap, Written(form, WrittenTail(rest, s)), k);
    case Dotted(gap, after, form, end) =>
      Joined(")", s, k);
      SpacedBefore(end, ")" + s, k);
      WrittenBefore(form, Spaced(end, ")" + s), k);
      var u := Written(form, Spaced(end, ")" + s));
      SpacedBefore(after, u, k);
      Joined(".", Spaced(after, u), k);
      SpacedBefore(gap, "." + Spaced(after, u), k);
  }
}
