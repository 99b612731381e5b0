/** What src/c/reader.c reads from a text: the datum and the text left over. */
module Grammar {
  import opened Numerals
  import opened Syntax

  const READER_TOKEN_MAX: nat := 128
  const CHAR_NAME_MAX: nat := 16

  /** The reader reports an error by returning the symbol READ-ERROR. */
  const READ_ERROR: Datum := Sym("READ-ERROR")
  const DOT: Datum := Sym(".")

  datatype Parsed = Parsed(datum: Datum, rest: string)

  predicate IsWhitespace(c: char) { c == ' ' || c == '\t' || c == '\n' || c == '\r' }

  predicate IsDelimiter(c: char) {
    IsWhitespace(c) || c == '(' || c == ')' || c == '"' || c == '\'' || c == '`' || c == ',' || c == ';'
  }

  predicate IsDigit(c: char) { '0' <= c <= '9' }

  /** A text on which read_expr may be called: not at its end, a blank or a comment. */
  predicate Starts(s: string) { s != "" && !IsWhitespace(s[0]) && s[0] != ';' }

  // ---------------------------------------------------------------- blanks and tokens

  function SkipComment(s: string): (t: string)
    ensures |t| <= |s|
  {
    if s == "" || s[0] == '\n' then s else SkipComment(s[1..])
  }

  function SkipBlank(s: string): (t: string)
    ensures |t| <= |s| && (t == "" || Starts(t))
    decreases |s|
  {
    if s == "" then s
    else if IsWhitespace(s[0]) then SkipBlank(s[1..])
    else if s[0] == ';' then SkipBlank(SkipComment(s[1..]))
    else s
  }

  /** How many characters stand before the first delimiter. */
  function TokenLength(s: string): (n: nat)
    ensures n <= |s|
  {
    if s == "" || IsDelimiter(s[0]) then 0 else 1 + TokenLength(s[1..])
  }

  predicate Plain(token: string) { forall i :: 0 <= i < |token| ==> !IsDelimiter(token[i]) }

  lemma {:induction false} TokenGoesOn(token: string, k: string)
    requires Plain(token)
    ensures TokenLength(token + k) == |token| + TokenLength(k)
  {
    if token == "" {
      assert token + k == k;
    } else {
      assert (token + k)[1..] == token[1..] + k;
      TokenGoesOn(token[1..], k);
    }
  }

  function Min(a: nat, b: nat): nat { if a < b then a else b }

  /** The token buffer: later characters of a long token are read and dropped. */
  function Token(s: string): string { s[..Min(TokenLength(s), READER_TOKEN_MAX - 1)] }

  function AfterToken(s: string): string { s[TokenLength(s)..] }

  // ---------------------------------------------------------------- atoms

  /** A C string ends at its first NUL. */
  function CString(s: string): string {
    if s == "" || s[0] == '\0' then "" else [s[0]] + CString(s[1..])
  }

  function UpperChar(c: char): char { if 'a' <= c <= 'z' then c - ' ' else c }

  function Upper(s: string): (t: string)
    ensures |t| == |s| && forall i :: 0 <= i < |s| ==> t[i] == UpperChar(s[i])
  {
    if s == "" then "" else [UpperChar(s[0])] + Upper(s[1..])
  }

  /** os_make_symbol: upper case, and the symbol NIL is nil. */
  function MakeSymbol(token: string): Datum {
    var name := Upper(CString(token));
    if name == "NIL" then Nil else Sym(name)
  }

  predicate IsSign(c: char) { c == '+' || c == '-' }

  function SignLength(token: string): (n: nat)
    ensures n <= |token| && n <= 1
  {
    if token != "" && IsSign(token[0]) then 1 else 0
  }

  predicate Negative(token: string) { token != "" && token[0] == '-' }

  function Signed(token: string, magnitude: int): Datum {
    Int(if Negative(token) then -magnitude else magnitude)
  }

  predicate IsMarker(c: char) { c == 'e' || c == 'E' || IsExtendedMarker(c) }

  predicate IsExtendedMarker(c: char) { c == 'f' || c == 'F' || c == 'd' || c == 'D' }

  predicate IsFloatChar(c: char) { IsDigit(c) || c == '.' || IsMarker(c) || IsSign(c) }

  function DigitRun(s: string): (n: nat)
    ensures n <= |s|
  {
    if s == "" || !IsDigit(s[0]) then 0 else 1 + DigitRun(s[1..])
  }

  /** The exponent part, if any, and nothing after it. */
  predicate ExponentSyntax(s: string, hasDot: bool) {
    if s == "" then hasDot
    else
      IsMarker(s[0]) &&
      var e := if |s| > 1 && IsSign(s[1]) then s[2..] else s[1..];
      e != "" && DigitRun(e) == |e|
  }

  /** What parse_float_token accepts after the sign. */
  predicate FloatSyntax(s: string) {
    var n := DigitRun(s);
    n > 0 &&
    if n < |s| && s[n] == '.' then
      var f := DigitRun(s[n + 1..]);
      f > 0 && ExponentSyntax(s[n + 1 + f..], true)
    else ExponentSyntax(s[n..], false)
  }

  predicate LooksLikeFloat(s: string) {
    && s != "" && (forall i :: 0 <= i < |s| ==> IsFloatChar(s[i]))
    && exists i :: 0 <= i < |s| && IsDigit(s[i])
  }

  predicate HasExtendedMarker(s: string) {
    exists i :: 0 <= i < |s| && IsExtendedMarker(s[i])
  }

  /** read_atom on its token. */
  function Atom(token: string): Datum {
    var body := token[SignLength(token)..];
    if body != "" && AllDigits(body, 10) then Signed(token, Value(body, 10))
    else if token == "1+" || token == "1-" then MakeSymbol(token)
    else if LooksLikeFloat(body) then
      if FloatSyntax(body) then Float(token)
      else if HasExtendedMarker(body) then MakeSymbol(token)
      else READ_ERROR
    else MakeSymbol(token)
  }

  function ReadAtom(s: string): Parsed { Parsed(Atom(Token(s)), AfterToken(s)) }

  /** read_radix_integer on its token. */
  function RadixInteger(token: string, radix: nat): Datum {
    var body := token[SignLength(token)..];
    if body != "" && AllDigits(body, radix) then Signed(token, Value(body, radix)) else READ_ERROR
  }

  function ReadRadix(s: string, radix: nat): Parsed { Parsed(RadixInteger(Token(s), radix), AfterToken(s)) }

  function CharNamed(buf: string): Datum
    requires buf != ""
  {
    if |buf| == 1 then Char(buf[0])
    else if Upper(buf) == "SPACE" then Char(' ')
    else if Upper(buf) == "NEWLINE" then Char('\n')
    else if Upper(buf) == "TAB" then Char('\t')
    else READ_ERROR
  }

  /** read_char_literal: the first character whatever it is, then at most 14 more. */
  function ReadCharLiteral(s: string): (p: Parsed)
    ensures |p.rest| <= |s|
  {
    if s == "" then Parsed(READ_ERROR, s)
    else
      var n := 1 + Min(TokenLength(s[1..]), CHAR_NAME_MAX - 2);
      Parsed(CharNamed(s[..n]), s[n..])
  }

  // ---------------------------------------------------------------- strings

  datatype Body = Body(closed: bool, chars: string, rest: string)

  /** The characters up to the closing quote, backslashes taken off. */
  function StringBody(s: string): (b: Body)
    ensures |b.rest| <= |s|
  {
    if s == "" then Body(false, "", "")
    else if s[0] == '"' then Body(true, "", s[1..])
    else if s[0] == '\\' && |s| == 1 then Body(false, "", "")
    else
      var n := if s[0] == '\\' then 2 else 1;
      var b := StringBody(s[n..]);
      b.(chars := [s[n - 1]] + b.chars)
  }

  /** read_string */
  function ReadString(s: string): (p: Parsed)
    ensures |p.rest| <= |s|
  {
    var b := StringBody(s);
    if b.closed then Parsed(Str(CString(b.chars[..Min(|b.chars|, READER_TOKEN_MAX - 1)])), b.rest)
    else Parsed(READ_ERROR, b.rest)
  }

  // ---------------------------------------------------------------- lists and arrays

  predicate IsProper(d: Datum) { if d.Pair? then IsProper(d.cdr) else d.Nil? }

  function Items(d: Datum): seq<Datum> { if d.Pair? then [d.car] + Items(d.cdr) else [] }

  datatype Option<T> = None | Some(value: T)

  /** The lengths of the first lists on each of `rank` levels. */
  function Dimensions(rank: nat, nested: Datum): Option<seq<nat>> {
    if rank == 0 then Some([])
    else if !IsProper(nested) then None
    else
      var rest := Dimensions(rank - 1, if nested.Pair? then nested.car else Nil);
      if rest.None? then None else Some([|Items(nested)|] + rest.value)
  }

  /** fill_array_from_nested: None when a list is not as long as its dimension. */
  function Fill(nested: Datum, dims: seq<nat>): Option<seq<Datum>>
    decreases |dims|, 1, nested
  {
    if dims == [] then Some([nested])
    else if IsProper(nested) && |Items(nested)| == dims[0] then FillRow(nested, dims) else None
  }

  function FillRow(list: Datum, dims: seq<nat>): Option<seq<Datum>>
    requires dims != []
    decreases |dims|, 0, list
  {
    if !list.Pair? then Some([])
    else
      var first, rest := Fill(list.car, dims[1..]), FillRow(list.cdr, dims);
      if first.None? || rest.None? then None else Some(first.value + rest.value)
  }

  /** os_make_array_from_nested_list */
  function ArrayFrom(rank: nat, nested: Datum): Datum {
    if rank > MAX_ARRAY_RANK then READ_ERROR
    else
      var dims := Dimensions(rank, nested);
      if dims.None? then READ_ERROR
      else
        var data := Fill(nested, dims.value);
        if data.None? then READ_ERROR else Array(dims.value, data.value)
  }

  // ---------------------------------------------------------------- expressions

  /** read_expr */
  function ReadExpr(s: string): (p: Parsed)
    requires Starts(s)
    ensures |p.rest| < |s|
    decreases |s|, 0
  {
    if s[0] == '(' then ReadList(s[1..])
    else if s[0] == ')' then Parsed(READ_ERROR, s[1..])
    else if s[0] == '"' then ReadString(s[1..])
    else if s[0] == '\'' then ReadQuoted(s[1..], "QUOTE")
    else if s[0] == '`' then ReadQuoted(s[1..], "QUASIQUOTE")
    else if s[0] == ',' then
      if |s| > 1 && s[1] == '@' then ReadQuoted(s[2..], "UNQUOTE-SPLICING") else ReadQuoted(s[1..], "UNQUOTE")
    else if s[0] == '#' then ReadHash(s[1..])
    else ReadAtom(s)
  }

  /** A prefix character and the expression after it: (name expression). */
  function ReadQuoted(s: string, name: string): (p: Parsed)
    ensures |p.rest| <= |s|
    decreases |s|, 1
  {
    var t := SkipBlank(s);
    if t == "" then Parsed(READ_ERROR, t)
    else
      var p := ReadExpr(t);
      if p.datum == READ_ERROR then p else Parsed(Pair(Sym(name), Pair(p.datum, Nil)), p.rest)
  }

  /** What may follow a `#`. */
  function ReadHash(s: string): (p: Parsed)
    ensures |p.rest| <= |s|
    decreases |s|, 2
  {
    if s == "" then Parsed(READ_ERROR, s)
    else if s[0] == '\'' then ReadQuoted(s[1..], "FUNCTION")
    else if s[0] == '\\' then ReadCharLiteral(s[1..])
    else if s[0] == 'b' || s[0] == 'B' then ReadRadix(s[1..], 2)
    else if s[0] == 'o' || s[0] == 'O' then ReadRadix(s[1..], 8)
    else if s[0] == 'x' || s[0] == 'X' then ReadRadix(s[1..], 16)
    else if s[0] == '(' then
      var p := ReadList(s[1..]);
      if p.datum == READ_ERROR || !IsProper(p.datum) then Parsed(READ_ERROR, p.rest)
      else Parsed(Array([|Items(p.datum)|], Items(p.datum)), p.rest)
    else if IsDigit(s[0]) then ReadArray(s)
    else Parsed(READ_ERROR, s)
  }

  /** #nA: the rank is accumulated in 64 bits. */
  function ReadArray(s: string): (p: Parsed)
    ensures |p.rest| <= |s|
    decreases |s|, 1
  {
    var n := DigitRun(s);
    if n == |s| then Parsed(READ_ERROR, "")
    else if s[n] != 'A' && s[n] != 'a' then Parsed(READ_ERROR, s[n + 1..])
    else
      var t := SkipBlank(s[n + 1..]);
      if t == "" then Parsed(READ_ERROR, t)
      else
        var p := ReadExpr(t);
        if p.datum == READ_ERROR then p
        else Parsed(ArrayFrom(Rank(s), p.datum), p.rest)
  }

  function Rank(s: string): nat {
    RunIsDigits(s);
    Value(s[..DigitRun(s)], 10) % 0x1_0000_0000_0000_0000
  }

  lemma {:induction false} RunIsDigits(s: string)
    ensures AllDigits(s[..DigitRun(s)], 10)
  {
    if s != "" && IsDigit(s[0]) { RunIsDigits(s[1..]); }
  }

  /** read_list, after the opening parenthesis. */
  function ReadList(s: string): (p: Parsed)
    ensures |p.rest| <= |s|
    decreases |s|, 1
  {
    var t := SkipBlank(s);
    if t == "" then Parsed(READ_ERROR, t)
    else if t[0] == ')' then Parsed(Nil, t[1..])
    else
      var first := ReadExpr(t);
      if first.datum == READ_ERROR || first.datum == DOT then Parsed(READ_ERROR, first.rest)
      else Linked(first.datum, ReadRest(first.rest))
  }

  /** read_list_rest */
  function ReadRest(s: string): (p: Parsed)
    ensures |p.rest| <= |s|
    decreases |s|, 1
  {
    var t := SkipBlank(s);
    if t == "" then Parsed(READ_ERROR, t)
    else if t[0] == ')' then Parsed(Nil, t[1..])
    else
      var elem := ReadExpr(t);
      if elem.datum == READ_ERROR then elem
      else if elem.datum == DOT then ReadAfterDot(elem.rest)
      else Linked(elem.datum, ReadRest(elem.rest))
  }

  /** The cdr of a dotted pair and the closing parenthesis. */
  function ReadAfterDot(s: string): (p: Parsed)
    ensures |p.rest| <= |s|
    decreases |s|, 1
  {
    var t := SkipBlank(s);
    if t == "" then Parsed(READ_ERROR, t)
    else
      var d := ReadExpr(t);
      if d.datum == READ_ERROR then d
      else
        var u := SkipBlank(d.rest);
        if u == "" || u[0] != ')' then Parsed(READ_ERROR, u) else Parsed(d.datum, u[1..])
  }

  function Linked(car: Datum, cdr: Parsed): Parsed {
    if cdr.datum == READ_ERROR then cdr else Parsed(Pair(car, cdr.datum), cdr.rest)
  }

  // ---------------------------------------------------------------- what reading leaves

  predicate Suffix(t: string, s: string) { |t| <= |s| && t == s[|s| - |t|..] }

  lemma SuffixTrans(a: string, b: string, c: string)
    requires Suffix(a, b) && Suffix(b, c)
    ensures Suffix(a, c)
  {
    assert c[|c| - |b|..][|b| - |a|..] == c[|c| - |a|..];
  }

  lemma DropIsSuffix(s: string, n: nat)
    requires n <= |s|
    ensures Suffix(s[n..], s)
  {
  }

  lemma Inside(t: string, s: string, n: nat)
    requires n <= |s| && Suffix(t, s[n..])
    ensures Suffix(t, s)
  {
    SuffixTrans(t, s[n..], s);
  }

  lemma {:induction false} CommentSuffix(s: string)
    ensures Suffix(SkipComment(s), s)
  {
    if s != "" && s[0] != '\n' {
      CommentSuffix(s[1..]);
      Inside(SkipComment(s[1..]), s, 1);
    }
  }

  lemma {:induction false} BlankSuffix(s: string)
    ensures Suffix(SkipBlank(s), s)
    decreases |s|
  {
    if s != "" && IsWhitespace(s[0]) {
      BlankSuffix(s[1..]);
      Inside(SkipBlank(s), s, 1);
    } else if s != "" && s[0] == ';' {
      var t := SkipComment(s[1..]);
      CommentSuffix(s[1..]);
      BlankSuffix(t);
      SuffixTrans(SkipBlank(t), t, s[1..]);
      Inside(SkipBlank(t), s, 1);
    }
  }

  lemma {:induction false} BodySuffix(s: string)
    ensures Suffix(StringBody(s).rest, s)
  {
    if s != "" && s[0] != '"' && !(s[0] == '\\' && |s| == 1) {
      var n := if s[0] == '\\' then 2 else 1;
      BodySuffix(s[n..]);
      Inside(StringBody(s[n..]).rest, s, n);
    }
  }

  lemma CharSuffix(s: string)
    ensures Suffix(ReadCharLiteral(s).rest, s)
  {
    if s != "" { DropIsSuffix(s, 1 + Min(TokenLength(s[1..]), CHAR_NAME_MAX - 2)); }
  }

  /** Reading consumes at least one character and leaves the rest of the text as it is. */
  lemma {:induction false} ExprSuffix(s: string)
    requires Starts(s)
    ensures Suffix(ReadExpr(s).rest, s) && |ReadExpr(s).rest| < |s|
    decreases |s|, 0
  {
    var p := ReadExpr(s);
    if s[0] == '(' {
      ListSuffix(s[1..]);
      Inside(p.rest, s, 1);
    } else if s[0] == '"' {
      BodySuffix(s[1..]);
      Inside(p.rest, s, 1);
    } else if s[0] == '\'' {
      QuotedSuffix(s[1..], "QUOTE");
      Inside(p.rest, s, 1);
    } else if s[0] == '`' {
      QuotedSuffix(s[1..], "QUASIQUOTE");
      Inside(p.rest, s, 1);
    } else if s[0] == ',' {
      if |s| > 1 && s[1] == '@' {
        QuotedSuffix(s[2..], "UNQUOTE-SPLICING");
        Inside(p.rest, s, 2);
      } else {
        QuotedSuffix(s[1..], "UNQUOTE");
        Inside(p.rest, s, 1);
      }
    } else if s[0] == '#' {
      HashSuffix(s[1..]);
      Inside(p.rest, s, 1);
    }
  }

  /** A blank, an expression, and what is left behind both. */
  lemma {:induction false} BlankExprSuffix(s: string)
    requires SkipBlank(s) != ""
    ensures Suffix(ReadExpr(SkipBlank(s)).rest, s)
    decreases |s|, 1
  {
    BlankSuffix(s);
    ExprSuffix(SkipBlank(s));
    SuffixTrans(ReadExpr(SkipBlank(s)).rest, SkipBlank(s), s);
  }

  lemma {:induction false} QuotedSuffix(s: string, name: string)
    ensures Suffix(ReadQuoted(s, name).rest, s)
    decreases |s|, 2
  {
    if SkipBlank(s) != "" { BlankExprSuffix(s); }
  }

  lemma {:induction false} HashSuffix(s: string)
    ensures Suffix(ReadHash(s).rest, s)
    decreases |s|, 3
  {
    if s != "" {
      var p := ReadHash(s);
      if s[0] == '\'' {
        QuotedSuffix(s[1..], "FUNCTION");
        Inside(p.rest, s, 1);
      } else if s[0] == '(' {
        ListSuffix(s[1..]);
        assert p.rest == ReadList(s[1..]).rest;
        Inside(p.rest, s, 1);
      } else if IsDigit(s[0]) {
        ArraySuffix(s);
      } else if s[0] == '\\' {
        CharSuffix(s[1..]);
        Inside(p.rest, s, 1);
      } else {
        RadixSuffix(s);
      }
    }
  }

  lemma RadixSuffix(s: string)
    requires s != "" && s[0] != '\'' && s[0] != '(' && s[0] != '\\' && !IsDigit(s[0])
    ensures Suffix(ReadHash(s).rest, s)
  {
    var p := ReadHash(s);
    if p.rest != s {
      DropIsSuffix(s[1..], TokenLength(s[1..]));
      assert p.rest == AfterToken(s[1..]);
      Inside(p.rest, s, 1);
    }
  }

  lemma {:induction false} ArraySuffix(s: string)
    ensures Suffix(ReadArray(s).rest, s)
    decreases |s|, 2
  {
    var n := DigitRun(s);
    if n < |s| && (s[n] == 'A' || s[n] == 'a') && SkipBlank(s[n + 1..]) != "" {
      BlankExprSuffix(s[n + 1..]);
      Inside(ReadArray(s).rest, s, n + 1);
    }
  }

  lemma {:induction false} ListSuffix(s: string)
    ensures Suffix(ReadList(s).rest, s)
    decreases |s|, 2
  {
    var t := SkipBlank(s);
    BlankSuffix(s);
    if t != "" && t[0] == ')' {
      SuffixTrans(t[1..], t, s);
    } else if t != "" {
      var first := ReadExpr(t);
      BlankExprSuffix(s);
      RestSuffix(first.rest);
      SuffixTrans(ReadRest(first.rest).rest, first.rest, s);
    }
  }

  lemma {:induction false} RestSuffix(s: string)
    ensures Suffix(ReadRest(s).rest, s)
    decreases |s|, 2
  {
    var t := SkipBlank(s);
    BlankSuffix(s);
    if t != "" && t[0] == ')' {
      SuffixTrans(t[1..], t, s);
    } else if t != "" {
      var elem := ReadExpr(t);
      BlankExprSuffix(s);
      RestSuffix(elem.rest);
      SuffixTrans(ReadRest(elem.rest).rest, elem.rest, s);
      AfterDotSuffix(elem.rest);
      SuffixTrans(ReadAfterDot(elem.rest).rest, elem.rest, s);
    }
  }

  lemma {:induction false} AfterDotSuffix(s: string)
    ensures Suffix(ReadAfterDot(s).rest, s)
    decreases |s|, 2
  {
    if SkipBlank(s) != "" {
      var d := ReadExpr(SkipBlank(s));
      BlankExprSuffix(s);
      var u := SkipBlank(d.rest);
      BlankSuffix(d.rest);
      SuffixTrans(u, d.rest, s);
      if u != "" { SuffixTrans(u[1..], u, s); }
    }
  }

  // ---------------------------------------------------------------- several expressions

  /** What repeated reading returns until the end of the text. */
  function ReadForms(s: string): seq<Datum>
    decreases |s|
  {
    var t := SkipBlank(s);
    if t == "" then [] else [ReadExpr(t).datum] + ReadForms(ReadExpr(t).rest)
  }

  lemma SameForms(s: string, t: string)
    requires SkipBlank(s) == SkipBlank(t)
    ensures ReadForms(s) == ReadForms(t)
  {
  }
}
