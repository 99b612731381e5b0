/** src/c/reader.c as it works: a character source with one character of lookahead, token
    buffers of fixed size and limbs updated digit by digit. */
module Reader {
  import opened Numerals
  import opened Limbs
  import opened Syntax
  import opened Grammar

  /** An os_stream_t, as the characters still to come; the first may be held back. */
  class CharStream {
    var text: string
    var hasLookahead: bool
    var lookahead: char

    ghost function Unread(): string
      reads this
    {
      if hasLookahead then [lookahead] + text else text
    }

    constructor (text: string)
      ensures Unread() == text
    {
      this.text, hasLookahead, lookahead := text, false, ' ';
    }

    /** os_stream_read_char */
    method ReadChar() returns (ok: bool, c: char)
      modifies this
      ensures ok <==> old(Unread()) != ""
      ensures ok ==> old(Unread()) == [c] + Unread() && !hasLookahead
      ensures !ok ==> Unread() == "" && !hasLookahead
    {
      c := lookahead;
      ok := true;
      if hasLookahead {
        hasLookahead := false;
      } else if text == "" {
        ok := false;
      } else {
        c, text := text[0], text[1..];
      }
    }
  }

  lemma Shift(taken: string, c: char, rest: string)
    ensures taken + ([c] + rest) == (taken + [c]) + rest
  {
  }

  lemma TokenTaken(taken: string, rest: string)
    requires Plain(taken) && (rest == "" || IsDelimiter(rest[0]))
    ensures Token(taken + rest) == taken[..Min(|taken|, READER_TOKEN_MAX - 1)] && AfterToken(taken + rest) == rest
  {
    TokenGoesOn(taken, rest);
  }

  // ---------------------------------------------------------------- atoms

  /** Sixteen limbs hold every number of 127 digits in any radix up to 16. */
  lemma SixteenLimbs(digits: string, radix: nat)
    requires 1 <= radix <= 16 && AllDigits(digits, radix) && |digits| <= READER_TOKEN_MAX - 1
    ensures Value(digits, radix) < Pow(LIMB, READER_INT_LIMBS)
  {
    ValueBound(digits, radix);
    PowGrows(radix, 16, |digits|, 127);
    PowMul(16, 8, 16);
    assert Pow(16, 8) == LIMB;
    PowGrows(16, 16, 127, 128);
  }

  const READER_INT_LIMBS: nat := 16

  /** The digit loop of read_atom and read_radix_integer: the limbs are multiplied by the
      radix and the next digit is added, until a character is no digit. */
  method Accumulate(body: string, radix: nat) returns (ok: bool, magnitude: nat)
    requires 2 <= radix <= 16 && |body| <= READER_TOKEN_MAX - 1
    ensures ok <==> AllDigits(body, radix)
    ensures ok ==> magnitude == Value(body, radix)
  {
    var limbs := new nat[READER_INT_LIMBS];
    limbs[0] := 0;
    var count := 1;
    magnitude := 0;
    assert Magnitude(limbs[..1]) == 0;
    for i := 0 to |body|
      invariant 1 <= count <= READER_INT_LIMBS && AllLimbs(limbs[..count]) && AllDigits(body[..i], radix)
      invariant Magnitude(limbs[..count]) == Value(body[..i], radix)
    {
      var v := DigitValue(body[i], radix);
      if v < 0 { return false, 0; }
      assert body[..i + 1] == body[..i] + [body[i]];
      ValueSnoc(body[..i], body[i], radix);
      SixteenLimbs(body[..i + 1], radix);
      count := MulSmallAddSmall(limbs, count, radix, v);
    }
    assert body[..|body|] == body;
    return true, Magnitude(limbs[..count]);
  }

  /** From position `i` over the digits that follow. */
  method SkipDigits(s: string, start: nat) returns (i: nat)
    requires start <= |s|
    ensures start <= i <= |s| && i == start + DigitRun(s[start..])
  {
    i := start;
    while i < |s| && IsDigit(s[i])
      invariant start <= i <= |s| && start + DigitRun(s[start..]) == i + DigitRun(s[i..])
    {
      assert s[i..][1..] == s[i + 1..];
      i := i + 1;
    }
  }

  /** What parse_float_token accepts. */
  method ParseFloat(s: string) returns (ok: bool)
    ensures ok == FloatSyntax(s)
  {
    var i := SkipDigits(s, 0);
    assert s[0..] == s;
    if i == 0 { return false; }
    var hasDot := i < |s| && s[i] == '.';
    if hasDot {
      var fraction := i + 1;
      i := SkipDigits(s, fraction);
      if i == fraction { return false; }
    }
    ok := ParseExponent(s, i, hasDot);
  }

  /** From the end of the digits on: an exponent or nothing. */
  method ParseExponent(s: string, start: nat, hasDot: bool) returns (ok: bool)
    requires start <= |s|
    ensures ok == ExponentSyntax(s[start..], hasDot)
  {
    var i := start;
    if i == |s| { return hasDot; }
    if !IsMarker(s[i]) { return false; }
    i := i + 1;
    if i < |s| && IsSign(s[i]) { i := i + 1; }
    assert s[i..] == if |s[start..]| > 1 && IsSign(s[start..][1]) then s[start..][2..] else s[start..][1..];
    var end := SkipDigits(s, i);
    ok := end > i && end == |s|;
  }

  /** The two tests of read_atom on the characters of a token. */
  method FloatCharacters(s: string) returns (ok: bool)
    ensures ok == LooksLikeFloat(s)
  {
    var digit := false;
    for i := 0 to |s|
      invariant forall j :: 0 <= j < i ==> IsFloatChar(s[j])
      invariant digit <==> exists j :: 0 <= j < i && IsDigit(s[j])
    {
      if !IsFloatChar(s[i]) { return false; }
      if IsDigit(s[i]) { digit := true; }
    }
    return |s| > 0 && digit;
  }

  /** has_extended_float_marker */
  method ExtendedMarker(s: string) returns (found: bool)
    ensures found == HasExtendedMarker(s)
  {
    for i := 0 to |s|
      invariant forall j :: 0 <= j < i ==> !IsExtendedMarker(s[j])
    {
      if IsExtendedMarker(s[i]) { return true; }
    }
    return false;
  }

  /** read_atom after its token is read. */
  method AtomOf(token: string) returns (d: Datum)
    requires |token| <= READER_TOKEN_MAX - 1
    ensures d == Atom(token)
  {
    var body := token[SignLength(token)..];
    if body != "" {
      var ok, magnitude := Accumulate(body, 10);
      if ok { return Signed(token, magnitude); }
    }
    if token == "1+" || token == "1-" { return MakeSymbol(token); }
    var float := FloatCharacters(body);
    if float {
      float := ParseFloat(body);
      if float { return Float(token); }
      var marker := ExtendedMarker(body);
      return if marker then MakeSymbol(token) else READ_ERROR;
    }
    return MakeSymbol(token);
  }

  /** read_radix_integer after its token is read. */
  method RadixIntegerOf(token: string, radix: nat) returns (d: Datum)
    requires |token| <= READER_TOKEN_MAX - 1 && 2 <= radix <= 16
    ensures d == RadixInteger(token, radix)
  {
    var body := token[SignLength(token)..];
    if body == "" { return READ_ERROR; }
    var ok, magnitude := Accumulate(body, radix);
    return if ok then Signed(token, magnitude) else READ_ERROR;
  }

  // ---------------------------------------------------------------- the reader

  /** stream_source_ctx_t, and the reader on it. */
  class Source {
    const stream: CharStream
    var hasLookahead: bool
    var lookahead: char
    /** The characters still to be read: the lookahead and what the stream has. */
    ghost var rest: string

    constructor (stream: CharStream)
      ensures this.stream == stream && Valid() && rest == stream.Unread() && !hasLookahead
    {
      this.stream, hasLookahead, lookahead, rest := stream, false, ' ', stream.Unread();
    }

    /** While this reader holds a character back, the stream holds none. */
    ghost predicate Valid()
      reads this, stream
    {
      && (hasLookahead ==> !stream.hasLookahead)
      && rest == if hasLookahead then [lookahead] + stream.Unread() else stream.Unread()
    }

    /** stream_source_fill, stream_source_has_more */
    method HasMore() returns (more: bool)
      requires Valid()
      modifies this, stream
      ensures Valid() && rest == old(rest) && more == (rest != "") && hasLookahead == more
    {
      if hasLookahead { return true; }
      var ok, c := stream.ReadChar();
      if ok {
        hasLookahead, lookahead := true, c;
      }
      more := ok;
    }

    /** stream_source_peek */
    method Peek() returns (c: char)
      requires Valid() && rest != ""
      modifies this, stream
      ensures Valid() && rest == old(rest) && c == rest[0]
    {
      var more := HasMore();
      c := lookahead;
    }

    /** stream_source_advance */
    method Advance() returns (c: char)
      requires Valid() && rest != ""
      modifies this, stream
      ensures Valid() && old(rest) == [c] + rest && c == old(rest)[0] && rest == old(rest)[1..]
    {
      var more := HasMore();
      hasLookahead := false;
      c := lookahead;
      rest := rest[1..];
    }

    /** skip_whitespace */
    method SkipWhitespace()
      requires Valid()
      modifies this, stream
      ensures Valid() && rest == SkipBlank(old(rest))
    {
      var more := HasMore();
      while more
        invariant Valid() && more == (rest != "") && SkipBlank(rest) == SkipBlank(old(rest))
        decreases |rest|
      {
        var c := Peek();
        if IsWhitespace(c) {
          c := Advance();
        } else if c == ';' {
          SkipLine();
        } else {
          return;
        }
        more := HasMore();
      }
    }

    /** The comment loop of skip_whitespace. */
    method SkipLine()
      requires Valid() && rest != "" && rest[0] == ';'
      modifies this, stream
      ensures Valid() && rest == SkipComment(old(rest)[1..])
    {
      var c := Advance();
      var more := HasMore();
      while more
        invariant Valid() && more == (rest != "") && SkipComment(rest) == SkipComment(old(rest)[1..])
        decreases |rest|
      {
        c := Peek();
        if c == '\n' { return; }
        c := Advance();
        more := HasMore();
      }
    }

    /** A character for the token buffer; when the buffer is full it is dropped. */
    method Keep(buffer: array<char>, len: nat, c: char, ghost taken: string) returns (n: nat)
      requires buffer.Length == READER_TOKEN_MAX && len == Min(|taken|, READER_TOKEN_MAX - 1)
      requires buffer[..len] == taken[..len]
      modifies buffer
      ensures n == Min(|taken| + 1, READER_TOKEN_MAX - 1) && buffer[..n] == (taken + [c])[..n]
    {
      n := len;
      if len < READER_TOKEN_MAX - 1 {
        buffer[len] := c;
        n := len + 1;
        assert buffer[..n] == taken + [c];
      }
    }

    /** The test of every token loop: a character that is there and no delimiter is read. */
    method NextInToken() returns (inside: bool, c: char)
      requires Valid()
      modifies this, stream
      ensures Valid()
      ensures inside ==> old(rest) == [c] + rest && !IsDelimiter(c)
      ensures !inside ==> rest == old(rest) && (rest == "" || IsDelimiter(rest[0]))
    {
      c := ' ';
      inside := HasMore();
      if inside {
        c := Peek();
        inside := !IsDelimiter(c);
        if inside { c := Advance(); }
      }
    }

    /** The token loop of read_atom and read_radix_integer. */
    method ReadToken() returns (token: string)
      requires Valid()
      modifies this, stream
      ensures Valid() && token == Token(old(rest)) && rest == AfterToken(old(rest))
    {
      var buffer := new char[READER_TOKEN_MAX];
      var len := 0;
      ghost var taken := "";
      var inside, c := NextInToken();
      while inside
        invariant Valid() && Plain(taken)
        invariant if inside then old(rest) == taken + ([c] + rest) && !IsDelimiter(c)
                  else old(rest) == taken + rest && (rest == "" || IsDelimiter(rest[0]))
        invariant len == Min(|taken|, READER_TOKEN_MAX - 1) && buffer[..len] == taken[..len]
        decreases |rest|, inside
      {
        len := Keep(buffer, len, c, taken);
        Shift(taken, c, rest);
        taken := taken + [c];
        inside, c := NextInToken();
      }
      TokenTaken(taken, rest);
      token := buffer[..len];
    }

    /** One round of the string loop: the next character, its backslash taken off. */
    method NextInString() returns (step: Step, c: char)
      requires Valid()
      modifies this, stream
      ensures Valid()
      ensures step.Inside? ==> |rest| < |old(rest)| && StringBody(old(rest)) == Before([c], StringBody(rest))
      ensures step.Closed? ==> StringBody(old(rest)) == Body(true, "", rest)
      ensures step.Broken? ==> StringBody(old(rest)) == Body(false, "", rest)
    {
      c := ' ';
      var more := HasMore();
      if !more { return Broken, c; }
      c := Advance();
      if c == '"' { return Closed, c; }
      if c == '\\' {
        more := HasMore();
        if !more { return Broken, c; }
        c := Advance();
      }
      step := Inside;
    }

    /** read_string, after the opening quote. */
    method ReadString() returns (d: Datum)
      requires Valid()
      modifies this, stream
      ensures Valid() && Parsed(d, rest) == Grammar.ReadString(old(rest))
    {
      var buffer := new char[READER_TOKEN_MAX];
      var len := 0;
      ghost var taken := "";
      var step, c := NextInString();
      while step.Inside?
        invariant Valid()
        invariant StringBody(old(rest)) ==
                  match step
                  case Inside => Before(taken + [c], StringBody(rest))
                  case Closed => Body(true, taken, rest)
                  case Broken => Body(false, taken, rest)
        invariant len == Min(|taken|, READER_TOKEN_MAX - 1) && buffer[..len] == taken[..len]
        decreases |rest|, step.Inside?
      {
        len := Keep(buffer, len, c, taken);
        taken := taken + [c];
        ghost var before := rest;
        step, c := NextInString();
        BeforeStep(taken, c, StringBody(rest));
        assert Before(taken, Body(true, "", rest)) == Body(true, taken, rest);
        assert Before(taken, Body(false, "", rest)) == Body(false, taken, rest);
      }
      d := if step.Closed? then Str(CString(buffer[..len])) else READ_ERROR;
    }

    /** read_char_literal: names are compared without regard to case. */
    method ReadCharLiteral() returns (d: Datum)
      requires Valid()
      modifies this, stream
      ensures Valid() && Parsed(d, rest) == Grammar.ReadCharLiteral(old(rest))
    {
      var more := HasMore();
      if !more { return READ_ERROR; }
      var buffer := new char[CHAR_NAME_MAX];
      var c := Advance();
      buffer[0] := c;
      var len := 1;
      ghost var taken := [c];
      var inside := true;
      while len < CHAR_NAME_MAX - 1 && inside
        invariant Valid() && 1 <= len <= CHAR_NAME_MAX - 1 && buffer[..len] == taken
        invariant old(rest) == taken + rest && Plain(taken[1..])
        invariant !inside ==> rest == "" || IsDelimiter(rest[0])
        decreases CHAR_NAME_MAX - len, inside
      {
        inside, c := NextInToken();
        if inside {
          Shift(taken, c, rest);
          buffer[len] := c;
          NamePushed(buffer, len, taken, c);
          taken := taken + [c];
          len := len + 1;
        }
      }
      NameTaken(taken, rest);
      d := CharNamed(buffer[..len]);
    }

    /** read_atom */
    method ReadAtom() returns (d: Datum)
      requires Valid()
      modifies this, stream
      ensures Valid() && Parsed(d, rest) == Grammar.ReadAtom(old(rest))
    {
      var token := ReadToken();
      d := AtomOf(token);
    }

    /** read_radix_integer */
    method ReadRadixInteger(radix: nat) returns (d: Datum)
      requires Valid() && 2 <= radix <= 16
      modifies this, stream
      ensures Valid() && Parsed(d, rest) == Grammar.ReadRadix(old(rest), radix)
    {
      var token := ReadToken();
      d := RadixIntegerOf(token, radix);
    }

    /** read_expr */
    method ReadExpr() returns (d: Datum)
      requires Valid() && Starts(rest)
      modifies this, stream
      ensures Valid() && Parsed(d, rest) == Grammar.ReadExpr(old(rest))
      decreases |rest|, 1
    {
      var c := Peek();
      if c == '(' {
        c := Advance();
        d := ReadList();
      } else if c == ')' {
        c := Advance();
        d := READ_ERROR;
      } else if c == '"' {
        c := Advance();
        d := ReadString();
      } else if c == '\'' {
        c := Advance();
        d := ReadQuoted("QUOTE");
      } else if c == '`' {
        c := Advance();
        d := ReadQuoted("QUASIQUOTE");
      } else if c == ',' {
        d := ReadUnquote();
      } else if c == '#' {
        c := Advance();
        d := ReadHash();
      } else {
        d := ReadAtom();
      }
    }

    /** The `,` and `,@` branch of read_expr. */
    method ReadUnquote() returns (d: Datum)
      requires Valid() && rest != "" && rest[0] == ','
      modifies this, stream
      ensures Valid() && Parsed(d, rest) == Grammar.ReadExpr(old(rest))
      decreases |rest|, 0
    {
      var c := Advance();
      var name := "UNQUOTE";
      var more := HasMore();
      if more {
        c := Peek();
        if c == '@' {
          c := Advance();
          name := "UNQUOTE-SPLICING";
        }
      }
      d := ReadQuoted(name);
    }

    /** The expression after a prefix character. */
    method ReadQuoted(name: string) returns (d: Datum)
      requires Valid()
      modifies this, stream
      ensures Valid() && Parsed(d, rest) == Grammar.ReadQuoted(old(rest), name)
      decreases |rest|, 2
    {
      SkipWhitespace();
      var more := HasMore();
      if !more { return READ_ERROR; }
      d := ReadExpr();
      if d != READ_ERROR { d := Pair(Sym(name), Pair(d, Nil)); }
    }

    /** The `#` branch of read_expr. */
    method ReadHash() returns (d: Datum)
      requires Valid()
      modifies this, stream
      ensures Valid() && Parsed(d, rest) == Grammar.ReadHash(old(rest))
      decreases |rest|, 3
    {
      var more := HasMore();
      if !more { return READ_ERROR; }
      var c := Peek();
      if c == '\'' {
        c := Advance();
        d := ReadQuoted("FUNCTION");
      } else if c == '\\' {
        c := Advance();
        d := ReadCharLiteral();
      } else if c == 'b' || c == 'B' {
        c := Advance();
        d := ReadRadixInteger(2);
      } else if c == 'o' || c == 'O' {
        c := Advance();
        d := ReadRadixInteger(8);
      } else if c == 'x' || c == 'X' {
        c := Advance();
        d := ReadRadixInteger(16);
      } else if c == '(' {
        c := Advance();
        d := ReadList();
        d := if d == READ_ERROR || !IsProper(d) then READ_ERROR else Array([|Items(d)|], Items(d));
      } else if IsDigit(c) {
        d := ReadArrayLiteral();
      } else {
        d := READ_ERROR;
      }
    }

    /** The digits of the rank of #nA, accumulated in 64 bits. */
    method ReadRank() returns (rank: nat)
      requires Valid()
      modifies this, stream
      ensures Valid() && rank == Grammar.Rank(old(rest)) && rest == old(rest)[DigitRun(old(rest))..]
    {
      rank := 0;
      ghost var taken := "";
      var more := HasMore();
      while more
        invariant Valid() && more == (rest != "") && old(rest) == taken + rest && AllDigits(taken, 10)
        invariant rank == WrappedValue(taken)
        decreases |rest|
      {
        var c := Peek();
        if !IsDigit(c) { break; }
        c := Advance();
        Shift(taken, c, rest);
        RankStep(taken, c);
        rank := NextRank(rank, (c - '0') as int);
        taken := taken + [c];
        more := HasMore();
      }
      RunTaken(taken, rest);
    }

    /** The array branch of read_expr. */
    method ReadArrayLiteral() returns (d: Datum)
      requires Valid()
      modifies this, stream
      ensures Valid() && Parsed(d, rest) == Grammar.ReadArray(old(rest))
      decreases |rest|, 2
    {
      var rank := ReadRank();
      var more := HasMore();
      if !more { return READ_ERROR; }
      var c := Advance();
      if c != 'a' && c != 'A' { return READ_ERROR; }
      SkipWhitespace();
      more := HasMore();
      if !more { return READ_ERROR; }
      d := ReadExpr();
      if d != READ_ERROR { d := ArrayFrom(rank, d); }
    }

    /** read_list */
    method ReadList() returns (d: Datum)
      requires Valid()
      modifies this, stream
      ensures Valid() && Parsed(d, rest) == Grammar.ReadList(old(rest))
      decreases |rest|, 2
    {
      SkipWhitespace();
      var more := HasMore();
      if !more { return READ_ERROR; }
      var c := Peek();
      if c == ')' {
        c := Advance();
        return Nil;
      }
      var car := ReadExpr();
      if car == READ_ERROR || car == DOT { return READ_ERROR; }
      var cdr := ReadListRest();
      d := if cdr == READ_ERROR then READ_ERROR else Pair(car, cdr);
    }

    /** read_list_rest */
    method ReadListRest() returns (d: Datum)
      requires Valid()
      modifies this, stream
      ensures Valid() && Parsed(d, rest) == Grammar.ReadRest(old(rest))
      decreases |rest|, 2
    {
      SkipWhitespace();
      var more := HasMore();
      if !more { return READ_ERROR; }
      var c := Peek();
      if c == ')' {
        c := Advance();
        return Nil;
      }
      var elem := ReadExpr();
      if elem == READ_ERROR { return READ_ERROR; }
      if elem == DOT {
        d := ReadAfterDot();
        return;
      }
      var others := ReadListRest();
      d := if others == READ_ERROR then READ_ERROR else Pair(elem, others);
    }

    /** The dotted-pair branch of read_list_rest. */
    method ReadAfterDot() returns (d: Datum)
      requires Valid()
      modifies this, stream
      ensures Valid() && Parsed(d, rest) == Grammar.ReadAfterDot(old(rest))
      decreases |rest|, 2
    {
      SkipWhitespace();
      var more := HasMore();
      if !more { return READ_ERROR; }
      d := ReadExpr();
      if d == READ_ERROR { return; }
      SkipWhitespace();
      more := HasMore();
      if !more { return READ_ERROR; }
      var c := Peek();
      if c != ')' { return READ_ERROR; }
      c := Advance();
    }
  }

  lemma NamePushed(buffer: array<char>, len: nat, taken: string, c: char)
    requires len < buffer.Length && taken != "" && buffer[..len] == taken && buffer[len] == c
    ensures buffer[..len + 1] == taken + [c] && (taken + [c])[1..] == taken[1..] + [c]
  {
  }

  datatype Step = Inside | Closed | Broken

  /** A body with more characters in front. */
  function Before(taken: string, b: Body): Body { b.(chars := taken + b.chars) }

  lemma BeforeStep(taken: string, c: char, b: Body)
    ensures Before(taken, b.(chars := [c] + b.chars)) == Before(taken + [c], b)
  {
    Shift(taken, c, b.chars);
  }

  lemma NameTaken(taken: string, rest: string)
    requires 1 <= |taken| <= CHAR_NAME_MAX - 1 && Plain(taken[1..])
    requires |taken| == CHAR_NAME_MAX - 1 || rest == "" || IsDelimiter(rest[0])
    ensures Grammar.ReadCharLiteral(taken + rest) == Parsed(CharNamed(taken), rest)
  {
    assert (taken + rest)[1..] == taken[1..] + rest;
    TokenGoesOn(taken[1..], rest);
    assert (taken + rest)[..|taken|] == taken && (taken + rest)[|taken|..] == rest;
  }

  const UINT64: nat := 0x1_0000_0000_0000_0000

  /** One more digit of a rank, in 64-bit arithmetic. */
  function NextRank(rank: nat, d: nat): nat { (rank * 10 + d) % UINT64 }

  function WrappedValue(digits: string): nat
    requires AllDigits(digits, 10)
  {
    Value(digits, 10) % UINT64
  }

  lemma RankStep(digits: string, c: char)
    requires AllDigits(digits, 10) && IsDigit(c)
    ensures AllDigits(digits + [c], 10)
    ensures WrappedValue(digits + [c]) == NextRank(WrappedValue(digits), (c - '0') as int)
  {
    ValueSnoc(digits, c, 10);
    Accumulated(Value(digits, 10), (c - '0') as int);
  }

  lemma Accumulated(v: nat, d: nat)
    requires d < 10
    ensures ((v % UINT64) * 10 + d) % UINT64 == (v * 10 + d) % UINT64
  {
    var q := v / UINT64;
    assert v * 10 + d == (v % UINT64) * 10 + d + UINT64 * (q * 10);
  }

  lemma {:induction false} RunTaken(taken: string, rest: string)
    requires AllDigits(taken, 10) && (rest == "" || !IsDigit(rest[0]))
    ensures DigitRun(taken + rest) == |taken| && (taken + rest)[..|taken|] == taken && (taken + rest)[|taken|..] == rest
  {
    if taken == "" {
      assert taken + rest == rest;
    } else {
      assert (taken + rest)[1..] == taken[1..] + rest;
      RunTaken(taken[1..], rest);
    }
  }

  // ---------------------------------------------------------------- streams

  /** os_read_stream_ex as cc_read calls it: one expression is read, and a character that was
      looked at but not used goes back to the stream. */
  method Read(stream: CharStream) returns (eof: bool, d: Datum)
    modifies stream
    ensures eof <==> SkipBlank(old(stream.Unread())) == ""
    ensures !eof ==> Parsed(d, stream.Unread()) == Grammar.ReadExpr(SkipBlank(old(stream.Unread())))
    ensures eof ==> stream.Unread() == ""
  {
    var source := new Source(stream);
    source.SkipWhitespace();
    var more := source.HasMore();
    if !more { return true, Nil; }
    d := source.ReadExpr();
    eof := false;
    if source.hasLookahead {
      if !stream.hasLookahead {
        stream.hasLookahead, stream.lookahead := true, source.lookahead;
      }
    }
  }

  /** Reading until the end of the stream: what one call looked at but did not use is there
      for the next. */
  method ReadEvery(stream: CharStream) returns (data: seq<Datum>)
    modifies stream
    ensures data == ReadForms(old(stream.Unread())) && stream.Unread() == ""
  {
    data := [];
    var eof, d := Read(stream);
    while !eof
      invariant ReadForms(old(stream.Unread())) == if eof then data else data + [d] + ReadForms(stream.Unread())
      invariant eof ==> stream.Unread() == ""
      decreases |stream.Unread()|, !eof
    {
      data := data + [d];
      ghost var before := stream.Unread();
      eof, d := Read(stream);
      assert !eof ==> data + ReadForms(before) == data + [d] + ReadForms(stream.Unread());
    }
  }
}
