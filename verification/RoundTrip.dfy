/** Reading what was printed. */
module RoundTrip {
  import opened Numerals
  import opened Syntax
  import opened Grammar

  /** Nothing, or a character that ends a token. */
  predicate Delimited(k: string) { k == "" || IsDelimiter(k[0]) }

  // ---------------------------------------------------------------- tokens

  lemma TokenEnds(token: string, k: string)
    requires Plain(token) && Delimited(k)
    ensures TokenLength(token + k) == |token|
  {
    TokenGoesOn(token, k);
  }

  /** A token is read as far as the buffer holds it. */
  lemma TokenReads(token: string, k: string)
    requires Plain(token) && Delimited(k)
    ensures Token(token + k) == token[..Min(|token|, READER_TOKEN_MAX - 1)]
    ensures AfterToken(token + k) == k
  {
    TokenEnds(token, k);
  }

  /** Where a token ends, whatever follows. */
  lemma {:induction false} TokenIsPlain(s: string)
    ensures Plain(s[..TokenLength(s)]) && Delimited(s[TokenLength(s)..])
  {
    if s != "" && !IsDelimiter(s[0]) {
      TokenIsPlain(s[1..]);
      var n := TokenLength(s);
      assert s[n..] == s[1..][n - 1..];
      forall i | 0 <= i < n ensures !IsDelimiter(s[..n][i]) {
        if i > 0 { assert s[i] == s[1..][..n - 1][i - 1]; }
      }
    }
  }

  // ---------------------------------------------------------------- integers

  lemma {:induction false} DigitsPlain(n: nat, radix: nat)
    requires 2 <= radix <= 16
    ensures Plain(Digits(n, radix))
    ensures forall i :: 0 <= i < |Digits(n, radix)| ==> !IsSign(Digits(n, radix)[i]) && Digits(n, radix)[i] != '#'
  {
    if n >= radix {
      Smaller(n, radix);
      DigitsPlain(n / radix, radix);
    }
  }

  /** An integer's text, in the reader's terms. */
  lemma IntText(n: int)
    ensures Plain(PrintInt(n)) && PrintInt(n)[0] != '#'
    ensures Negative(PrintInt(n)) <==> n < 0
    ensures PrintInt(n)[SignLength(PrintInt(n))..] == Digits(if n < 0 then -n else n, 10)
  {
    var m: nat := if n < 0 then -n else n;
    DigitsPlain(m, 10);
    var s := PrintInt(n);
    assert n < 0 ==> s[1..] == Digits(m, 10);
    assert n >= 0 ==> s[0..] == Digits(m, 10);
  }

  lemma IntReads(n: int)
    ensures Atom(PrintInt(n)) == Int(n)
  {
    IntText(n);
    DigitsRead(if n < 0 then -n else n, 10);
  }

  /** Dropping digits from the end of a number changes it. */
  lemma ShorterValue(s: string, m: nat, radix: nat)
    requires 2 <= radix <= 16 && AllDigits(s, radix) && s != "" && m < |s| && DigitValue(s[0], radix) > 0
    ensures AllDigits(s[..m], radix) && Value(s[..m], radix) < Value(s, radix)
    decreases |s|
  {
    var t := s[..|s| - 1];
    LastDigit(s, radix);
    if m < |s| - 1 {
      ShorterValue(t, m, radix);
      assert t[..m] == s[..m];
    } else if m == 0 {
      assert t == "";
    } else {
      FirstDigitCounts(t, radix);
    }
  }

  lemma LastDigit(s: string, radix: nat)
    requires 2 <= radix <= 16 && AllDigits(s, radix) && s != ""
    ensures var t := s[..|s| - 1];
            AllDigits(t, radix) && Value(s, radix) >= 2 * Value(t, radix) + DigitValue(s[|s| - 1], radix)
  {
    var t := s[..|s| - 1];
    Monotone(2, radix, Value(t, radix), Value(t, radix));
  }

  lemma {:induction false} FirstDigitCounts(s: string, radix: nat)
    requires 1 <= radix && AllDigits(s, radix) && s != "" && DigitValue(s[0], radix) > 0
    ensures Value(s, radix) > 0
  {
    if |s| == 1 {
      assert s[..0] == "";
    } else {
      FirstDigitCounts(s[..|s| - 1], radix);
      Monotone(1, radix, Value(s[..|s| - 1], radix), Value(s[..|s| - 1], radix));
    }
  }

  lemma {:induction false} LeadingDigit(n: nat, radix: nat)
    requires 2 <= radix <= 16 && n > 0
    ensures DigitValue(Digits(n, radix)[0], radix) > 0
  {
    if n < radix {
      DigitReads(n, radix);
    } else {
      Smaller(n, radix);
      QuotientBound(n, radix, 1);
      LeadingDigit(n / radix, radix);
    }
  }

  /** An integer is read back exactly when its text fits the token buffer: the digits that
      do not fit are dropped. */
  lemma IntReadsBackIff(n: int, k: string)
    requires Delimited(k)
    ensures Starts(PrintInt(n) + k)
    ensures ReadExpr(PrintInt(n) + k) == Parsed(Int(n), k) <==> |PrintInt(n)| <= READER_TOKEN_MAX - 1
  {
    var s := PrintInt(n);
    IntText(n);
    TokenReads(s, k);
    IntStart(s + k);
    if |s| <= READER_TOKEN_MAX - 1 {
      assert s[..|s|] == s;
      IntReads(n);
    } else {
      IntTruncated(n, READER_TOKEN_MAX - 1);
    }
  }

  /** A token that fits the buffer is read as an atom. */
  lemma AtomReads(token: string, k: string)
    requires 1 <= |token| <= READER_TOKEN_MAX - 1 && Plain(token) && token[0] != '#' && Delimited(k)
    ensures Starts(token + k) && ReadExpr(token + k) == Parsed(Atom(token), k)
  {
    IntStart(token + k);
    TokenReads(token, k);
    assert token[..|token|] == token;
  }

  lemma IntStart(s: string)
    requires s != "" && !IsDelimiter(s[0]) && s[0] != '#'
    ensures ReadExpr(s) == ReadAtom(s)
  {
  }

  lemma IntTruncated(n: int, len: nat)
    requires 2 <= len < |PrintInt(n)|
    ensures Atom(PrintInt(n)[..len]) != Int(n)
  {
    var m: nat := if n < 0 then -n else n;
    var s := PrintInt(n);
    IntText(n);
    var sign := SignLength(s);
    TruncatedDigits(m, len - sign);
    assert s[sign..len] == Digits(m, 10)[..len - sign];
    CutAtom(s, n, len);
  }

  lemma CutAtom(text: string, n: int, len: nat)
    requires 2 <= len < |text| && (Negative(text) <==> n < 0)
    requires AllDigits(text[SignLength(text)..len], 10)
    requires Value(text[SignLength(text)..len], 10) != if n < 0 then -n else n
    ensures Atom(text[..len]) != Int(n)
  {
    assert text[..len][SignLength(text)..] == text[SignLength(text)..len] && text[..len][0] == text[0];
    DigitsAtom(text[..len]);
  }

  lemma DigitsAtom(token: string)
    requires var body := token[SignLength(token)..]; body != "" && AllDigits(body, 10)
    ensures Atom(token) == Signed(token, Value(token[SignLength(token)..], 10))
  {
  }

  lemma TruncatedDigits(m: nat, len: nat)
    requires 1 <= len < |Digits(m, 10)|
    ensures AllDigits(Digits(m, 10)[..len], 10) && Value(Digits(m, 10)[..len], 10) < m
  {
    DigitsRead(m, 10);
    DigitCount(m, 10, 1);
    LeadingDigit(m, 10);
    ShorterValue(Digits(m, 10), len, 10);
  }

  // ---------------------------------------------------------------- strings and characters

  lemma {:induction false} EscapesRead(s: string, k: string)
    ensures StringBody(Escaped(s) + "\"" + k) == Body(true, s, k)
  {
    if s == "" {
      assert "" + "\"" + k == "\"" + k;
    } else {
      var rest := Escaped(s[1..]) + "\"" + k;
      EscapesRead(s[1..], k);
      CharEscapes(s[0], rest);
      var e := if s[0] == '"' || s[0] == '\\' then ['\\', s[0]] else [s[0]];
      Associate4(e, Escaped(s[1..]), "\"", k);
    }
  }

  lemma Associate4(a: string, b: string, c: string, d: string)
    ensures a + b + c + d == a + (b + c + d)
  {
  }

  lemma CharEscapes(c: char, rest: string)
    ensures var e := if c == '"' || c == '\\' then ['\\', c] else [c];
            var b := StringBody(rest);
            StringBody(e + rest) == b.(chars := [c] + b.chars)
  {
    var e := if c == '"' || c == '\\' then ['\\', c] else [c];
    assert (e + rest)[|e|..] == rest;
  }

  predicate NulFree(s: string) { forall i :: 0 <= i < |s| ==> s[i] != '\0' }

  lemma {:induction false} CStringWhole(s: string)
    ensures |CString(s)| <= |s| && CString(s) == s[..|CString(s)|]
    ensures CString(s) == s <==> NulFree(s)
  {
    if s != "" {
      CStringWhole(s[1..]);
      assert s == [s[0]] + s[1..];
      assert NulFree(s) ==> NulFree(s[1..]);
      assert s[0] != '\0' && NulFree(s[1..]) ==> NulFree(s) by {
        forall i | 0 <= i < |s| && s[0] != '\0' && NulFree(s[1..]) ensures s[i] != '\0' {
          if i > 0 { assert s[i] == s[1..][i - 1]; }
        }
      }
    }
  }

  /** A string is read back exactly when it fits the token buffer and holds no NUL. */
  lemma StrReadsBackIff(text: string, k: string)
    ensures Starts(Print(Str(text)) + k)
    ensures ReadExpr(Print(Str(text)) + k) == Parsed(Str(text), k)
            <==> |text| <= READER_TOKEN_MAX - 1 && NulFree(text)
  {
    var s := Print(Str(text)) + k;
    assert s[1..] == Escaped(text) + "\"" + k;
    EscapesRead(text, k);
    var kept := text[..Min(|text|, READER_TOKEN_MAX - 1)];
    CStringWhole(kept);
    assert |text| <= READER_TOKEN_MAX - 1 ==> kept == text;
  }

  /** Every character is read back, whatever byte it is. */
  lemma CharReads(c: char, k: string)
    requires Delimited(k)
    ensures ReadExpr(Print(Char(c)) + k) == Parsed(Char(c), k)
  {
    CharLiteralReads(c, k);
    CharOpens(CharName(c) + k);
    Prefixed("#", "\\", CharName(c), k);
    assert "#" + "\\" == "#\\";
  }

  lemma Prefixed(a: string, b: string, c: string, k: string)
    ensures a + b + c + k == a + (b + (c + k))
  {
  }

  lemma CharOpens(s: string)
    ensures ReadExpr("#" + ("\\" + s)) == ReadCharLiteral(s)
  {
    Behind('\\', s);
    Behind('#', "\\" + s);
    assert ReadExpr("#" + ("\\" + s)) == ReadHash("\\" + s);
  }

  lemma Behind(c: char, s: string)
    ensures ([c] + s)[0] == c && ([c] + s)[1..] == s
  {
  }

  lemma CharLiteralReads(c: char, k: string)
    requires Delimited(k)
    ensures ReadCharLiteral(CharName(c) + k) == Parsed(Char(c), k)
  {
    var name := CharName(c);
    var s := name + k;
    assert s[1..] == name[1..] + k;
    TokenEnds(name[1..], k);
    assert s[..|name|] == name && s[|name|..] == k;
    CharNameReads(c);
  }

  lemma CharNameReads(c: char)
    ensures CharNamed(CharName(c)) == Char(c)
  {
    assert Upper("space") == "SPACE" && Upper("newline") == "NEWLINE" && Upper("tab") == "TAB";
  }

  // ---------------------------------------------------------------- symbols

  /** The tokens that read_atom takes for symbols. */
  predicate Symbolic(token: string) {
    var body := token[SignLength(token)..];
    && (body == "" || !AllDigits(body, 10))
    && (token == "1+" || token == "1-" || !LooksLikeFloat(body) || (!FloatSyntax(body) && HasExtendedMarker(body)))
  }

  /** The names that are read back: one token that is no number, in upper case, without NUL. */
  predicate ReadableName(name: string) {
    && 1 <= |name| <= READER_TOKEN_MAX - 1 && Plain(name) && name[0] != '#' && NulFree(name)
    && Upper(name) == name && name != "NIL" && Symbolic(name)
  }

  lemma NameReads(name: string, k: string)
    requires ReadableName(name) && Delimited(k)
    ensures ReadExpr(name + k) == Parsed(Sym(name), k)
  {
    AtomReads(name, k);
    CStringWhole(name);
  }

  /** A symbol whose name the reader can start on is read back exactly when its name is
      readable; READ-ERROR also comes back, as the error it stands for. */
  lemma NameReadsBackIff(name: string, k: string)
    requires Starts(name) && Delimited(k) && name != "READ-ERROR"
    ensures Starts(name + k)
    ensures ReadExpr(name + k) == Parsed(Sym(name), k) <==> ReadableName(name)
  {
    if ReadableName(name) {
      NameReads(name, k);
    } else if IsDelimiter(name[0]) || name[0] == '#' {
      NoSymbol(name + k);
    } else {
      IntStart(name + k);
      if ReadAtom(name + k) == Parsed(Sym(name), k) { UnreadableName(name, k); }
    }
  }

  /** Only atoms are read as symbols, the error apart. */
  lemma NoSymbol(s: string)
    requires Starts(s) && (IsDelimiter(s[0]) || s[0] == '#')
    ensures ReadExpr(s).datum.Sym? ==> ReadExpr(s).datum == READ_ERROR
  {
    if s[0] == '#' {
      HashNoSymbol(s[1..]);
    } else if s[0] == '(' {
      ListNoSymbol(s[1..]);
    }
  }

  lemma ListNoSymbol(s: string)
    ensures ReadList(s).datum.Sym? ==> ReadList(s).datum == READ_ERROR
  {
  }

  lemma HashNoSymbol(s: string)
    ensures ReadHash(s).datum.Sym? ==> ReadHash(s).datum == READ_ERROR
  {
    if s == "" {
    } else if s[0] == '\'' {
      QuotedNoSymbol(s[1..]);
    } else if s[0] == '\\' {
      CharNoSymbol(s[1..]);
    } else if IsDigit(s[0]) {
      ArrayNoSymbol(s);
    }
  }

  lemma QuotedNoSymbol(s: string)
    ensures ReadQuoted(s, "FUNCTION").datum.Sym? ==> ReadQuoted(s, "FUNCTION").datum == READ_ERROR
  {
  }

  lemma CharNoSymbol(s: string)
    ensures ReadCharLiteral(s).datum.Sym? ==> ReadCharLiteral(s).datum == READ_ERROR
  {
  }

  lemma ArrayNoSymbol(s: string)
    ensures ReadArray(s).datum.Sym? ==> ReadArray(s).datum == READ_ERROR
  {
  }

  lemma UnreadableName(name: string, k: string)
    requires name != "" && name[0] != '#' && Delimited(k) && name != "READ-ERROR"
    requires ReadAtom(name + k) == Parsed(Sym(name), k)
    ensures ReadableName(name)
  {
    var s := name + k;
    NameIsToken(name, k);
    TokenIsPlain(s);
    assert s[..|name|] == name;
    var cut := CString(Token(s));
    CStringWhole(Token(s));
    assert Upper(cut) == name;
    assert |cut| == |name|;
    assert Token(s) == name;
  }

  lemma NameIsToken(name: string, k: string)
    requires ReadAtom(name + k).rest == k
    ensures TokenLength(name + k) == |name|
  {
  }
}
