/** Data as the reader and the printer see them, and their printed form (src/c/print.c with
    `escaped` set, as prin1 does). A char stands for a byte. */
module Syntax {
  import opened Numerals

  /** A float stands for its token: its conversion is not part of this model. */
  datatype Datum =
    | Nil
    | Int(value: int)
    | Float(token: string)
    | Sym(name: string)
    | Str(text: string)
    | Char(code: char)
    | Pair(car: Datum, cdr: Datum)
    | Array(dims: seq<nat>, data: seq<Datum>)

  const MAX_ARRAY_RANK: nat := 8

  /** The number of elements that lie below `level` indices. */
  function Volume(dims: seq<nat>, level: nat): nat
    requires level <= |dims|
    decreases |dims| - level, 1, 0
  {
    if level == |dims| then 1 else RowVolume(dims, level, 0)
  }

  /** The number of elements in one row from index `i` on. */
  function RowVolume(dims: seq<nat>, level: nat, i: nat): nat
    requires level < |dims| && i <= dims[level]
    decreases |dims| - level, 0, dims[level] - i
  {
    if i == dims[level] then 0 else Volume(dims, level + 1) + RowVolume(dims, level, i + 1)
  }

  function Product(dims: seq<nat>): nat { if dims == [] then 1 else dims[0] * Product(dims[1..]) }

  /** An array has as many elements as the product of its dimensions. */
  lemma {:induction false} VolumeIsProduct(dims: seq<nat>, level: nat)
    requires level <= |dims|
    ensures Volume(dims, level) == Product(dims[level..])
    decreases |dims| - level, 1, 0
  {
    if level < |dims| {
      RowIsProduct(dims, level, 0);
      VolumeIsProduct(dims, level + 1);
      assert dims[level..][1..] == dims[level + 1..];
    }
  }

  lemma {:induction false} RowIsProduct(dims: seq<nat>, level: nat, i: nat)
    requires level < |dims| && i <= dims[level]
    ensures RowVolume(dims, level, i) == (dims[level] - i) * Volume(dims, level + 1)
    decreases dims[level] - i
  {
    if i < dims[level] {
      RowIsProduct(dims, level, i + 1);
      var n, v := dims[level] - i, Volume(dims, level + 1);
      assert n * v == v + (n - 1) * v;
    }
  }

  /** Arrays hold as many elements as their dimensions say. */
  predicate WellFormed(d: Datum) {
    match d
    case Pair(a, b) => WellFormed(a) && WellFormed(b)
    case Array(dims, data) =>
      |dims| <= MAX_ARRAY_RANK && |data| == Volume(dims, 0) && forall i :: 0 <= i < |data| ==> WellFormed(data[i])
    case _ => true
  }

  // ---------------------------------------------------------------- printing

  function PrintInt(n: int): (s: string)
    ensures s != ""
  {
    if n < 0 then "-" + Digits(-n, 10) else Digits(n, 10)
  }

  /** print_string: `"` and `\` are preceded by a backslash. */
  function Escaped(s: string): string {
    if s == "" then ""
    else (if s[0] == '"' || s[0] == '\\' then ['\\', s[0]] else [s[0]]) + Escaped(s[1..])
  }

  function CharName(c: char): (s: string)
    ensures s != ""
  {
    if c == ' ' then "space" else if c == '\n' then "newline" else if c == '\t' then "tab" else [c]
  }

  function Layers(d: Datum): nat { if d.Array? then |d.dims| else 0 }

  function Print(d: Datum): string
    requires WellFormed(d)
    decreases d, Layers(d) + 1, 0, 0
  {
    match d
    case Nil => "NIL"
    case Int(n) => PrintInt(n)
    case Float(token) => token
    case Sym(name) => name
    case Str(text) => "\"" + Escaped(text) + "\""
    case Char(c) => "#\\" + CharName(c)
    case Pair(a, b) => "(" + (Print(a) + PrintTail(b)) + ")"
    case Array(dims, _) => ArrayPrefix(|dims|) + PrintLevel(d, 0, 0)
  }

  function PrintTail(d: Datum): string
    requires WellFormed(d)
    decreases d, Layers(d) + 2, 0, 0
  {
    match d
    case Pair(a, b) => " " + Print(a) + PrintTail(b)
    case Nil => ""
    case _ => " . " + Print(d)
  }

  /** `#` for a vector, `#nA` for an array of any other rank. */
  function ArrayPrefix(rank: nat): string {
    if rank == 1 then "#" else "#" + (Digits(rank, 10) + ("A" + RankBlank(rank)))
  }

  function RankBlank(rank: nat): string {
    if rank == 0 then " " else ""
  }

  /** print_array_level: the part of an array from `pos` on that lies below `level` indices. */
  function PrintLevel(a: Datum, level: nat, pos: nat): string
    requires a.Array? && WellFormed(a) && level <= |a.dims| && pos + Volume(a.dims, level) <= |a.data|
    decreases a, |a.dims| - level, 1, 0
  {
    if level == |a.dims| then Print(a.data[pos]) else "(" + PrintRow(a, level, 0, pos) + ")"
  }

  /** The elements of one row from number `i` on. */
  function PrintRow(a: Datum, level: nat, i: nat, pos: nat): string
    requires a.Array? && WellFormed(a) && level < |a.dims| && i <= a.dims[level]
    requires pos + RowVolume(a.dims, level, i) <= |a.data|
    decreases a, |a.dims| - level, 0, a.dims[level] - i
  {
    if i == a.dims[level] then ""
    else
      var below := Volume(a.dims, level + 1);
      (if i != 0 then " " else "") + PrintLevel(a, level + 1, pos) + PrintRow(a, level, i + 1, pos + below)
  }
}
