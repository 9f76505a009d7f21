/** Writing and parsing .npy headers (NEP 1, "Format Specification: Version 1.0"). Bytes are
    characters 0 to 255. */
module Npy {
  import opened NpyText
  import F = NpyFormat
  import opened Wrappers

  const INT_MAX := 0x7fff_ffff

  // ---------------------------------------------------------------- writing

  /** The shape entries after the first, each after a comma and a blank. */
  function RestText(shape: seq<nat>): string {
    if shape == [] then "" else ", " + ToString(shape[0]) + RestText(shape[1..])
  }

  function ShapeText(shape: seq<nat>): string
    requires shape != []
  {
    ToString(shape[0]) + RestText(shape[1..]) + if |shape| == 1 then "," else ""
  }

  function OpenText(): string { "{'descr': '" }

  function MiddleText(): string { "', 'fortran_order': False, 'shape': (" }

  function CloseText(): string { "), }" }

  /** The dictionary without padding: byte order, element kind and size, and the shape. */
  function DictText(endian: char, kind: char, wordSize: nat, shape: seq<nat>): string
    requires shape != []
  {
    OpenText() + [endian, kind] + ToString(wordSize) + MiddleText() + ShapeText(shape) + CloseText()
  }

  /** Blanks and a final newline, up to the next multiple of 16 with the 10-byte preamble. */
  function Padding(size: nat): string {
    var remainder := 16 - (10 + size) % 16;
    seq(remainder - 1, _ => ' ') + "\n"
  }

  function PaddedDict(endian: char, kind: char, wordSize: nat, shape: seq<nat>): string
    requires shape != []
  {
    var dict := DictText(endian, kind, wordSize, shape);
    dict + Padding(|dict|)
  }

  /** A 16-bit number, low byte first; a larger one loses its upper bits. */
  function ShortBytes(n: nat): string {
    [(n % 256) as char, ((n / 256) % 256) as char]
  }

  function Preamble(size: nat): string {
    [0x93 as char] + "NUMPY" + [1 as char, 0 as char] + ShortBytes(size)
  }

  function Header(endian: char, kind: char, wordSize: nat, shape: seq<nat>): string
    requires shape != []
  {
    var dict := PaddedDict(endian, kind, wordSize, shape);
    Preamble(|dict|) + dict
  }

  lemma {:induction false} RestTextAppend(shape: seq<nat>, n: nat)
    ensures RestText(shape + [n]) == RestText(shape) + ", " + ToString(n)
  {
    if shape == [] {
      assert ([] + [n])[1..] == [];
    } else {
      RestTextAppend(shape[1..], n);
      assert (shape + [n])[1..] == shape[1..] + [n];
    }
  }

  method CreateNpyHeader(endian: char, kind: char, wordSize: nat, shape: seq<nat>) returns (header: string)
    requires shape != []
    ensures header == Header(endian, kind, wordSize, shape)
    ensures |header| < 65546 && endian != '\'' && kind != '\'' ==>
              forall payload :: Declares(header + payload, endian, kind, wordSize, shape, payload)
  {
    hide OpenText, MiddleText, CloseText, ToString, Declares;
    var dict := "";
    dict := dict + OpenText();
    dict := dict + [endian];
    dict := dict + [kind];
    dict := dict + ToString(wordSize);
    dict := dict + MiddleText();
    ghost var start := dict;
    var text := WriteShape(shape);
    dict := dict + text + CloseText();
    assert dict == DictText(endian, kind, wordSize, shape);
    var padding := Pad(|dict|);
    dict := dict + padding;
    header := "";
    header := header + [0x93 as char];
    header := header + "NUMPY";
    header := header + [1 as char];
    header := header + [0 as char];
    header := header + ShortBytes(|dict|);
    header := header + dict;
    assert header == Header(endian, kind, wordSize, shape);
    forall payload | |header| < 65546 && endian != '\'' && kind != '\''
      ensures Declares(header + payload, endian, kind, wordSize, shape, payload)
    {
      HeaderDeclares(endian, kind, wordSize, shape, payload);
    }
  }

  /** The shape entries, with a comma behind a single one. */
  method WriteShape(shape: seq<nat>) returns (text: string)
    requires shape != []
    ensures text == ShapeText(shape)
  {
    hide ToString;
    text := ToString(shape[0]);
    for i := 1 to |shape|
      invariant text == ToString(shape[0]) + RestText(shape[1..i])
    {
      text := text + ", ";
      text := text + ToString(shape[i]);
      RestTextAppend(shape[1..i], shape[i]);
      SliceGrows(shape, i);
    }
    assert shape[1..|shape|] == shape[1..];
    if |shape| == 1 {
      text := text + ",";
    }
  }

  lemma SliceGrows(shape: seq<nat>, i: nat)
    requires 1 <= i < |shape|
    ensures shape[1..i + 1] == shape[1..i] + [shape[i]]
  {
  }

  /** Blanks, the last of which becomes the newline. */
  method Pad(size: nat) returns (padding: string)
    ensures padding == Padding(size)
  {
    var remainder := 16 - (10 + size) % 16;
    padding := seq(remainder, _ => ' ');
    padding := padding[|padding| - 1 := '\n'];
  }

  /** The whole header is a multiple of 16 bytes long, and its length field leads to the
      payload if and only if the dictionary is shorter than 65536 bytes. */
  lemma HeaderAligned(endian: char, kind: char, wordSize: nat, shape: seq<nat>)
    requires shape != []
    ensures var header := Header(endian, kind, wordSize, shape);
            && |header| % 16 == 0 && |header| > 10
            && header[..6] == [0x93 as char] + "NUMPY" && header[6] as int == 1 && header[7] as int == 0
            && (10 + header[8] as int + 256 * (header[9] as int) == |header|
                <==> |PaddedDict(endian, kind, wordSize, shape)| < 65536)
  {
    var dict := DictText(endian, kind, wordSize, shape);
    var size := |PaddedDict(endian, kind, wordSize, shape)|;
    var header := Header(endian, kind, wordSize, shape);
    PaddingLength(|dict|);
    assert |header| == 10 + size;
    assert header[..6] == [0x93 as char] + "NUMPY";
    assert header[8] == ShortBytes(size)[0] && header[9] == ShortBytes(size)[1];
    ShortValue(size);
  }

  /** Two characters go between entries and at least one into each. */
  lemma {:induction false} RestTextLength(shape: seq<nat>)
    ensures |RestText(shape)| >= 3 * |shape|
  {
    if shape != [] {
      RestTextLength(shape[1..]);
    }
  }

  lemma DictLength(endian: char, kind: char, wordSize: nat, shape: seq<nat>)
    requires shape != []
    ensures |PaddedDict(endian, kind, wordSize, shape)| > 3 * |shape|
  {
    hide ToString, RestText;
    RestTextLength(shape[1..]);
    MiddleLength();
    PaddingLength(|DictText(endian, kind, wordSize, shape)|);
  }

  lemma MiddleLength()
    ensures |MiddleText()| > 3
  {
  }

  /** A shape of 21845 entries or more, all ones say, is too long for the length field: it does
      not lead to the payload. */
  lemma OnesMisaligned(endian: char, kind: char, wordSize: nat, n: nat)
    requires n >= 21845
    ensures var shape := seq(n, _ => 1);
            var header := Header(endian, kind, wordSize, shape);
            |header| > 10 && 10 + header[8] as int + 256 * (header[9] as int) != |header|
  {
    hide Header, PaddedDict;
    DictLength(endian, kind, wordSize, seq(n, _ => 1));
    HeaderAligned(endian, kind, wordSize, seq(n, _ => 1));
  }

  lemma PaddingLength(n: nat)
    ensures (10 + n + |Padding(n)|) % 16 == 0 && 1 <= |Padding(n)| <= 16
  {
  }

  lemma ShortValue(n: nat)
    ensures n % 256 + 256 * ((n / 256) % 256) == n % 65536
    ensures n % 65536 == n <==> n < 65536
  {
    var q := n / 256;
    assert n == 256 * q + n % 256 && q == 256 * (q / 256) + q % 256;
    assert n == 65536 * (q / 256) + (256 * (q % 256) + n % 256);
  }

  // ---------------------------------------------------------------- what the header says

  /** A reader of the format finds a string of byte order, kind and word size, the row-major
      order, and the shape, under their keys and nothing else, and the payload behind. */
  ghost predicate Declares(file: string, endian: char, kind: char, wordSize: nat, shape: seq<nat>, payload: string) {
    exists size: string ::
      && F.Number(size) == Some((wordSize, ""))
      && F.ReadNpy(file)
         == Some(F.Npy([("descr", F.Text([endian, kind] + size)), ("fortran_order", F.Truth(false)), ("shape", F.Tuple(shape))],
                       payload))
  }

  lemma {:induction false} UntilReads(a: string, c: char, rest: string)
    requires Lacks(a, c)
    ensures F.Until(a + [c] + rest, c) == Some((a, rest))
  {
    var s := a + [c] + rest;
    if a == [] {
      assert s[1..] == rest;
    } else {
      UntilReads(a[1..], c, rest);
      assert s[0] == a[0] && s[1..] == a[1..] + [c] + rest;
      assert [a[0]] + a[1..] == a;
    }
  }

  ghost predicate Ends(rest: string) { rest == [] || !('0' <= rest[0] <= '9') }

  lemma {:induction false} MoreReads(a: string, acc: nat, c: char, rest: string)
    requires (forall i :: 0 <= i < |a| ==> IsDigit(a[i])) && IsDigit(c) && Ends(rest)
    ensures var (n, r) := F.More(a, acc);
            r == [] && F.More(a + [c] + rest, acc) == (10 * n + (c as int - '0' as int), rest)
  {
    var s := a + [c] + rest;
    if a == [] {
      assert s[1..] == rest;
    } else {
      assert s[0] == a[0] && s[1..] == a[1..] + [c] + rest;
      MoreReads(a[1..], 10 * acc + (a[0] as int - '0' as int), c, rest);
    }
  }

  lemma {:induction false} NumberReads(n: nat, rest: string)
    requires Ends(rest)
    ensures F.More(ToString(n) + rest, 0) == (n, rest)
    ensures F.Number(ToString(n) + rest) == Some((n, rest))
  {
    var s := ToString(n);
    if n < 10 {
      assert s == [] + [Digit(n)];
      MoreReads([], 0, Digit(n), rest);
    } else {
      NumberReads(n / 10, "");
      assert ToString(n / 10) + "" == ToString(n / 10);
      MoreReads(ToString(n / 10), 0, Digit(n % 10), rest);
    }
    assert (s + rest)[0] == s[0];
  }

  lemma {:induction false} EntriesRead(x: nat, xs: seq<nat>, rest: string)
    ensures F.Entries(" " + ToString(x) + RestText(xs) + ")" + rest) == Some(([x] + xs, rest))
    decreases |xs|
  {
    hide ToString, F.Entries, F.Number, RestText, F.SkipBlanks;
    var s := " " + ToString(x) + RestText(xs) + ")" + rest;
    var more := RestText(xs) + ")" + rest;
    var t := ToString(x) + more;
    assert s == " " + t;
    assert t[0] == ToString(x)[0];
    RestStarts(xs, rest);
    NumberReads(x, more);
    BlankFirst(t);
    BlankFirst(more);
    EntriesStep(s, t, x, more);
    if xs == [] {
      assert [x] + xs == [x];
    } else {
      EntriesRead(xs[0], xs[1..], rest);
      assert [xs[0]] + xs[1..] == xs;
    }
  }

  lemma RestStarts(xs: seq<nat>, rest: string)
    ensures var more := RestText(xs) + ")" + rest;
            && more != [] && Ends(more) && more[0] != ' '
            && if xs == [] then more[0] == ')' && more[1..] == rest
               else more[0] == ',' && more[1..] == " " + ToString(xs[0]) + RestText(xs[1..]) + ")" + rest
  {
    hide ToString;
  }

  lemma BlankFirst(t: string)
    requires t != [] && t[0] != ' '
    ensures F.SkipBlanks(t) == t && F.SkipBlanks(" " + t) == t
  {
    assert (" " + t)[1..] == t;
  }

  /** One entry of a tuple. */
  lemma EntriesStep(s: string, t: string, x: nat, more: string)
    requires F.SkipBlanks(s) == t && t != [] && t[0] != ')' && F.Number(t) == Some((x, more))
    requires more != [] && F.SkipBlanks(more) == more
    ensures more[0] == ')' ==> F.Entries(s) == Some(([x], more[1..]))
    ensures more[0] == ',' && F.Entries(more[1..]).Some? ==>
              F.Entries(s) == Some(([x] + F.Entries(more[1..]).value.0, F.Entries(more[1..]).value.1))
  {
  }

  lemma TupleReads(shape: seq<nat>, rest: string)
    requires shape != []
    ensures F.Value("(" + ShapeText(shape) + ")" + rest) == Some((F.Tuple(shape), rest))
  {
    hide ToString, ShapeText, F.TupleBody;
    var body := ShapeText(shape) + ")" + rest;
    var s := "(" + ShapeText(shape) + ")" + rest;
    assert s[0] == '(' && s[1..] == body;
    assert "True"[0] == 'T' && "False"[0] == 'F';
    if |shape| == 1 {
      SingleReads(shape, rest);
    } else {
      SeveralRead(shape, rest);
    }
  }

  lemma SingleReads(shape: seq<nat>, rest: string)
    requires |shape| == 1
    ensures F.TupleBody(ShapeText(shape) + ")" + rest) == Some((shape, rest))
  {
    hide ToString;
    var more := ",)" + rest;
    var s := ToString(shape[0]) + more;
    assert RestText(shape[1..]) == "";
    assert ShapeText(shape) + ")" + rest == s;
    assert s[0] == ToString(shape[0])[0];
    NumberReads(shape[0], more);
    assert F.SkipBlanks(more) == more && more[1..] == ")" + rest;
    assert F.SkipBlanks(")" + rest) == ")" + rest && (")" + rest)[1..] == rest;
    assert F.Entries(")" + rest) == Some(([], rest));
    assert [shape[0]] + [] == shape;
  }

  lemma SeveralRead(shape: seq<nat>, rest: string)
    requires |shape| > 1
    ensures F.TupleBody(ShapeText(shape) + ")" + rest) == Some((shape, rest))
  {
    hide ToString, F.Entries;
    var x, xs := shape[0], shape[1..];
    var tail := " " + ToString(xs[0]) + RestText(xs[1..]) + ")" + rest;
    var more := "," + tail;
    var s := ToString(x) + more;
    assert RestText(xs) == ", " + ToString(xs[0]) + RestText(xs[1..]);
    assert ShapeText(shape) + ")" + rest == s;
    assert s[0] == ToString(x)[0];
    NumberReads(x, more);
    assert F.SkipBlanks(more) == more && more[1..] == tail;
    EntriesRead(xs[0], xs[1..], rest);
    assert [xs[0]] + xs[1..] == xs && [x] + xs == shape;
  }

  /** A key and its value, at which a string begins. */
  lemma PairReads(key: string, value: string, v: F.Literal, rest: string)
    requires Lacks(key, '\'') && value != [] && value[0] != ' ' && F.Value(value) == Some((v, rest))
    ensures F.Pair("'" + key + "': " + value) == Some(((key, v), rest))
  {
    var s := "'" + key + "': " + value;
    assert s[1..] == key + ['\''] + (": " + value);
    UntilReads(key, '\'', ": " + value);
    var t := ": " + value;
    assert F.SkipBlanks(t) == t;
    assert t[1..] == " " + value;
    assert (" " + value)[1..] == value;
    assert F.SkipBlanks(" " + value) == value;
  }

  /** One pair, a comma, and more. */
  lemma PairsRead(s: string, p: (string, F.Literal), rest: string)
    requires s != [] && s[0] == '\'' && F.Pair(s) == Some((p, "," + rest)) && F.Pairs(rest).Some?
    ensures var more := F.Pairs(rest).value;
            F.Pairs(s) == Some(([p] + more.0, more.1)) && F.Pairs(" " + s) == Some(([p] + more.0, more.1))
  {
    assert F.SkipBlanks(s) == s;
    assert (" " + s)[1..] == s;
    assert F.SkipBlanks("," + rest) == "," + rest;
    assert ("," + rest)[1..] == rest;
  }

  lemma PaddingRead(size: nat)
    ensures F.SkipBlanks(Padding(size)) == "\n"
  {
    BlanksRead(15 - (10 + size) % 16);
  }

  lemma {:induction false} BlanksRead(n: nat)
    ensures F.SkipBlanks(seq(n, _ => ' ') + "\n") == "\n"
  {
    var s := seq(n, _ => ' ') + "\n";
    if n > 0 {
      BlanksRead(n - 1);
      assert s[1..] == seq(n - 1, _ => ' ') + "\n";
    }
  }

  lemma EndReads(pad: string)
    ensures F.Pairs(" }" + pad) == Some(([], pad))
  {
    var s := " }" + pad;
    assert s[1..] == "}" + pad;
    assert F.SkipBlanks(s) == F.SkipBlanks("}" + pad) == "}" + pad;
    assert ("}" + pad)[1..] == pad;
  }

  lemma FalseReads(rest: string)
    ensures F.Value("False" + rest) == Some((F.Truth(false), rest))
  {
    var s := "False" + rest;
    assert s[0] == 'F' && "True"[0] == 'T';
    assert "False" <= s && s[5..] == rest;
  }

  lemma TextReads(text: string, rest: string)
    requires Lacks(text, '\'')
    ensures F.Value("'" + text + "'" + rest) == Some((F.Text(text), rest))
  {
    var s := "'" + text + "'" + rest;
    assert s[1..] == text + ['\''] + rest;
    UntilReads(text, '\'', rest);
  }

  lemma ShapeReads(shape: seq<nat>, pad: string)
    requires shape != []
    ensures F.Pairs(" " + ShapePart(shape, pad)) == Some(([("shape", F.Tuple(shape))], pad))
  {
    hide ShapeText, F.Value, F.Pairs, F.Pair;
    var end := " }" + pad;
    var value := "(" + ShapeText(shape) + ")" + ("," + end);
    var s := "'" + "shape" + "': " + value;
    EndReads(pad);
    TupleReads(shape, "," + end);
    assert value[0] == '(';
    PairReads("shape", value, F.Tuple(shape), "," + end);
    PairsRead(s, ("shape", F.Tuple(shape)), end);
    assert s == ShapePart(shape, pad);
    var p := ("shape", F.Tuple(shape));
    assert [p] + [] == [p];
  }

  function ShapePart(shape: seq<nat>, pad: string): string
    requires shape != []
  {
    "'shape': (" + ShapeText(shape) + "), }" + pad
  }

  lemma OrderReads(more: string)
    requires F.Pairs(" " + more).Some?
    ensures var r := F.Pairs(" " + more).value;
            F.Pairs(" 'fortran_order': False, " + more) == Some(([("fortran_order", F.Truth(false))] + r.0, r.1))
  {
    hide F.Value, F.Pairs, F.Pair;
    var rest := "," + (" " + more);
    var s := "'" + "fortran_order" + "': " + ("False" + rest);
    FalseReads(rest);
    assert ("False" + rest)[0] == 'F';
    PairReads("fortran_order", "False" + rest, F.Truth(false), rest);
    PairsRead(s, ("fortran_order", F.Truth(false)), " " + more);
    OrderText(more);
  }

  lemma OrderText(more: string)
    ensures " " + ("'" + "fortran_order" + "': " + ("False" + ("," + (" " + more))))
            == " 'fortran_order': False, " + more
  {
    var a, b, c, d := " ", "'" + "fortran_order" + "': ", "False", ", ";
    assert "," + (" " + more) == d + more;
    assert a + (b + (c + (d + more))) == a + b + c + d + more;
    assert a + b + c + d == " 'fortran_order': False, ";
  }

  lemma DescrReads(text: string, more: string)
    requires F.Pairs(" " + more).Some? && Lacks(text, '\'')
    ensures var r := F.Pairs(" " + more).value;
            F.Pairs("'descr': '" + text + "', " + more) == Some(([("descr", F.Text(text))] + r.0, r.1))
  {
    hide F.Value, F.Pairs, F.Pair;
    var rest := "," + (" " + more);
    var s := "'" + "descr" + "': " + ("'" + text + "'" + rest);
    TextReads(text, rest);
    assert ("'" + text + "'" + rest)[0] == '\'';
    PairReads("descr", "'" + text + "'" + rest, F.Text(text), rest);
    PairsRead(s, ("descr", F.Text(text)), " " + more);
    assert s == "'descr': '" + text + "', " + more;
  }

  lemma DictSplits(text: string, shape: seq<nat>, pad: string)
    requires shape != []
    ensures OpenText() + text + MiddleText() + ShapeText(shape) + CloseText() + pad
            == "{" + ("'descr': '" + text + "', " + ("'fortran_order': False, " + ShapePart(shape, pad)))
  {
    TextPieces();
    hide ShapeText, OpenText, MiddleText, CloseText;
    Regrouped("{", "'descr': '", text, "', ", "'fortran_order': False, ", "'shape': (", ShapeText(shape), "), }", pad);
  }

  lemma TextPieces()
    ensures OpenText() == "{" + "'descr': '" && CloseText() == "), }"
    ensures MiddleText() == "', " + "'fortran_order': False, " + "'shape': ("
  {
    hide MiddleText;
    MiddlePieces();
  }

  lemma MiddlePieces()
    ensures MiddleText() == "', " + "'fortran_order': False, " + "'shape': ("
  {
    var a, b := "', " + "'fortran_order': False, ", "'shape': (";
    assert a == "', 'fortran_order': False, ";
    assert MiddleText()[..|a|] == a && MiddleText()[|a|..] == b;
  }

  lemma Regrouped(a: string, b: string, c: string, d: string, e: string, f: string, g: string, h: string, i: string)
    ensures a + b + c + (d + e + f) + g + h + i == a + (b + c + d + (e + (f + g + h + i)))
  {
    assert a + b + c + (d + e + f) == a + (b + c + d + (e + f));
    assert (b + c + d + (e + f)) + g == b + c + d + (e + (f + g));
    assert (b + c + d + (e + (f + g))) + h == b + c + d + (e + (f + g + h));
    assert (b + c + d + (e + (f + g + h))) + i == b + c + d + (e + (f + g + h + i));
  }

  lemma DictReads(endian: char, kind: char, wordSize: nat, shape: seq<nat>)
    requires shape != [] && endian != '\'' && kind != '\''
    ensures F.ReadDict(PaddedDict(endian, kind, wordSize, shape))
            == Some([("descr", F.Text([endian, kind] + ToString(wordSize))), ("fortran_order", F.Truth(false)), ("shape", F.Tuple(shape))])
  {
    hide ToString, ShapeText, F.Pairs, OpenText, MiddleText, CloseText, ShapePart, Padding, F.SkipBlanks;
    var text := [endian, kind] + ToString(wordSize);
    var dict := DictText(endian, kind, wordSize, shape);
    var pad := Padding(|dict|);
    var more := "'fortran_order': False, " + ShapePart(shape, pad);
    assert dict == OpenText() + text + MiddleText() + ShapeText(shape) + CloseText();
    DictSplits(text, shape, pad);
    ShapeReads(shape, pad);
    OrderReads(ShapePart(shape, pad));
    assert " " + more == " 'fortran_order': False, " + ShapePart(shape, pad);
    DescrReads(text, more);
    PaddingRead(|dict|);
    var all := "'descr': '" + text + "', " + more;
    assert ("{" + all)[1..] == all && ("{" + all)[0] == '{';
    assert PaddedDict(endian, kind, wordSize, shape) == "{" + all;
    var (p, q, r) := (("descr", F.Text(text)), ("fortran_order", F.Truth(false)), ("shape", F.Tuple(shape)));
    assert [p] + ([q] + [r]) == [p, q, r];
  }

  /** What is written is what the format says of the array, whatever comes behind it, provided
      the length fits its field. */
  lemma HeaderDeclares(endian: char, kind: char, wordSize: nat, shape: seq<nat>, payload: string)
    requires shape != [] && endian != '\'' && kind != '\''
    ensures |Header(endian, kind, wordSize, shape)| < 65546 ==>
              Declares(Header(endian, kind, wordSize, shape) + payload, endian, kind, wordSize, shape, payload)
  {
    hide PaddedDict, ToString, F.ReadDict;
    var header := Header(endian, kind, wordSize, shape);
    var file := header + payload;
    var dict := PaddedDict(endian, kind, wordSize, shape);
    HeaderAligned(endian, kind, wordSize, shape);
    if |header| < 65546 {
      assert |header| == 10 + |dict|;
      assert file[0] == header[0] && file[1..6] == header[1..6] == "NUMPY";
      assert file[10..|header|] == dict && file[|header|..] == payload;
      DictReads(endian, kind, wordSize, shape);
      NumberReads(wordSize, "");
      assert ToString(wordSize) + "" == ToString(wordSize);
      assert F.Number(ToString(wordSize)) == Some((wordSize, ""));
    }
  }

  // ---------------------------------------------------------------- parsing

  datatype Error = OutOfRange | AssertFailed | Undefined

  datatype Parsed<+T> = Ok(value: T) | Err(error: Error)

  datatype Fields = Fields(wordSize: int, shape: seq<int>, fortranOrder: bool)

  /** The first `n` comma-separated numbers. */
  function ShapeOf(text: string, n: nat): seq<int> {
    if n == 0 then []
    else
      var comma := Find(text, ",");
      [Atoi(if comma < 0 then text else text[..comma])] + ShapeOf(text[comma + 1..], n - 1)
  }

  function FortranKey(): string { "fortranOrder" }

  function DescrKey(): string { "descr" }

  lemma ShapeOfNext(text: string, n: nat)
    requires n > 0
    ensures var comma := Find(text, ",");
            -1 <= comma < |text| &&
            ShapeOf(text, n) == [Atoi(if comma < 0 then text else text[..comma])] + ShapeOf(text[comma + 1..], n - 1)
  {
    hide Find, Atoi;
  }

  lemma Regroup(done: seq<int>, x: int, rest: seq<int>)
    ensures done + ([x] + rest) == (done + [x]) + rest
  {
  }

  method ParseShape(text: string, ndims: nat) returns (shape: seq<int>)
    ensures shape == ShapeOf(text, ndims)
  {
    hide Find, Atoi, ShapeOf;
    var strShape := text;
    shape := [];
    for i := 0 to ndims
      invariant shape + ShapeOf(strShape, ndims - i) == ShapeOf(text, ndims)
    {
      var loc1 := Find(strShape, ",");
      var dim := Atoi(if loc1 < 0 then strShape else strShape[..loc1]);
      ShapeOfNext(strShape, ndims - i);
      Regroup(shape, dim, ShapeOf(strShape[loc1 + 1..], ndims - i - 1));
      shape := shape + [dim];
      strShape := strShape[loc1 + 1..];
    }
    assert ShapeOf(strShape, 0) == [] by { ShapeOfNone(strShape); }
  }

  lemma ShapeOfNone(text: string)
    ensures ShapeOf(text, 0) == []
  {
  }

  /** Reads the fields out of the header text. The key looked for is "fortranOrder", which
      the writer does not write. */
  method ParseNpyHeaderStr(header: string) returns (r: Parsed<Fields>)
    ensures r == Parse(header)
  {
    hide Find, Atoi, ShapeOf, FortranKey, DescrKey, Count, Substr;
    var loc1 := Find(header, FortranKey()) + 16;
    var flag := Substr(header, loc1, 5);
    if flag == None {
      return Err(OutOfRange);
    }
    var fortranOrder := flag.value == "True";
    loc1 := Find(header, "(");
    var loc2 := Find(header, ")");
    var inner := Substr(header, loc1 + 1, loc2 - loc1 - 1);
    if inner == None {
      return Err(OutOfRange);
    }
    var strShape := inner.value;
    if strShape == "" {
      return Err(Undefined);
    }
    var ndims := if strShape[|strShape| - 1] == ',' then 1 else Count(strShape, ',') + 1;
    var shape := ParseShape(strShape, ndims);
    loc1 := Find(header, DescrKey()) + 9;
    if loc1 > |header| {
      return Err(Undefined);
    }
    if loc1 == |header| || (header[loc1] != '<' && header[loc1] != '|') {
      return Err(AssertFailed);
    }
    var strWs := Substr(header, loc1 + 2, -1);
    if strWs == None {
      return Err(OutOfRange);
    }
    loc2 := Find(strWs.value, "'");
    return Ok(Fields(Atoi(if loc2 < 0 then strWs.value else strWs.value[..loc2]), shape, fortranOrder));
  }

  function Parse(header: string): Parsed<Fields> {
    var flag := Substr(header, Find(header, FortranKey()) + 16, 5);
    if flag == None then Err(OutOfRange)
    else
      var open := Find(header, "(");
      var inner := Substr(header, open + 1, Find(header, ")") - open - 1);
      if inner == None then Err(OutOfRange)
      else if inner.value == "" then Err(Undefined)
      else
        var text := inner.value;
        var ndims := if text[|text| - 1] == ',' then 1 else Count(text, ',') + 1;
        var at := Find(header, DescrKey()) + 9;
        if at > |header| then Err(Undefined)
        else if at == |header| || (header[at] != '<' && header[at] != '|') then Err(AssertFailed)
        else if Substr(header, at + 2, -1) == None then Err(OutOfRange)
        else
          var ws := Substr(header, at + 2, -1).value;
          var quote := Find(ws, "'");
          Ok(Fields(Atoi(if quote < 0 then ws else ws[..quote]), ShapeOf(text, ndims), flag.value == "True"))
  }

  /** A loaded array: its fields, and where in memory its first payload byte is. */
  datatype Loaded = Loaded(fields: Fields, cursor: nat)

  /** Parses the C string from byte 11 on and leaves the cursor behind the first newline. */
  method LoadNpyFromPointer(data: string) returns (r: Parsed<Loaded>)
    requires |data| >= 11
    ensures r == Load(data)
  {
    hide Find, Parse, CString;
    var fields := ParseNpyHeaderStr(CString(data[11..]));
    if fields.Err? {
      return Err(fields.error);
    }
    var cursor := 11;
    while cursor < |data| && data[cursor] != '\n'
      invariant 11 <= cursor <= |data|
      invariant forall j :: 11 <= j < cursor ==> data[j] != '\n'
    {
      cursor := cursor + 1;
    }
    NewlineAt(data, cursor);
    if cursor == |data| {
      return Err(Undefined);
    }
    return Ok(Loaded(fields.value, cursor + 1));
  }

  function Load(data: string): Parsed<Loaded>
    requires |data| >= 11
  {
    var fields := Parse(CString(data[11..]));
    if fields.Err? then Err(fields.error)
    else
      var newline := Find(data[11..], "\n");
      if newline < 0 then Err(Undefined) else Ok(Loaded(fields.value, 11 + newline + 1))
  }

  lemma NewlineAt(data: string, cursor: nat)
    requires 11 <= cursor <= |data| && forall j :: 11 <= j < cursor ==> data[j] != '\n'
    requires cursor < |data| ==> data[cursor] == '\n'
    ensures Find(data[11..], "\n") == if cursor < |data| then cursor - 11 else NPOS
  {
    var rest := data[11..];
    if cursor < |data| {
      assert rest == rest[..cursor - 11] + ['\n'] + rest[cursor - 10..];
      FindChar(rest[..cursor - 11], '\n', rest[cursor - 10..]);
    } else {
      FindNoChar(rest, '\n');
    }
  }

  // ---------------------------------------------------------------- round trip

  /** The written text as the parser sees it, from byte 11 on. */
  function Seen(endian: char, kind: char, wordSize: nat, shape: seq<nat>): string
    requires shape != []
  {
    PaddedDict(endian, kind, wordSize, shape)[1..]
  }

  predicate PlainKind(kind: char) { kind in "fiubc?" }

  /** Characters the parser looks for, which must not turn up too early. */
  predicate Quiet(s: string) {
    Lacks(s, 'O') && Lacks(s, '\0') && Lacks(s, '\n') && Lacks(s, ')')
  }

  lemma OpenChars()
    ensures var s := OpenText(); |s| == 11 && s[1] == '\'' && s[2..7] == DescrKey() && Quiet(s) && Lacks(s, '(')
  {
  }

  lemma MiddleChars()
    ensures var s := MiddleText();
            |s| > 1 && s[0] == '\'' && s[|s| - 1] == '(' && Quiet(s) && Lacks(s[..|s| - 1], '(')
  {
    MiddleQuiet();
    var s := MiddleText();
    assert forall i :: 0 <= i < |s| - 1 ==> s[i] != '(';
  }

  lemma MiddleQuiet()
    ensures Quiet(MiddleText())
  {
  }

  lemma CloseChars()
    ensures var s := CloseText(); |s| == 4 && s[0] == ')' && Quiet(s[1..])
  {
  }

  lemma QuietNumber(n: nat)
    ensures Quiet(ToString(n)) && Lacks(ToString(n), '(') && Lacks(ToString(n), ',') && Lacks(ToString(n), '\'')
  {
  }

  lemma {:induction false} RestTextChars(shape: seq<nat>)
    ensures forall i :: 0 <= i < |RestText(shape)| ==>
              IsDigit(RestText(shape)[i]) || RestText(shape)[i] == ',' || RestText(shape)[i] == ' '
    ensures shape != [] ==> RestText(shape) != "" && IsDigit(RestText(shape)[|RestText(shape)| - 1])
    ensures Count(RestText(shape), ',') == |shape|
  {
    if shape != [] {
      RestTextChars(shape[1..]);
      var number := ToString(shape[0]);
      CountLacks(number, ',');
      CountConcat(", " + number, RestText(shape[1..]), ',');
      CountConcat(", ", number, ',');
      assert Count(", ", ',') == 1 by { assert ", "[1..] == " "; assert " "[1..] == ""; }
    }
  }

  /** Reading the numbers of a shape back, after an optional blank. */
  lemma {:induction false} ShapeReadsBack(blank: string, first: nat, rest: seq<nat>)
    requires blank == "" || blank == " "
    ensures ShapeOf(blank + ToString(first) + RestText(rest), 1 + |rest|) == [first] + rest
    decreases |rest|
  {
    hide Find, Atoi, ToString, ShapeOf, RestText;
    var number := blank + ToString(first);
    AtoiToString(first);
    QuietNumber(first);
    assert "" + ToString(first) == ToString(first);
    if rest == [] {
      NoRest();
      assert number + RestText(rest) == number;
      LastNumber(number);
    } else {
      var tail := " " + ToString(rest[0]) + RestText(rest[1..]);
      RestFirst(rest);
      assert number + RestText(rest) == number + "," + tail;
      NumberThen(number, tail, 1 + |rest|);
      ShapeReadsBack(" ", rest[0], rest[1..]);
      assert [rest[0]] + rest[1..] == rest;
    }
  }

  lemma RestFirst(rest: seq<nat>)
    requires rest != []
    ensures RestText(rest) == "," + (" " + ToString(rest[0]) + RestText(rest[1..]))
  {
  }

  lemma NumberThen(number: string, tail: string, n: nat)
    requires n > 0 && Lacks(number, ',')
    ensures ShapeOf(number + "," + tail, n) == [Atoi(number)] + ShapeOf(tail, n - 1)
  {
    hide Find, Atoi;
    var text := number + "," + tail;
    FindChar(number, ',', tail);
    assert text[..|number|] == number && text[|number| + 1..] == tail;
  }

  lemma LastNumber(number: string)
    requires Lacks(number, ',')
    ensures ShapeOf(number, 1) == [Atoi(number)]
  {
    hide Find, Atoi;
    FindNoChar(number, ',');
    assert ShapeOf(number, 0) == [];
  }

  lemma OneNumberReadsBack(n: nat)
    ensures ShapeOf(ToString(n) + ",", 1) == [n]
  {
    hide Find, Atoi, ToString, ShapeOf;
    AtoiToString(n);
    QuietNumber(n);
    NumberThen(ToString(n), "", 1);
    ShapeOfNone("");
    assert ToString(n) + "," + "" == ToString(n) + ",";
  }

  lemma ShapeTextReadsBack(shape: seq<nat>)
    requires shape != []
    ensures var text := ShapeText(shape);
            text != "" && var ndims := if text[|text| - 1] == ',' then 1 else Count(text, ',') + 1;
            ndims == |shape| && ShapeOf(text, ndims) == shape
  {
    hide Find, Atoi, ToString, ShapeOf, RestText, Count;
    var text, number, rest := ShapeText(shape), ToString(shape[0]), shape[1..];
    RestTextChars(rest);
    QuietNumber(shape[0]);
    if |shape| == 1 {
      NoRest();
      assert text == number + ",";
      OneNumberReadsBack(shape[0]);
    } else {
      assert text == number + RestText(rest) == "" + number + RestText(rest);
      ShapeReadsBack("", shape[0], rest);
      CountConcat(number, RestText(rest), ',');
      CountLacks(number, ',');
      assert text[|text| - 1] == RestText(rest)[|RestText(rest)| - 1];
    }
  }

  lemma NoRest()
    ensures RestText([]) == ""
  {
  }

  lemma ShapeTextQuiet(shape: seq<nat>)
    requires shape != []
    ensures Quiet(ShapeText(shape))
  {
    RestTextChars(shape[1..]);
    hide ToString, RestText;
    QuietNumber(shape[0]);
  }

  /** The text up to the parenthesis that opens the shape. */
  function Front(endian: char, kind: char, wordSize: nat): string {
    OpenText()[1..] + [endian, kind] + ToString(wordSize) + MiddleText()[..|MiddleText()| - 1]
  }

  /** The text from the parenthesis that closes the shape on. */
  function Back(endian: char, kind: char, wordSize: nat, shape: seq<nat>): string
    requires shape != []
  {
    CloseText()[1..] + Padding(|DictText(endian, kind, wordSize, shape)|)
  }

  lemma SeenPieces(endian: char, kind: char, wordSize: nat, shape: seq<nat>)
    requires shape != []
    ensures Seen(endian, kind, wordSize, shape) ==
            Front(endian, kind, wordSize) + "(" + ShapeText(shape) + ")" + Back(endian, kind, wordSize, shape)
  {
    hide OpenText, MiddleText, CloseText, ToString, ShapeText, Padding;
    OpenChars();
    MiddleChars();
    CloseChars();
    var middle, close := MiddleText(), CloseText();
    assert middle == middle[..|middle| - 1] + "(";
    assert close == ")" + close[1..];
  }

  lemma FrontChars(endian: char, kind: char, wordSize: nat)
    requires (endian == '<' || endian == '>') && PlainKind(kind)
    ensures var s := Front(endian, kind, wordSize);
            Quiet(s) && Lacks(s, '(') && |s| >= 12 && s[0] == '\'' && s[1..6] == DescrKey() && s[10] == endian
            && s[12..] == ToString(wordSize) + MiddleText()[..|MiddleText()| - 1]
  {
    hide OpenText, MiddleText, ToString, DescrKey;
    OpenChars();
    MiddleChars();
    QuietNumber(wordSize);
    var open, middle := OpenText(), MiddleText();
    var s := Front(endian, kind, wordSize);
    assert s[1..6] == open[2..7];
    FrontQuiet(open[1..], [endian, kind], ToString(wordSize), middle[..|middle| - 1]);
  }

  lemma FrontQuiet(a: string, b: string, c: string, d: string)
    requires Quiet(a) && Quiet(b) && Quiet(c) && Quiet(d)
    requires Lacks(a, '(') && Lacks(b, '(') && Lacks(c, '(') && Lacks(d, '(')
    ensures Quiet(a + b + c + d) && Lacks(a + b + c + d, '(')
  {
  }

  /** Where the parser finds the parentheses. */
  lemma ShapeTextFound(endian: char, kind: char, wordSize: nat, shape: seq<nat>, rest: string)
    requires shape != [] && (endian == '<' || endian == '>') && PlainKind(kind)
    ensures var text := Seen(endian, kind, wordSize, shape) + rest;
            var open := Find(text, "(");
            Substr(text, open + 1, Find(text, ")") - open - 1) == Some(ShapeText(shape))
  {
    hide Front, Back, ShapeText, Seen, Find;
    var a, s, tail := Front(endian, kind, wordSize), ShapeText(shape), Back(endian, kind, wordSize, shape) + rest;
    var text := Seen(endian, kind, wordSize, shape) + rest;
    SeenPieces(endian, kind, wordSize, shape);
    FrontChars(endian, kind, wordSize);
    ShapeTextQuiet(shape);
    Between(a, s, tail);
    assert text == a + "(" + s + ")" + tail;
  }

  lemma Between(a: string, s: string, tail: string)
    requires Lacks(a, '(') && Lacks(a, ')') && Lacks(s, ')')
    ensures var text := a + "(" + s + ")" + tail; var open := Find(text, "(");
            Substr(text, open + 1, Find(text, ")") - open - 1) == Some(s)
  {
    hide Find;
    var text := a + "(" + s + ")" + tail;
    assert text == a + ['('] + (s + ")" + tail);
    FindChar(a, '(', s + ")" + tail);
    assert text == (a + "(" + s) + [')'] + tail;
    FindChar(a + "(" + s, ')', tail);
    assert text[|a| + 1..|a| + 1 + |s|] == s;
  }

  /** Where the parser finds the element size. */
  lemma WordSizeFound(endian: char, kind: char, wordSize: nat, shape: seq<nat>, rest: string)
    requires shape != [] && (endian == '<' || endian == '>') && PlainKind(kind)
    ensures var text := Seen(endian, kind, wordSize, shape) + rest;
            var at := Find(text, DescrKey()) + 9;
            && at == 10 && 12 <= |text| && text[at] == endian
            && var ws := text[at + 2..]; var quote := Find(ws, "'");
               quote >= 0 && Atoi(ws[..quote]) == wordSize
  {
    hide Front, Back, ShapeText, Seen, Find, MiddleText, ToString, DescrKey, Atoi;
    var front, number, middle := Front(endian, kind, wordSize), ToString(wordSize), MiddleText();
    SeenPieces(endian, kind, wordSize, shape);
    FrontChars(endian, kind, wordSize);
    MiddleChars();
    var text := Seen(endian, kind, wordSize, shape) + rest;
    var behind := "(" + ShapeText(shape) + ")" + Back(endian, kind, wordSize, shape) + rest;
    assert text == front + behind;
    DescrFound(front, behind);
    var tail := middle[1..|middle| - 1] + behind;
    assert middle[..|middle| - 1] == ['\''] + middle[1..|middle| - 1];
    assert text[12..] == number + ['\''] + tail;
    QuietNumber(wordSize);
    FindChar(number, '\'', tail);
    assert text[12..][..|number|] == number;
    AtoiToString(wordSize);
  }

  lemma DescrFound(front: string, behind: string)
    requires |front| >= 6 && front[0] == '\'' && front[1..6] == DescrKey()
    ensures Find(front + behind, DescrKey()) == 1
  {
    var text, key := front + behind, DescrKey();
    assert |key| == 5;
    assert text[1..6] == front[1..6];
    assert Occurs(text, key, 1);
    assert text[0..5][0] != key[0];
    assert !Occurs(text, key, 0);
  }

  /** No character of the key can be the last of a text without capital O. */
  lemma KeyNotWithin(seen: string, rest: string, j: int)
    requires seen != "" && Lacks(seen, 'O') && seen[|seen| - 1] == '\n' && 0 <= j < |seen|
    ensures !Occurs(seen + rest, FortranKey(), j)
  {
    var text, key := seen + rest, FortranKey();
    assert |key| == 12 && key[7] == 'O' && Lacks(key, '\n');
    if j + 12 <= |text| {
      if j + 7 < |seen| {
        assert text[j..j + 12][7] == text[j + 7] != key[7];
      } else {
        var i := |seen| - 1 - j;
        assert text[j..j + 12][i] == text[|seen| - 1] != key[i];
      }
    }
  }

  lemma OccursBehind(seen: string, rest: string, pat: string, j: int)
    requires |seen| <= j
    ensures Occurs(seen + rest, pat, j) <==> Occurs(rest, pat, j - |seen|)
  {
    if j + |pat| <= |seen + rest| {
      assert (seen + rest)[j..j + |pat|] == rest[j - |seen|..j - |seen| + |pat|];
    }
  }

  /** The header has no capital O, so the key the parser looks for can only be found in the
      bytes behind it. */
  lemma KeyOnlyBehind(seen: string, rest: string)
    requires seen != "" && Lacks(seen, 'O') && seen[|seen| - 1] == '\n'
    ensures var at := Find(rest, FortranKey());
            Find(seen + rest, FortranKey()) == if at < 0 then NPOS else |seen| + at
  {
    hide FortranKey;
    var key, text, at := FortranKey(), seen + rest, Find(rest, FortranKey());
    forall j | 0 <= j < |seen| ensures !Occurs(text, key, j) {
      KeyNotWithin(seen, rest, j);
    }
    forall j | |seen| <= j ensures Occurs(text, key, j) <==> Occurs(rest, key, j - |seen|) {
      OccursBehind(seen, rest, key, j);
    }
    if at >= 0 {
      assert Occurs(text, key, |seen| + at);
    }
  }

  lemma SeenPlain(endian: char, kind: char, wordSize: nat, shape: seq<nat>)
    requires shape != [] && (endian == '<' || endian == '>') && PlainKind(kind)
    ensures var seen := Seen(endian, kind, wordSize, shape);
            && |seen| >= 20 && Lacks(seen, 'O') && Lacks(seen, '\0')
            && Lacks(seen[..|seen| - 1], '\n') && seen[|seen| - 1] == '\n'
  {
    hide Front, ShapeText, Seen, CloseText, DictText;
    var front, text, back := Front(endian, kind, wordSize), ShapeText(shape), Back(endian, kind, wordSize, shape);
    SeenPieces(endian, kind, wordSize, shape);
    FrontChars(endian, kind, wordSize);
    ShapeTextQuiet(shape);
    CloseChars();
  }

  /** What the bytes behind the header can do to the parser: the key it looks for is not in
      the header, so it is looked for in the payload, up to the first NUL. */
  function StrayKey(payload: string): int { Find(CString(payload), "fortranOrder") }

  /** A file as written, whatever payload follows. Loading gives back the element size, the
      rank and the shape, with the cursor on the first payload byte, if and only if the
      byte order is little and the payload does not contain the key "fortranOrder" within four bytes of its first NUL. The
      order flag, written as False, comes back True exactly when "True" is all that follows
      four bytes behind a stray key. */
  lemma LoadsWhatWasWritten(endian: char, kind: char, wordSize: nat, shape: seq<nat>, payload: string)
    requires shape != [] && (endian == '<' || endian == '>') && PlainKind(kind) && wordSize <= INT_MAX
    requires forall i :: 0 <= i < |shape| ==> shape[i] <= INT_MAX
    ensures var header := Header(endian, kind, wordSize, shape);
            var c, stray := CString(payload), StrayKey(payload);
            && |header| >= 11
            && Load(header + payload) ==
               if stray >= 0 && stray + 16 > |c| then Err(OutOfRange)
               else if endian == '>' then Err(AssertFailed)
               else Ok(Loaded(Fields(wordSize, shape, stray >= 0 && c[stray + 16..] == "True"), |header|))
  {
    hide Seen, CString, Find, FortranKey, ShapeText, Header, PaddedDict, Parse;
    var header, seen := Header(endian, kind, wordSize, shape), Seen(endian, kind, wordSize, shape);
    var c, data := CString(payload), header + payload;
    KeyIs();
    SeenPlain(endian, kind, wordSize, shape);
    SomeDict(endian, kind, wordSize, shape);
    HeaderSeen(endian, kind, wordSize, shape, payload);
    CStringPrefix(seen, payload);
    ParsesBack(endian, kind, wordSize, shape, c);
    assert seen + payload == seen[..|seen| - 1] + ['\n'] + payload;
    FindChar(seen[..|seen| - 1], '\n', payload);
  }

  lemma SomeDict(endian: char, kind: char, wordSize: nat, shape: seq<nat>)
    requires shape != []
    ensures |PaddedDict(endian, kind, wordSize, shape)| > 0
  {
    hide DictText;
  }

  lemma HeaderSeen(endian: char, kind: char, wordSize: nat, shape: seq<nat>, payload: string)
    requires shape != [] && |PaddedDict(endian, kind, wordSize, shape)| > 0
    ensures var header, seen := Header(endian, kind, wordSize, shape), Seen(endian, kind, wordSize, shape);
            |header| == 11 + |seen| && (header + payload)[11..] == seen + payload
  {
    hide PaddedDict;
  }

  /** The parser on the written text followed by any bytes. */
  lemma ParsesBack(endian: char, kind: char, wordSize: nat, shape: seq<nat>, c: string)
    requires shape != [] && (endian == '<' || endian == '>') && PlainKind(kind)
    ensures var at := Find(c, FortranKey());
            Parse(Seen(endian, kind, wordSize, shape) + c) ==
            if at >= 0 && at + 16 > |c| then Err(OutOfRange)
            else if endian == '>' then Err(AssertFailed)
            else Ok(Fields(wordSize, shape, at >= 0 && c[at + 16..] == "True"))
  {
    hide Seen, Find, FortranKey, DescrKey, ShapeOf, Count, Atoi, ShapeText, Substr;
    SubstrRest(Seen(endian, kind, wordSize, shape) + c, 12);
    var seen, at := Seen(endian, kind, wordSize, shape), Find(c, FortranKey());
    SeenPlain(endian, kind, wordSize, shape);
    KeyOnlyBehind(seen, c);
    FlagRead(seen, c, at);
    ShapeTextFound(endian, kind, wordSize, shape, c);
    ShapeTextReadsBack(shape);
    WordSizeFound(endian, kind, wordSize, shape, c);
  }

  lemma KeyIs()
    ensures FortranKey() == "fortranOrder"
  {
  }

  lemma SubstrRest(s: string, pos: nat)
    ensures pos <= |s| ==> Substr(s, pos, -1) == Some(s[pos..])
  {
  }

  lemma FlagRead(seen: string, c: string, at: int)
    requires |seen| >= 20 && at >= -1 && seen[|seen| - 1] == '\n'
    ensures var flag := Substr(seen + c, (if at < 0 then NPOS else |seen| + at) + 16, 5);
            if at >= 0 && at + 16 > |c| then flag == None
            else flag.Some? && (flag.value == "True" <==> at >= 0 && c[at + 16..] == "True")
  {
    if at >= 0 && at + 16 <= |c| {
      assert (seen + c)[|seen| + at + 16..] == c[at + 16..];
    }
  }

  /** Both cases occur, for every shape: with a payload that starts with the key, four bytes,
      "True" and a NUL, a header written with False loads as True; with one that has a NUL
      right after the key, it does not load. */
  lemma StrayKeyMisleads(kind: char, wordSize: nat, shape: seq<nat>, filler: string, more: string)
    requires shape != [] && PlainKind(kind) && wordSize <= INT_MAX
    requires forall i :: 0 <= i < |shape| ==> shape[i] <= INT_MAX
    requires |filler| == 4 && Lacks(filler, '\0')
    ensures var header := Header('<', kind, wordSize, shape);
            && |header| >= 11
            && Load(header + (FortranKey() + filler + "True" + "\0" + more))
               == Ok(Loaded(Fields(wordSize, shape, true), |header|))
            && Load(header + (FortranKey() + "\0" + more)) == Err(OutOfRange)
  {
    hide Header, Load, StrayKey, CString, FortranKey;
    StrayKeys(filler, more);
    LoadsWhatWasWritten('<', kind, wordSize, shape, FortranKey() + filler + "True" + "\0" + more);
    LoadsWhatWasWritten('<', kind, wordSize, shape, FortranKey() + "\0" + more);
  }

  lemma StrayKeys(filler: string, more: string)
    requires |filler| == 4 && Lacks(filler, '\0')
    ensures var payload := FortranKey() + filler + "True" + "\0" + more;
            StrayKey(payload) == 0 && |CString(payload)| == 20 && CString(payload)[16..] == "True"
    ensures var payload := FortranKey() + "\0" + more;
            StrayKey(payload) == 0 && |CString(payload)| < 16
  {
    KeyIs();
    hide Find, FortranKey;
    KeyChars();
    var text := FortranKey() + filler + "True";
    EndsAtNul(text, more);
    EndsAtNul(FortranKey(), more);
    assert text[0..12] == FortranKey() == FortranKey()[0..12];
    assert Occurs(text, FortranKey(), 0) && Occurs(FortranKey(), FortranKey(), 0);
    assert FortranKey() + filler + "True" + "\0" + more == text + "\0" + more;
  }

  lemma KeyChars()
    ensures |FortranKey()| == 12 && Lacks(FortranKey(), '\0')
  {
  }

  lemma EndsAtNul(text: string, more: string)
    requires Lacks(text, '\0')
    ensures CString(text + "\0" + more) == text
  {
    CStringPrefix(text, "\0" + more);
    assert text + ("\0" + more) == text + "\0" + more;
  }
}
