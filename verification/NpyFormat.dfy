/** A reader of .npy headers by the format's own text (NEP 1, "Format Specification: Version
    1.0"): a preamble with the length of the dictionary, and the dictionary as a Python literal
    of strings, truth values and tuples of numbers. It knows nothing of the writer. */
module NpyFormat {
  import opened Wrappers

  datatype Literal = Text(text: string) | Truth(b: bool) | Tuple(entries: seq<nat>)

  /** The dictionary, its entries in order, and the bytes behind the header. */
  datatype Npy = Npy(dict: seq<(string, Literal)>, payload: string)

  function SkipBlanks(s: string): (r: string)
    ensures |r| <= |s|
  {
    if s != [] && s[0] == ' ' then SkipBlanks(s[1..]) else s
  }

  /** What stands before the first `c`, and what behind it. */
  function Until(s: string, c: char): (r: Option<(string, string)>)
    ensures r.Some? ==> |r.value.1| < |s|
  {
    if s == [] then None
    else if s[0] == c then Some(([], s[1..]))
    else
      var more := Until(s[1..], c);
      if more == None then None else Some(([s[0]] + more.value.0, more.value.1))
  }

  /** The decimal number in front, continuing one that was begun with value `acc`. */
  function More(s: string, acc: nat): (r: (nat, string))
    ensures |r.1| <= |s|
  {
    if s != [] && '0' <= s[0] <= '9' then More(s[1..], 10 * acc + (s[0] as int - '0' as int)) else (acc, s)
  }

  function Number(s: string): (r: Option<(nat, string)>)
    ensures r.Some? ==> |r.value.1| < |s|
  {
    if s != [] && '0' <= s[0] <= '9' then Some(More(s, 0)) else None
  }

  /** The entries behind a comma, up to the closing parenthesis; a last comma may be there. */
  function Entries(s: string): (r: Option<(seq<nat>, string)>)
    ensures r.Some? ==> |r.value.1| < |s|
    decreases |s|
  {
    var t := SkipBlanks(s);
    if t != [] && t[0] == ')' then Some(([], t[1..]))
    else
      var n := Number(t);
      if n == None then None
      else
        var u := SkipBlanks(n.value.1);
        if u == [] then None
        else if u[0] == ')' then Some(([n.value.0], u[1..]))
        else if u[0] != ',' then None
        else
          var more := Entries(u[1..]);
          if more == None then None else Some(([n.value.0] + more.value.0, more.value.1))
  }

  /** A tuple without its opening parenthesis. A single entry takes a comma: without one the
      parentheses only group. */
  function TupleBody(s: string): (r: Option<(seq<nat>, string)>)
    ensures r.Some? ==> |r.value.1| < |s|
  {
    if s != [] && s[0] == ')' then Some(([], s[1..]))
    else
      var n := Number(s);
      if n == None then None
      else
        var u := SkipBlanks(n.value.1);
        if u == [] || u[0] != ',' then None
        else
          var more := Entries(u[1..]);
          if more == None then None else Some(([n.value.0] + more.value.0, more.value.1))
  }

  function Value(s: string): (r: Option<(Literal, string)>)
    ensures r.Some? ==> |r.value.1| < |s|
  {
    if s == [] then None
    else if s[0] == '\'' then
      var t := Until(s[1..], '\'');
      if t == None then None else Some((Text(t.value.0), t.value.1))
    else if "True" <= s then Some((Truth(true), s[4..]))
    else if "False" <= s then Some((Truth(false), s[5..]))
    else if s[0] == '(' then
      var t := TupleBody(s[1..]);
      if t == None then None else Some((Tuple(t.value.0), t.value.1))
    else None
  }

  /** One key with its value. */
  function Pair(s: string): (r: Option<((string, Literal), string)>)
    ensures r.Some? ==> |r.value.1| < |s|
  {
    if s == [] || s[0] != '\'' then None
    else
      var key := Until(s[1..], '\'');
      if key == None then None
      else
        var t := SkipBlanks(key.value.1);
        if t == [] || t[0] != ':' then None
        else
          var v := Value(SkipBlanks(t[1..]));
          if v == None then None else Some(((key.value.0, v.value.0), v.value.1))
  }

  /** The entries up to the closing brace, a last comma being allowed. */
  function Pairs(s: string): (r: Option<(seq<(string, Literal)>, string)>)
    decreases |s|
  {
    var t := SkipBlanks(s);
    if t != [] && t[0] == '}' then Some(([], t[1..]))
    else
      var p := Pair(t);
      if p == None then None
      else
        var u := SkipBlanks(p.value.1);
        if u == [] then None
        else if u[0] == '}' then Some(([p.value.0], u[1..]))
        else if u[0] != ',' then None
        else
          var more := Pairs(u[1..]);
          if more == None then None else Some(([p.value.0] + more.value.0, more.value.1))
  }

  /** The dictionary, behind which are only blanks and a final newline. */
  function ReadDict(s: string): Option<seq<(string, Literal)>> {
    if s == [] || s[0] != '{' then None
    else
      var d := Pairs(s[1..]);
      if d != None && SkipBlanks(d.value.1) == "\n" then Some(d.value.0) else None
  }

  /** The whole file: magic, version 1.0, the length in two bytes, low byte first, and the
      dictionary, the header being a multiple of 16 bytes long. */
  function ReadNpy(s: string): Option<Npy> {
    if |s| < 10 || s[0] as int != 0x93 || s[1..6] != "NUMPY" || s[6] as int != 1 || s[7] as int != 0 then None
    else
      var end := 10 + s[8] as int + 256 * (s[9] as int);
      if end > |s| || end % 16 != 0 then None
      else
        var dict := ReadDict(s[10..end]);
        if dict == None then None else Some(Npy(dict.value, s[end..]))
  }
}
