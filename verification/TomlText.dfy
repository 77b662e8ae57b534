/** Single values as the configuration is printed, and as TOML v1.0.0 reads them
    (sections "String", "Integer", "Boolean" and "Array").  What is printed for a
    value reads back as that value. */
module TomlText {
  import opened Wrappers

  datatype Toml = Str(text: string) | Int(value: int) | Bool(on: bool) | Array(items: seq<Toml>)
                | Table(entries: seq<(string, Toml)>)

  // ---- printing ----

  function HexDigit(n: nat): char
    requires n < 16
  {
    if n < 10 then '0' + n as char else 'a' + (n - 10) as char
  }

  predicate Control(c: char) { c < ' ' || c == '\U{7f}' }

  /** One character of a basic string: by name, by code, or as it is. */
  function Escape(c: char): (text: string)
    ensures |text| >= 1
  {
    if c == '\\' then "\\\\"
    else if c == '"' then "\\\""
    else if c == '\U{8}' then "\\b"
    else if c == '\t' then "\\t"
    else if c == '\n' then "\\n"
    else if c == '\U{c}' then "\\f"
    else if c == '\r' then "\\r"
    else if Control(c) then "\\u00" + [HexDigit(c as int / 16), HexDigit(c as int % 16)]
    else [c]
  }

  function Escaped(text: string): string {
    if text == "" then "" else Escape(text[0]) + Escaped(text[1..])
  }

  function BasicString(text: string): string { "\"" + Escaped(text) + "\"" }

  function Digit(n: nat): char
    requires n < 10
  {
    '0' + n as char
  }

  function Decimal(n: nat): string {
    if n < 10 then [Digit(n)] else Decimal(n / 10) + [Digit(n % 10)]
  }

  /** A value on one line; tables are never printed as values. */
  function Printed(v: Toml): string {
    match v
    case Bool(on) => if on then "true" else "false"
    case Int(value) => if value < 0 then "-" + Decimal(-value) else Decimal(value)
    case Array(items) => "[" + PrintedItems(items) + "]"
    case Str(text) => BasicString(text)
    case Table(_) => ""
  }

  function PrintedItems(items: seq<Toml>): string {
    if items == [] then ""
    else if |items| == 1 then Printed(items[0])
    else Printed(items[0]) + ", " + PrintedItems(items[1..])
  }

  // ---- reading ----

  function HexValue(c: char): Option<nat> {
    if '0' <= c <= '9' then Some((c - '0') as nat)
    else if 'a' <= c <= 'f' then Some((c - 'a') as nat + 10)
    else if 'A' <= c <= 'F' then Some((c - 'A') as nat + 10)
    else None
  }

  /** The character after a backslash, with what follows it. */
  function ReadEscape(s: string): (r: Option<(char, string)>)
    ensures r.Some? ==> |r.value.1| < |s|
  {
    if s == "" then None
    else if s[0] == '\\' || s[0] == '"' then Some((s[0], s[1..]))
    else if s[0] == 'b' then Some(('\U{8}', s[1..]))
    else if s[0] == 't' then Some(('\t', s[1..]))
    else if s[0] == 'n' then Some(('\n', s[1..]))
    else if s[0] == 'f' then Some(('\U{c}', s[1..]))
    else if s[0] == 'r' then Some(('\r', s[1..]))
    else if s[0] == 'u' && |s| >= 5 && HexValue(s[1]).Some? && HexValue(s[2]).Some? && HexValue(s[3]).Some? && HexValue(s[4]).Some? then
      var code := ((HexValue(s[1]).value * 16 + HexValue(s[2]).value) * 16 + HexValue(s[3]).value) * 16 + HexValue(s[4]).value;
      if 0xd800 <= code < 0xe000 || code > 0xffff then None else Some((code as char, s[5..]))
    else None
  }

  /** The rest of a basic string and what follows its closing quote. */
  function ReadBasic(s: string): (r: Option<(string, string)>)
    ensures r.Some? ==> |r.value.1| < |s|
    decreases |s|
  {
    if s == "" then None
    else if s[0] == '"' then Some(("", s[1..]))
    else if s[0] == '\\' then
      var escape := ReadEscape(s[1..]);
      if escape.None? then None
      else
        var rest := ReadBasic(escape.value.1);
        if rest.None? then None else Some(([escape.value.0] + rest.value.0, rest.value.1))
    else if Control(s[0]) && s[0] != '\t' then None
    else
      var rest := ReadBasic(s[1..]);
      if rest.None? then None else Some(([s[0]] + rest.value.0, rest.value.1))
  }

  predicate IsDigit(c: char) { '0' <= c <= '9' }

  /** How many digits a text begins with. */
  function DigitRun(s: string): (n: nat)
    ensures n <= |s|
  {
    if s == "" || !IsDigit(s[0]) then 0 else 1 + DigitRun(s[1..])
  }

  function DigitValue(c: char): nat { if IsDigit(c) then (c - '0') as nat else 0 }

  function NatOf(digits: string): nat {
    if digits == "" then 0 else NatOf(digits[..|digits| - 1]) * 10 + DigitValue(digits[|digits| - 1])
  }

  /** A decimal integer: no sign is a plus, and no leading zeros. */
  function ReadNat(s: string): (r: Option<(nat, string)>)
    ensures r.Some? ==> |r.value.1| < |s|
  {
    var n := DigitRun(s);
    if n == 0 || (n > 1 && s[0] == '0') then None else Some((NatOf(s[..n]), s[n..]))
  }

  function SkipSpaces(s: string): (r: string)
    ensures |r| <= |s|
  {
    if s != "" && s[0] == ' ' then SkipSpaces(s[1..]) else s
  }

  function ReadValue(s: string): (r: Option<(Toml, string)>)
    ensures r.Some? ==> |r.value.1| < |s|
    decreases |s|, 0
  {
    if s == "" then None
    else if s[0] == '"' then
      var text := ReadBasic(s[1..]);
      if text.None? then None else Some((Str(text.value.0), text.value.1))
    else if s[0] == 't' then (if |s| >= 4 && s[..4] == "true" then Some((Bool(true), s[4..])) else None)
    else if s[0] == 'f' then (if |s| >= 5 && s[..5] == "false" then Some((Bool(false), s[5..])) else None)
    else if s[0] == '[' then
      var items := ReadItems(s[1..]);
      if items.None? then None else Some((Array(items.value.0), items.value.1))
    else if s[0] == '-' then
      var n := ReadNat(s[1..]);
      if n.None? then None else Some((Int(0 - n.value.0), n.value.1))
    else
      var n := ReadNat(s);
      if n.None? then None else Some((Int(n.value.0), n.value.1))
  }

  /** The rest of an array, from behind its bracket or a comma. */
  function ReadItems(s: string): (r: Option<(seq<Toml>, string)>)
    ensures r.Some? ==> |r.value.1| < |s|
    decreases |s|, 1
  {
    var t := SkipSpaces(s);
    if t == "" then None
    else if t[0] == ']' then Some(([], t[1..]))
    else
      var first := ReadValue(t);
      if first.None? then None
      else
        var u := SkipSpaces(first.value.1);
        if u == "" then None
        else if u[0] == ']' then Some(([first.value.0], u[1..]))
        else if u[0] != ',' then None
        else
          var rest := ReadItems(u[1..]);
          if rest.None? then None else Some(([first.value.0] + rest.value.0, rest.value.1))
  }

  // ---- what is printed reads back ----

  lemma EscapeReads(c: char, rest: string)
    ensures var s := Escape(c) + rest;
            if s[0] == '\\' then ReadEscape(s[1..]) == Some((c, rest))
            else Escape(c) == [c] && c != '"' && !Control(c)
  {
    var s := Escape(c) + rest;
    if s[0] == '\\' {
      if |Escape(c)| == 2 {
        assert s[1..] == [Escape(c)[1]] + rest;
        assert s[1..][1..] == rest;
      } else {
        CodeReads(c, rest);
      }
    }
  }

  lemma CodeReads(c: char, rest: string)
    requires Control(c) && |Escape(c)| != 2
    ensures ReadEscape((Escape(c) + rest)[1..]) == Some((c, rest))
  {
    var code := c as int;
    var s := (Escape(c) + rest)[1..];
    assert s == ['u', '0', '0', HexDigit(code / 16), HexDigit(code % 16)] + rest;
    assert s[5..] == rest;
    assert HexValue(HexDigit(code / 16)) == Some(code / 16);
    assert HexValue(HexDigit(code % 16)) == Some(code % 16);
  }

  /** Every text, control characters, quotes and backslashes included, is read back
      out of the basic string it prints as. */
  lemma {:induction false} StringReads(text: string, rest: string)
    ensures ReadBasic(Escaped(text) + "\"" + rest) == Some((text, rest))
  {
    hide ReadBasic, Escape;
    if text == "" {
      QuoteCloses(rest);
      assert Escaped("") + "\"" + rest == "\"" + rest;
    } else {
      var tail := Escaped(text[1..]) + "\"" + rest;
      StringReads(text[1..], rest);
      CharacterReads(text[0], tail, text[1..], rest);
      assert Escaped(text) + "\"" + rest == Escape(text[0]) + tail;
      assert text == [text[0]] + text[1..];
    }
  }

  lemma QuoteCloses(rest: string)
    ensures ReadBasic("\"" + rest) == Some(("", rest))
  {
    assert ("\"" + rest)[1..] == rest;
  }

  lemma CharacterReads(c: char, tail: string, text: string, rest: string)
    requires ReadBasic(tail) == Some((text, rest))
    ensures ReadBasic(Escape(c) + tail) == Some(([c] + text, rest))
  {
    hide ReadEscape, Escape;
    EscapeReads(c, tail);
    var s := Escape(c) + tail;
    if s[0] != '\\' { assert s[1..] == tail; }
  }

  /** No printed string breaks its line. */
  lemma {:induction false} EscapedHasNoControl(text: string)
    ensures forall c :: c in Escaped(text) ==> !Control(c)
  {
    if text != "" {
      EscapedHasNoControl(text[1..]);
      forall c | c in Escape(text[0])
        ensures !Control(c)
      {
      }
    }
  }

  lemma {:induction false} DecimalReads(n: nat)
    ensures forall c :: c in Decimal(n) ==> IsDigit(c)
    ensures NatOf(Decimal(n)) == n && Decimal(n) != "" && (Decimal(n)[0] == '0' ==> n == 0 && |Decimal(n)| == 1)
  {
    if n >= 10 {
      DecimalReads(n / 10);
      assert Decimal(n)[..|Decimal(n)| - 1] == Decimal(n / 10);
      assert Decimal(n)[0] == Decimal(n / 10)[0];
    } else {
      assert Decimal(n)[..0] == "";
    }
  }

  lemma {:induction false} RunEnds(digits: string, rest: string)
    requires (forall c :: c in digits ==> IsDigit(c)) && (rest == "" || !IsDigit(rest[0]))
    ensures DigitRun(digits + rest) == |digits|
  {
    if digits != "" {
      assert (digits + rest)[1..] == digits[1..] + rest;
      RunEnds(digits[1..], rest);
    } else {
      assert digits + rest == rest;
    }
  }

  lemma NatReads(n: nat, rest: string)
    requires rest == "" || !IsDigit(rest[0])
    ensures ReadNat(Decimal(n) + rest) == Some((n, rest))
  {
    DecimalReads(n);
    RunEnds(Decimal(n), rest);
    assert (Decimal(n) + rest)[..|Decimal(n)|] == Decimal(n);
    assert (Decimal(n) + rest)[|Decimal(n)|..] == rest;
  }

  /** Values this program prints: scalars, and arrays of them. */
  predicate Flat(v: Toml) {
    match v
    case Table(_) => false
    case Array(items) => forall item :: item in items ==> Scalar(item)
    case _ => true
  }

  /** What may stand behind a value on its line. */
  predicate Ends(rest: string) { rest == "" || rest[0] == ',' || rest[0] == ']' }

  lemma TextReads(text: string, rest: string)
    ensures ReadValue(BasicString(text) + rest) == Some((Str(text), rest))
  {
    hide ReadBasic, Escaped;
    StringReads(text, rest);
    assert (BasicString(text) + rest)[1..] == Escaped(text) + "\"" + rest;
  }

  lemma NumberReads(value: int, rest: string)
    requires Ends(rest)
    ensures ReadValue(Printed(Int(value)) + rest) == Some((Int(value), rest))
    ensures Printed(Int(value)) != "" && Printed(Int(value))[0] != ' ' && Printed(Int(value))[0] != ']'
  {
    hide ReadNat, Decimal;
    var n := if value < 0 then -value else value;
    NatReads(n, rest);
    DecimalReads(n);
    assert IsDigit(Decimal(n)[0]);
    if value < 0 { assert (Printed(Int(value)) + rest)[1..] == Decimal(n) + rest; }
  }

  lemma FlagReads(on: bool, rest: string)
    ensures ReadValue(Printed(Bool(on)) + rest) == Some((Bool(on), rest))
  {
    var s := Printed(Bool(on)) + rest;
    if on { assert s[..4] == "true" && s[4..] == rest; } else { assert s[..5] == "false" && s[5..] == rest; }
  }

  predicate Scalar(v: Toml) { v.Str? || v.Int? || v.Bool? }

  lemma ScalarReads(v: Toml, rest: string)
    requires Scalar(v) && Ends(rest)
    ensures ReadValue(Printed(v) + rest) == Some((v, rest))
    ensures Printed(v) != "" && Printed(v)[0] != ' ' && Printed(v)[0] != ']'
  {
    hide ReadValue;
    match v {
      case Str(text) => TextReads(text, rest);
      case Int(value) => NumberReads(value, rest);
      case Bool(on) => FlagReads(on, rest);
    }
  }

  lemma NoItemsRead(rest: string)
    ensures ReadItems("]" + rest) == Some(([], rest))
  {
    assert ("]" + rest)[1..] == rest;
  }

  lemma LastItemReads(t: string, v: Toml, rest: string)
    requires t != "" && t[0] != ' ' && t[0] != ']' && ReadValue(t) == Some((v, "]" + rest))
    ensures ReadItems(t) == Some(([v], rest))
  {
    assert ("]" + rest)[1..] == rest;
  }

  lemma NextItemReads(t: string, v: Toml, tail: string, items: seq<Toml>, rest: string)
    requires t != "" && t[0] != ' ' && t[0] != ']' && ReadValue(t) == Some((v, "," + tail))
    requires ReadItems(tail) == Some((items, rest))
    ensures ReadItems(t) == Some(([v] + items, rest))
  {
    hide ReadValue;
    assert ("," + tail)[1..] == tail;
  }

  lemma SpacedItemsRead(t: string)
    ensures ReadItems(" " + t) == ReadItems(t)
  {
    hide ReadValue;
    assert (" " + t)[1..] == t;
  }

  lemma {:induction false} ItemsRead(items: seq<Toml>, rest: string)
    requires forall item :: item in items ==> Scalar(item)
    ensures ReadItems(PrintedItems(items) + "]" + rest) == Some((items, rest))
  {
    hide ReadItems, ReadValue, Printed;
    var s := PrintedItems(items) + "]" + rest;
    if items == [] {
      NoItemsRead(rest);
      assert s == "]" + rest;
    } else {
      if |items| == 1 {
        ScalarReads(items[0], "]" + rest);
        assert s == Printed(items[0]) + ("]" + rest);
        LastItemReads(s, items[0], rest);
        assert items == [items[0]];
      } else {
        var tail := PrintedItems(items[1..]) + "]" + rest;
        ScalarReads(items[0], "," + (" " + tail));
        assert s == Printed(items[0]) + ("," + (" " + tail));
        ItemsRead(items[1..], rest);
        SpacedItemsRead(tail);
        NextItemReads(s, items[0], " " + tail, items[1..], rest);
        assert items == [items[0]] + items[1..];
      }
    }
  }

  /** A printed value reads back as itself, whatever ends it. */
  lemma ValueReads(v: Toml, rest: string)
    requires Flat(v) && Ends(rest)
    ensures ReadValue(Printed(v) + rest) == Some((v, rest))
  {
    if v.Array? {
      ArrayReads(v.items, rest);
    } else {
      ScalarReads(v, rest);
    }
  }

  lemma ArrayReads(items: seq<Toml>, rest: string)
    requires forall item :: item in items ==> Scalar(item)
    ensures ReadValue("[" + PrintedItems(items) + "]" + rest) == Some((Array(items), rest))
  {
    hide ReadItems, PrintedItems;
    ItemsRead(items, rest);
    var s := "[" + PrintedItems(items) + "]" + rest;
    assert s[1..] == PrintedItems(items) + "]" + rest;
  }
}
