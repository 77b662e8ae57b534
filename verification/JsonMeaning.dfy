/** What JSON text stands for (RFC 8259), and that it never stands for two things. */
module JsonMeaning {
  import opened Wrappers
  import opened ByteForms
  import opened Utf8

  /** What JSON text stands for.  `Other` is a null or a number that is not whole. */
  datatype Value =
    | Words(text: string) | Whole(n: int) | Flag(on: bool) | Other
    | Array(items: seq<Value>) | Dict(fields: seq<(string, Value)>)

  // ---- the meaning of JSON text ----

  /** The hexadecimal digit of a value below sixteen, in either case. */
  predicate HexDigit(b: byte, n: int) {
    if n < 10 then b as int == 48 + n else b as int == 87 + n || b as int == 55 + n
  }

  /** The character a short escape stands for. */
  predicate Escapes(b: byte, c: char) {
    || (b == 34 && c == '"') || (b == 92 && c == '\\') || (b == 47 && c == '/')
    || (b == 98 && c as int == 8) || (b == 102 && c as int == 12) || (b == 110 && c as int == 10)
    || (b == 114 && c as int == 13) || (b == 116 && c as int == 9)
  }

  /** One character of a string: itself, a short escape, or its code in four digits. */
  predicate SpellsOne(bytes: Bytes, c: char) {
    || (bytes == Encoded(c) && c >= ' ' && c != '"' && c != '\\')
    || (|bytes| == 2 && bytes[0] == 92 && Escapes(bytes[1], c))
    || (|bytes| == 6 && bytes[0] == 92 && bytes[1] == 117 && (c as int) < 0xd800
        && HexDigit(bytes[2], c as int / 4096) && HexDigit(bytes[3], c as int / 256 % 16)
        && HexDigit(bytes[4], c as int / 16 % 16) && HexDigit(bytes[5], c as int % 16))
  }

  ghost predicate Spells(bytes: Bytes, text: string)
    decreases text
  {
    if text == "" then bytes == []
    else exists n :: 0 <= n <= |bytes| && SpellsOne(bytes[..n], text[0]) && Spells(bytes[n..], text[1..])
  }

  /** Digits, the first not a zero unless it is the only one. */
  predicate Counts(token: Bytes, n: nat) {
    && |token| > 0 && 48 <= token[|token| - 1] <= 57 && n % 10 == token[|token| - 1] as int - 48
    && if |token| == 1 then n < 10 else n >= 10 && Counts(token[..|token| - 1], n / 10)
  }

  /** A piece of JSON text stands for a value. */
  ghost predicate Denotes(j: Json, v: Value)
    decreases j
  {
    match j
    case Text(bytes) => v.Words? && Spells(bytes, v.text)
    case Plain(token) =>
      || (v.Whole? && v.n >= 0 && Counts(token, v.n))
      || (v == Flag(true) && token == [116, 114, 117, 101])
      || (v == Flag(false) && token == [102, 97, 108, 115, 101])
    case List(items) => v.Array? && DenotesRow(items, false, Unnamed(v.items))
    case Object(members) => v.Dict? && DenotesRow(members, true, v.fields)
  }

  /** The values of a list, named by nothing. */
  function Unnamed(values: seq<Value>): (fields: seq<(string, Value)>)
    ensures |fields| == |values| && forall k :: 0 <= k < |values| ==> fields[k] == ("", values[k])
  {
    seq(|values|, k requires 0 <= k < |values| => ("", values[k]))
  }

  /** What stands between brackets, with nothing but blanks around its marks. */
  ghost predicate DenotesRow(c: Children, named: bool, fields: seq<(string, Value)>)
    decreases c
  {
    match c
    case NoMore(space) => fields == [] && Blank(space)
    case Child(before, name, beforeColon, afterColon, value, after, rest) =>
      && fields != [] && Blank(before) && Blank(after)
      && (if named then Blank(beforeColon) && Blank(afterColon) && Spells(name, fields[0].0) else fields[0].0 == "")
      && Denotes(value, fields[0].1) && DenotesRow(rest, named, fields[1..])
  }

  /** A loader that reads these bytes as the grammar does. */
  type Loader = Bytes -> Option<Value>

  /** Bytes that are one piece of JSON text, and what it stands for. */
  ghost predicate ReadsAs(raw: Bytes, j: Json, v: Value, space: Bytes) {
    raw == Printed(j) + space && Blank(space) && Denotes(j, v)
  }

  ghost predicate Loads(load: Loader, raw: Bytes) { forall j, v, space :: ReadsAs(raw, j, v, space) ==> load(raw) == Some(v) }

  ghost predicate Reliable(load: Loader) { forall raw :: Loads(load, raw) }

  // ---- one text, one meaning ----

  /** What may follow a value: nothing, a blank, a comma or a closing bracket. */
  predicate Stops(s: Bytes) {
    s == [] || s[0] == 32 || s[0] == 9 || s[0] == 10 || s[0] == 13 || s[0] == 44 || s[0] == 93 || s[0] == 125
  }

  predicate BlankByte(b: byte) { b == 32 || b == 9 || b == 10 || b == 13 }

  lemma EncodedOnce(c: char, d: char, x: Bytes, y: Bytes)
    requires Encoded(c) + x == Encoded(d) + y
    ensures c == d
  {
    var (a, b) := (Encoded(c), Encoded(d));
    assert a[0] == (a + x)[0] && b[0] == (b + y)[0];
    assert |a| == |b|;
    forall k | 0 <= k < |a|
      ensures a[k] == b[k]
    {
      assert a[k] == (a + x)[k] && b[k] == (b + y)[k];
    }
    EncodedIs(c);
    EncodedIs(d);
  }

  lemma {:induction false} BlanksOnce(a: Bytes, b: Bytes, x: Bytes, y: Bytes)
    requires Blank(a) && Blank(b) && a + x == b + y
    requires x != [] && !BlankByte(x[0]) && y != [] && !BlankByte(y[0])
    ensures a == b && x == y
  {
    var s := a + x;
    assert forall i :: 0 <= i < |a| ==> s[i] == a[i] && a[i] in a;
    assert forall i :: 0 <= i < |b| ==> s[i] == b[i] && b[i] in b;
    assert s[|a|] == x[0] && s[|b|] == y[0];
    assert |a| == |b|;
    assert a == (a + x)[..|a|] && b == (b + y)[..|a|] && x == (a + x)[|a|..] && y == (b + y)[|a|..];
  }

  /** A character stands for itself, or is escaped in one of two ways. */
  lemma SpellingForms(a: Bytes, c: char)
    requires SpellsOne(a, c)
    ensures |a| > 0 && a[0] != 34
    ensures if a[0] != 92 then a == Encoded(c)
            else if |a| == 2 then Escapes(a[1], c)
            else |a| == 6 && a[1] == 117 && (c as int) < 0xd800 && CodeOf(a) == c as int
  {
    hide Encoded, Escapes, HexDigit, CodeOf;
    if a == Encoded(c) && c >= ' ' && c != '"' && c != '\\' {
      RawForm(c);
    } else if |a| == 6 {
      CodeForm(a, c);
    }
  }

  lemma RawForm(c: char)
    requires c >= ' ' && c != '"' && c != '\\'
    ensures Encoded(c)[0] != 34 && Encoded(c)[0] != 92
  {
    hide Encoded;
    assert Encoded(c)[0] in Encoded(c);
    assert c as int != 34 && c as int != 92;
  }

  lemma CodeForm(a: Bytes, c: char)
    requires |a| == 6 && HexDigit(a[2], c as int / 4096) && HexDigit(a[3], c as int / 256 % 16)
    requires HexDigit(a[4], c as int / 16 % 16) && HexDigit(a[5], c as int % 16) && (c as int) < 0xd800
    ensures CodeOf(a) == c as int
  {
    hide HexDigit, Hexadecimal;
    var n := c as int;
    HexValue(a[2], n / 4096);
    HexValue(a[3], n / 256 % 16);
    HexValue(a[4], n / 16 % 16);
    HexValue(a[5], n % 16);
    assert n / 16 == n / 256 * 16 + n / 16 % 16 && n / 256 == n / 4096 * 16 + n / 256 % 16;
  }

  function Hexadecimal(b: byte): int { if b < 58 then b as int - 48 else if b >= 97 then b as int - 87 else b as int - 55 }

  function CodeOf(a: Bytes): int
    requires |a| == 6
  {
    Hexadecimal(a[2]) * 4096 + Hexadecimal(a[3]) * 256 + Hexadecimal(a[4]) * 16 + Hexadecimal(a[5])
  }

  lemma HexValue(b: byte, n: int)
    requires 0 <= n < 16 && HexDigit(b, n)
    ensures Hexadecimal(b) == n
  {
  }

  lemma OneSpelling(a: Bytes, c: char, b: Bytes, d: char, x: Bytes, y: Bytes)
    requires SpellsOne(a, c) && SpellsOne(b, d) && a + x == b + y
    ensures c == d && a == b && a[0] != 34
  {
    hide SpellsOne, Encoded, CodeOf;
    SpellingForms(a, c);
    SpellingForms(b, d);
    assert a[0] == (a + x)[0] && b[0] == (b + y)[0];
    if a[0] != 92 {
      EncodedOnce(c, d, x, y);
    } else {
      assert a[1] == (a + x)[1] && b[1] == (b + y)[1];
      assert |a| == |b|;
      assert a == (a + x)[..|a|] && b == (b + y)[..|a|];
    }
  }

  lemma {:induction false} SpellingOnce(a: Bytes, t: string, b: Bytes, u: string, x: Bytes, y: Bytes)
    requires Spells(a, t) && Spells(b, u) && a + [34] + x == b + [34] + y
    ensures a == b && t == u && x == y
    decreases |t| + |u|
  {
    hide SpellsOne;
    SpellingStarts(a, t);
    SpellingStarts(b, u);
    var s := a + [34] + x;
    assert s[0] == (if t == "" then 34 else a[0]) == if u == "" then 34 else b[0];
    if t == "" {
      assert s[1..] == x && s[1..] == y;
    } else {
      var n :| 0 <= n <= |a| && SpellsOne(a[..n], t[0]) && Spells(a[n..], t[1..]);
      var m :| 0 <= m <= |b| && SpellsOne(b[..m], u[0]) && Spells(b[m..], u[1..]);
      var (v, w) := (a[n..] + [34] + x, b[m..] + [34] + y);
      assert s == a[..n] + v && s == b[..m] + w;
      OneSpelling(a[..n], t[0], b[..m], u[0], v, w);
      assert n == m && v == s[n..] && w == s[n..];
      SpellingOnce(a[n..], t[1..], b[m..], u[1..], x, y);
      assert a == a[..n] + a[n..] && b == b[..m] + b[m..] && t == [t[0]] + t[1..] && u == [u[0]] + u[1..];
    }
  }

  lemma SpellingStarts(a: Bytes, t: string)
    requires Spells(a, t)
    ensures if t == "" then a == [] else a != [] && a[0] != 34
  {
    hide SpellsOne;
    if t != "" {
      var n :| 0 <= n <= |a| && SpellsOne(a[..n], t[0]) && Spells(a[n..], t[1..]);
      SpellingForms(a[..n], t[0]);
      assert a[0] == a[..n][0];
    }
  }

  lemma {:induction false} DigitsOnly(token: Bytes, n: nat)
    requires Counts(token, n)
    ensures forall b :: b in token ==> 48 <= b <= 57
  {
    assert token == token[..|token| - 1] + [token[|token| - 1]];
    if |token| > 1 { DigitsOnly(token[..|token| - 1], n / 10); }
  }

  lemma {:induction false} CountsOnce(token: Bytes, n: nat, m: nat)
    requires Counts(token, n) && Counts(token, m)
    ensures n == m
  {
    if |token| > 1 { CountsOnce(token[..|token| - 1], n / 10, m / 10); }
  }

  predicate Digits(a: Bytes) { a != [] && forall b :: b in a ==> 48 <= b <= 57 }

  /** A whole number or a truth value as it is written. */
  predicate Token(a: Bytes) {
    || Digits(a)
    || a == [116, 114, 117, 101] || a == [102, 97, 108, 115, 101]
  }

  lemma DigitsReach(a: Bytes, b: Bytes, x: Bytes, y: Bytes)
    requires Digits(a) && Digits(b) && Stops(x) && a + x == b + y
    ensures |b| <= |a|
  {
    var s := a + x;
    assert forall i :: 0 <= i < |b| ==> s[i] == b[i] && b[i] in b;
    assert x != [] ==> s[|a|] == x[0];
  }

  /** It ends where something that may follow it begins. */
  lemma TokensOnce(a: Bytes, b: Bytes, x: Bytes, y: Bytes)
    requires Token(a) && Token(b) && Stops(x) && Stops(y) && a + x == b + y
    ensures a == b && x == y
  {
    var s := a + x;
    assert s[0] == a[0] && s[0] == b[0] && a[0] in a && b[0] in b;
    if Digits(a) {
      DigitsReach(a, b, x, y);
      DigitsReach(b, a, y, x);
    }
    assert |a| == |b|;
    assert a == s[..|a|] && b == s[..|a|] && x == s[|a|..] && y == s[|a|..];
  }

  /** How a value begins: never with a blank, a comma, a colon or a closing bracket. */
  lemma Begins(j: Json, v: Value)
    requires Denotes(j, v)
    ensures Printed(j) != []
    ensures match j
      case Plain(token) => Token(token) && Printed(j) == token
      case Text(_) => Printed(j)[0] == 34
      case List(_) => Printed(j)[0] == 91
      case Object(_) => Printed(j)[0] == 123
  {
    hide Spells, DenotesRow;
    if j.Plain? && v.Whole? { DigitsOnly(j.token, v.n); }
  }

  /** The rest of a row, from the end of one of its values to the closing bracket. */
  function Tail(after: Bytes, rest: Children, named: bool, close: byte, x: Bytes): Bytes {
    after + (Comma(rest) + (PrintedChildren(rest, named) + ([close] + x)))
  }

  /** What follows a value in a row may follow a value. */
  lemma TailStops(after: Bytes, rest: Children, named: bool, fields: seq<(string, Value)>, close: byte, x: Bytes)
    requires Blank(after) && DenotesRow(rest, named, fields) && (close == 93 || close == 125)
    ensures Stops(Tail(after, rest, named, close, x))
  {
    hide Denotes, Spells;
    var s := Tail(after, rest, named, close, x);
    if after != [] {
      assert s[0] == after[0] && after[0] in after;
    } else if rest.Child? {
      assert s[0] == 44;
    } else if rest.space != [] {
      assert s[0] == rest.space[0] && rest.space[0] in rest.space;
    } else {
      assert s[0] == close;
    }
  }

  /** The blanks a row begins with, and the rest of it up to the closing bracket. */
  function Lead(c: Children): Bytes { if c.NoMore? then c.space else c.before }

  function Body(c: Children, named: bool, close: byte, x: Bytes): Bytes {
    if c.NoMore? then [close] + x else PrintedName(c, named) + (Printed(c.value) + Tail(c.after, c.rest, named, close, x))
  }

  lemma RowSplits(c: Children, named: bool, close: byte, x: Bytes)
    ensures PrintedChildren(c, named) + ([close] + x) == Lead(c) + Body(c, named, close, x)
  {
    hide Printed, PrintedName, Comma;
    if c.Child? {
      hide PrintedChildren;
      ChildSplits(c, named);
      var (a, b, d, e, f) := (c.before, PrintedName(c, named), Printed(c.value), c.after, Comma(c.rest));
      Regroup(a, b, d, e, f, PrintedChildren(c.rest, named), [close] + x);
    }
  }

  lemma ChildSplits(c: Children, named: bool)
    requires c.Child?
    ensures PrintedChildren(c, named) ==
            c.before + PrintedName(c, named) + Printed(c.value) + (c.after + Comma(c.rest)) + PrintedChildren(c.rest, named)
  {
  }

  lemma Regroup(a: Bytes, b: Bytes, c: Bytes, d: Bytes, e: Bytes, f: Bytes, g: Bytes)
    ensures a + b + c + (d + e) + f + g == a + (b + (c + (d + (e + (f + g)))))
  {
  }

  lemma BodyStarts(c: Children, named: bool, fields: seq<(string, Value)>, close: byte, x: Bytes)
    requires DenotesRow(c, named, fields) && close == (if named then 125 else 93)
    ensures Blank(Lead(c)) && (c.NoMore? ==> fields == [])
    ensures var b := Body(c, named, close, x); b != [] && !BlankByte(b[0]) && (c.NoMore? <==> b[0] == close)
  {
    hide Denotes, Spells, DenotesRow, Printed, Token, Tail;
    RowParts(c, named, fields);
    if c.Child? {
      Begins(c.value, fields[0].1);
      TokenStarts(c.value);
    }
  }

  lemma TokenStarts(j: Json)
    requires j.Plain? ==> Token(j.token)
    ensures j.Plain? ==> !BlankByte(j.token[0]) && j.token[0] != 93 && j.token[0] != 125
  {
    if j.Plain? && j.token != [116, 114, 117, 101] && j.token != [102, 97, 108, 115, 101] { assert j.token[0] in j.token; }
  }

  lemma RowParts(c: Children, named: bool, fields: seq<(string, Value)>)
    requires DenotesRow(c, named, fields)
    ensures c.NoMore? ==> Blank(c.space) && fields == []
    ensures c.Child? ==>
              && fields != [] && Blank(c.before) && Blank(c.after) && Denotes(c.value, fields[0].1) && DenotesRow(c.rest, named, fields[1..])
              && if named then Blank(c.beforeColon) && Blank(c.afterColon) && Spells(c.name, fields[0].0) else fields[0].0 == ""
  {
  }

  /** A name, its colon and the blanks around it. */
  lemma NameOnce(c: Children, t: string, d: Children, u: string, x: Bytes, y: Bytes)
    requires c.Child? && d.Child? && Spells(c.name, t) && Spells(d.name, u)
    requires Blank(c.beforeColon) && Blank(c.afterColon) && Blank(d.beforeColon) && Blank(d.afterColon)
    requires x != [] && !BlankByte(x[0]) && y != [] && !BlankByte(y[0])
    requires PrintedName(c, true) + x == PrintedName(d, true) + y
    ensures t == u && x == y
  {
    hide Spells;
    var (v, w) := (c.beforeColon + ([58] + (c.afterColon + x)), d.beforeColon + ([58] + (d.afterColon + y)));
    assert PrintedName(c, true) + x == [34] + (c.name + [34] + v);
    assert PrintedName(d, true) + y == [34] + (d.name + [34] + w);
    assert ([34] + (c.name + [34] + v))[1..] == c.name + [34] + v && ([34] + (d.name + [34] + w))[1..] == d.name + [34] + w;
    SpellingOnce(c.name, t, d.name, u, v, w);
    var (v', w') := ([58] + (c.afterColon + x), [58] + (d.afterColon + y));
    BlanksOnce(c.beforeColon, d.beforeColon, v', w');
    assert v'[1..] == c.afterColon + x && w'[1..] == d.afterColon + y;
    BlanksOnce(c.afterColon, d.afterColon, x, y);
  }

  /** The rest of a row reads one way: both end, or both go on alike. */
  lemma TailOnce(a: Bytes, c: Children, b: Bytes, d: Children, named: bool, f: seq<(string, Value)>, g: seq<(string, Value)>,
                 close: byte, x: Bytes, y: Bytes)
    requires Blank(a) && Blank(b) && DenotesRow(c, named, f) && DenotesRow(d, named, g) && close == (if named then 125 else 93)
    requires Tail(a, c, named, close, x) == Tail(b, d, named, close, y)
    ensures c.NoMore? <==> d.NoMore?
    ensures if c.NoMore? then x == y
            else PrintedChildren(c, named) + ([close] + x) == PrintedChildren(d, named) + ([close] + y)
  {
    hide Denotes, Spells, DenotesRow;
    RowParts(c, named, f);
    RowParts(d, named, g);
    var (v, w) := (TailLead(a, c), TailLead(b, d));
    var (v', w') := (TailBody(c, named, close, x), TailBody(d, named, close, y));
    TailSplits(a, c, named, close, x);
    TailSplits(b, d, named, close, y);
    BlanksOnce(v, w, v', w');
    assert v'[1..] == if c.NoMore? then x else PrintedChildren(c, named) + ([close] + x);
    assert w'[1..] == if d.NoMore? then y else PrintedChildren(d, named) + ([close] + y);
  }

  function TailLead(after: Bytes, rest: Children): Bytes { if rest.NoMore? then after + rest.space else after }

  function TailBody(rest: Children, named: bool, close: byte, x: Bytes): Bytes {
    if rest.NoMore? then [close] + x else [44] + (PrintedChildren(rest, named) + ([close] + x))
  }

  lemma TailSplits(after: Bytes, rest: Children, named: bool, close: byte, x: Bytes)
    ensures Tail(after, rest, named, close, x) == TailLead(after, rest) + TailBody(rest, named, close, x)
  {
    if rest.NoMore? { assert after + (rest.space + ([close] + x)) == after + rest.space + ([close] + x); }
  }

  /** A text that stands for a value stands for no other, and ends where it ends. */
  lemma {:induction false} OneMeaning(j: Json, v: Value, k: Json, w: Value, x: Bytes, y: Bytes)
    requires Denotes(j, v) && Denotes(k, w) && Stops(x) && Stops(y) && Printed(j) + x == Printed(k) + y
    ensures v == w && x == y
    decreases j, 1
  {
    hide Spells, DenotesRow, Stops, Token, Printed;
    Begins(j, v);
    Begins(k, w);
    TokenByte(j);
    TokenByte(k);
    assert (Printed(j) + x)[0] == Printed(j)[0] && (Printed(k) + y)[0] == Printed(k)[0];
    match j {
      case Plain(token) =>
        TokensOnce(token, k.token, x, y);
        PlainOnce(j, v, k, w);
      case Text(bytes) =>
        TextParts(j, x);
        TextParts(k, y);
        SpellingOnce(bytes, v.text, k.bytes, w.text, x, y);
      case List(items) =>
        RowParts2(j, x);
        RowParts2(k, y);
        RowOnce(items, false, Unnamed(v.items), k.items, Unnamed(w.items), 93, x, y);
        UnnamedOnce(v.items, w.items);
      case Object(members) =>
        RowParts2(j, x);
        RowParts2(k, y);
        RowOnce(members, true, v.fields, k.members, w.fields, 125, x, y);
    }
  }

  lemma {:induction false} RowOnce(c: Children, named: bool, f: seq<(string, Value)>, d: Children, g: seq<(string, Value)>,
                                   close: byte, x: Bytes, y: Bytes)
    requires DenotesRow(c, named, f) && DenotesRow(d, named, g) && close == (if named then 125 else 93)
    requires PrintedChildren(c, named) + ([close] + x) == PrintedChildren(d, named) + ([close] + y)
    ensures f == g && x == y
    decreases c, 0
  {
    hide Denotes, Spells, DenotesRow, Printed, PrintedChildren, PrintedName, Tail, Lead, Blank, Stops;
    RowSplits(c, named, close, x);
    RowSplits(d, named, close, y);
    BodyStarts(c, named, f, close, x);
    BodyStarts(d, named, g, close, y);
    var (v, w) := (Body(c, named, close, x), Body(d, named, close, y));
    BlanksOnce(Lead(c), Lead(d), v, w);
    if c.NoMore? {
      assert v[1..] == x && w[1..] == y;
    } else {
      RowParts(c, named, f);
      RowParts(d, named, g);
      var (p, q) := (Tail(c.after, c.rest, named, close, x), Tail(d.after, d.rest, named, close, y));
      var (v', w') := (Printed(c.value) + p, Printed(d.value) + q);
      Begins(c.value, f[0].1);
      Begins(d.value, g[0].1);
      TokenStarts(c.value);
      TokenStarts(d.value);
      if named { NameOnce(c, f[0].0, d, g[0].0, v', w'); } else { NoName(c, v'); NoName(d, w'); }
      TailStops(c.after, c.rest, named, f[1..], close, x);
      TailStops(d.after, d.rest, named, g[1..], close, y);
      OneMeaning(c.value, f[0].1, d.value, g[0].1, p, q);
      TailOnce(c.after, c.rest, d.after, d.rest, named, f[1..], g[1..], close, x, y);
      RowParts(c.rest, named, f[1..]);
      RowParts(d.rest, named, g[1..]);
      if c.rest.Child? { RowOnce(c.rest, named, f[1..], d.rest, g[1..], close, x, y); }
      assert f == [f[0]] + f[1..] && g == [g[0]] + g[1..];
    }
  }

  lemma NoName(c: Children, x: Bytes)
    requires c.Child?
    ensures PrintedName(c, false) + x == x
  {
  }

  lemma TokenByte(j: Json)
    requires j.Plain? ==> Token(j.token)
    ensures j.Plain? ==> j.token[0] != 34 && j.token[0] != 91 && j.token[0] != 123
  {
    if j.Plain? && j.token != [116, 114, 117, 101] && j.token != [102, 97, 108, 115, 101] { assert j.token[0] in j.token; }
  }

  lemma PlainOnce(j: Json, v: Value, k: Json, w: Value)
    requires Denotes(j, v) && Denotes(k, w) && j.Plain? && k.Plain? && j.token == k.token
    ensures v == w
  {
    if v.Whole? { DigitsOnly(j.token, v.n); }
    if w.Whole? { DigitsOnly(j.token, w.n); }
    if v.Whole? && w.Whole? { CountsOnce(j.token, v.n, w.n); }
  }

  lemma TextParts(j: Json, x: Bytes)
    requires j.Text?
    ensures (Printed(j) + x)[1..] == j.bytes + [34] + x
  {
  }

  lemma RowParts2(j: Json, x: Bytes)
    requires j.List? || j.Object?
    ensures j.List? ==> (Printed(j) + x)[1..] == PrintedChildren(j.items, false) + ([93] + x)
    ensures j.Object? ==> (Printed(j) + x)[1..] == PrintedChildren(j.members, true) + ([125] + x)
  {
    hide PrintedChildren;
  }

  lemma UnnamedOnce(a: seq<Value>, b: seq<Value>)
    requires Unnamed(a) == Unnamed(b)
    ensures a == b
  {
    forall k | 0 <= k < |a|
      ensures a[k] == b[k]
    {
      assert Unnamed(a)[k] == Unnamed(b)[k];
    }
  }

  /** So there is a loader that reads every text as its grammar says. */
  lemma SomeLoader()
    ensures exists load :: Reliable(load)
  {
    var load: Loader := raw =>
      if exists j, v, space :: ReadsAs(raw, j, v, space) then
        var j, v, space :| ReadsAs(raw, j, v, space);
        Some(v)
      else None;
    forall raw, j, v, space | ReadsAs(raw, j, v, space)
      ensures load(raw) == Some(v)
    {
      var k, w, more :| ReadsAs(raw, k, w, more) && load(raw) == Some(w);
      BlankStops(space);
      BlankStops(more);
      OneMeaning(j, v, k, w, space, more);
    }
    assert Reliable(load);
  }

  lemma BlankStops(space: Bytes)
    requires Blank(space)
    ensures Stops(space)
  {
    if space != [] { assert space[0] in space; }
  }
}
