/** Two passes over raw bytes: batch files on their way into the archive, and the
    archive's index on its way into the parser. */
module ByteForms {

  newtype byte = x: int | 0 <= x < 256

  type Bytes = seq<byte>

  const LF: byte := 10
  const CR: byte := 13

  // ---- line endings ----

  /** Every CR LF pair, taken from the left, becomes LF. */
  function Collapsed(s: Bytes): Bytes {
    if s == [] then []
    else if |s| >= 2 && s[0] == CR && s[1] == LF then [LF] + Collapsed(s[2..])
    else [s[0]] + Collapsed(s[1..])
  }

  /** Every LF becomes CR LF. */
  function Expanded(s: Bytes): Bytes {
    if s == [] then []
    else (if s[0] == LF then [CR, LF] else [s[0]]) + Expanded(s[1..])
  }

  function AsCrlf(data: Bytes): Bytes { Expanded(Collapsed(data)) }

  lemma CollapsesPair(rest: Bytes)
    ensures Collapsed([CR, LF] + rest) == [LF] + Collapsed(rest)
  {
    assert ([CR, LF] + rest)[2..] == rest;
  }

  lemma CollapsesOther(b: byte, rest: Bytes)
    requires b != CR || rest == [] || rest[0] != LF
    ensures Collapsed([b] + rest) == [b] + Collapsed(rest)
  {
    assert ([b] + rest)[1..] == rest;
  }

  /** Expanding loses nothing, whatever stray carriage returns there are. */
  lemma {:induction false} CollapseUndoesExpand(s: Bytes)
    ensures Collapsed(Expanded(s)) == s
  {
    hide Collapsed;
    if s != [] {
      CollapseUndoesExpand(s[1..]);
      if s[0] == LF {
        CollapsesPair(Expanded(s[1..]));
      } else {
        ExpandedNeverStartsWithLf(s[1..]);
        CollapsesOther(s[0], Expanded(s[1..]));
      }
      assert s == [s[0]] + s[1..];
    } else {
      CollapsesNothing();
    }
  }

  lemma CollapsesNothing()
    ensures Collapsed([]) == []
  {
  }

  lemma ExpandedNeverStartsWithLf(s: Bytes)
    ensures Expanded(s) != [] ==> Expanded(s)[0] != LF
  {
  }

  lemma CrlfTwiceIsOnce(data: Bytes)
    ensures AsCrlf(AsCrlf(data)) == AsCrlf(data)
  {
    CollapseUndoesExpand(Collapsed(data));
  }

  /** The lines are the lines that went in. */
  lemma CrlfKeepsLines(data: Bytes)
    ensures Collapsed(AsCrlf(data)) == Collapsed(data)
  {
    CollapseUndoesExpand(Collapsed(data));
  }

  lemma {:induction false} ExpandedEndings(s: Bytes, i: nat)
    requires i < |Expanded(s)| && Expanded(s)[i] == LF
    ensures i > 0 && Expanded(s)[i - 1] == CR
  {
    var width := if s[0] == LF then 2 else 1;
    if i >= width {
      assert Expanded(s)[i] == Expanded(s[1..])[i - width];
      ExpandedEndings(s[1..], i - width);
      assert Expanded(s)[i - 1] == Expanded(s[1..])[i - 1 - width];
    }
  }

  lemma EveryLfFollowsCr(data: Bytes, i: nat)
    requires i < |AsCrlf(data)| && AsCrlf(data)[i] == LF
    ensures i > 0 && AsCrlf(data)[i - 1] == CR
  {
    ExpandedEndings(Collapsed(data), i);
  }

  // ---- nesting ----

  const MAX_INDEX_DEPTH := 10

  predicate Opens(b: byte) { b == 91 || b == 123 }

  predicate Closes(b: byte) { b == 93 || b == 125 }

  function Weight(b: byte): int { if Opens(b) then 1 else if Closes(b) then -1 else 0 }

  /** How many more brackets a text opens than it closes. */
  function Balance(s: Bytes): int {
    if s == [] then 0 else Balance(s[..|s| - 1]) + Weight(s[|s| - 1])
  }

  /** The scan before the parse accepts exactly the texts no prefix of which opens
      more than ten brackets it does not close. */
  method RefuseDeepNesting(raw: Bytes) returns (accepted: bool)
    ensures accepted <==> forall n :: 0 <= n <= |raw| ==> Balance(raw[..n]) <= MAX_INDEX_DEPTH
  {
    var depth := 0;
    var i := 0;
    while i < |raw|
      invariant 0 <= i <= |raw| && depth == Balance(raw[..i])
      invariant forall n :: 0 <= n <= i ==> Balance(raw[..n]) <= MAX_INDEX_DEPTH
    {
      assert raw[..i + 1][..i] == raw[..i];
      if Opens(raw[i]) {
        depth := depth + 1;
        if depth > MAX_INDEX_DEPTH {
          assert Balance(raw[..i + 1]) > MAX_INDEX_DEPTH;
          return false;
        }
      } else if Closes(raw[i]) {
        depth := depth - 1;
      }
      i := i + 1;
    }
    accepted := true;
  }

  /** The highest balance a prefix reaches. */
  function Peak(s: Bytes): (peak: int)
    ensures peak >= 0 && peak >= Balance(s)
  {
    if s == [] then 0
    else
      var before := Peak(s[..|s| - 1]);
      if Balance(s) > before then Balance(s) else before
  }

  predicate Accepts(raw: Bytes) { Peak(raw) <= MAX_INDEX_DEPTH }

  lemma {:induction false} PeakIsHighest(s: Bytes)
    ensures forall n :: 0 <= n <= |s| ==> Balance(s[..n]) <= Peak(s)
    ensures exists n :: 0 <= n <= |s| && Balance(s[..n]) == Peak(s)
  {
    if s == [] {
      assert Balance(s[..0]) == Peak(s);
    } else {
      var rest := s[..|s| - 1];
      PeakIsHighest(rest);
      assert s[..|s|] == s;
      forall n | 0 <= n <= |s|
        ensures Balance(s[..n]) <= Peak(s)
      {
        if n < |s| { assert s[..n] == rest[..n]; }
      }
      var m :| 0 <= m <= |rest| && Balance(rest[..m]) == Peak(rest);
      assert s[..m] == rest[..m];
      assert Balance(s[..if Balance(s) > Peak(rest) then |s| else m]) == Peak(s);
    }
  }

  lemma AcceptsIff(raw: Bytes)
    ensures Accepts(raw) <==> forall n :: 0 <= n <= |raw| ==> Balance(raw[..n]) <= MAX_INDEX_DEPTH
  {
    PeakIsHighest(raw);
  }

  lemma {:induction false} BalanceAppend(a: Bytes, b: Bytes)
    ensures Balance(a + b) == Balance(a) + Balance(b)
  {
    if b == [] {
      assert a + b == a;
    } else {
      BalanceAppend(a, b[..|b| - 1]);
      assert (a + b)[..|a + b| - 1] == a + b[..|b| - 1];
    }
  }

  lemma {:induction false} PeakAppend(a: Bytes, b: Bytes)
    ensures Peak(a + b) == if Peak(a) < Balance(a) + Peak(b) then Balance(a) + Peak(b) else Peak(a)
  {
    if b == [] {
      assert a + b == a;
    } else {
      PeakAppend(a, b[..|b| - 1]);
      BalanceAppend(a, b);
      assert (a + b)[..|a + b| - 1] == a + b[..|b| - 1];
    }
  }

  /** How a stretch of text moves the scan: by how much it leaves the depth changed,
      and how far above its start it takes it. */
  datatype Reach = Reach(net: int, high: int)

  const FLAT := Reach(0, 0)

  function ReachOf(s: Bytes): Reach { Reach(Balance(s), Peak(s)) }

  /** One stretch after another. */
  function Then(a: Reach, b: Reach): Reach {
    Reach(a.net + b.net, if a.high < a.net + b.high then a.net + b.high else a.high)
  }

  lemma Joins(a: Bytes, b: Bytes)
    ensures ReachOf(a + b) == Then(ReachOf(a), ReachOf(b))
  {
    BalanceAppend(a, b);
    PeakAppend(a, b);
  }

  lemma ReachRises(s: Bytes)
    ensures ReachOf(s).high >= 0 && ReachOf(s).high >= ReachOf(s).net
  {
  }

  lemma OneByte(b: byte)
    ensures ReachOf([b]) == Reach(Weight(b), if Opens(b) then 1 else 0)
  {
    assert Balance([b]) == Weight(b) && Peak([]) == 0;
  }

  /** A stretch between brackets. */
  function Bracketed(r: Reach): Reach { Reach(r.net, 1 + r.high) }

  lemma Brackets(open: byte, inner: Bytes, close: byte)
    requires Opens(open) && Closes(close)
    ensures ReachOf([open] + inner + [close]) == Bracketed(ReachOf(inner))
  {
    hide ReachOf;
    OneByte(open);
    OneByte(close);
    ReachRises(inner);
    Joins([open], inner);
    Joins([open] + inner, [close]);
  }

  predicate NoClosers(s: Bytes) { forall b :: b in s ==> !Closes(b) }

  predicate NoBrackets(s: Bytes) { forall b :: b in s ==> !Closes(b) && !Opens(b) }

  lemma {:induction false} QuietIsFlat(s: Bytes)
    requires NoBrackets(s)
    ensures ReachOf(s) == FLAT
  {
    if s != [] { QuietIsFlat(s[..|s| - 1]); }
  }

  lemma {:induction false} OpenersRise(s: Bytes)
    requires NoClosers(s)
    ensures Balance(s) >= 0
  {
    if s != [] { OpenersRise(s[..|s| - 1]); }
  }

  // ---- JSON text ----

  /** A JSON value as it is written.  `Plain` is a number or a literal, `Text` a string
      as its bytes stand between the quotes. */
  datatype Json = Plain(token: Bytes) | Text(bytes: Bytes) | List(items: Children) | Object(members: Children)

  /** What stands between brackets, with the space around every mark; the names of a
      list's children mean nothing. */
  datatype Children =
    | NoMore(space: Bytes)
    | Child(before: Bytes, name: Bytes, beforeColon: Bytes, afterColon: Bytes, value: Json, after: Bytes, rest: Children)

  function Printed(v: Json): Bytes {
    match v
    case Plain(token) => token
    case Text(bytes) => [34] + bytes + [34]
    case List(items) => [91] + PrintedChildren(items, false) + [93]
    case Object(members) => [123] + PrintedChildren(members, true) + [125]
  }

  function PrintedName(c: Children, named: bool): Bytes
    requires c.Child?
  {
    if named then [34] + c.name + [34] + c.beforeColon + [58] + c.afterColon else []
  }

  function Comma(rest: Children): Bytes { if rest.NoMore? then [] else [44] }

  function PrintedChildren(c: Children, named: bool): Bytes {
    match c
    case NoMore(space) => space
    case Child(before, _, _, _, value, after, rest) =>
      before + PrintedName(c, named) + Printed(value) + (after + Comma(rest)) + PrintedChildren(rest, named)
  }

  predicate Blank(s: Bytes) { forall b :: b in s ==> b == 32 || b == 9 || b == 10 || b == 13 }

  /** Only blanks stand between the marks, and tokens hold no bracket. */
  predicate Spaced(v: Json) {
    match v
    case Plain(token) => NoBrackets(token)
    case Text(_) => true
    case List(items) => AllSpaced(items)
    case Object(members) => AllSpaced(members)
  }

  predicate AllSpaced(c: Children) {
    match c
    case NoMore(space) => Blank(space)
    case Child(before, _, beforeColon, afterColon, value, after, rest) =>
      && Blank(before) && Blank(beforeColon) && Blank(afterColon) && Blank(after)
      && Spaced(value) && AllSpaced(rest)
  }

  /** The reach of a value, from its structure: brackets around a value raise it by one,
      and what its strings and names hold counts as it stands. */
  function Shape(v: Json): Reach {
    match v
    case Plain(_) => FLAT
    case Text(bytes) => ReachOf(bytes)
    case List(items) => Bracketed(ShapeOf(items, false))
    case Object(members) => Bracketed(ShapeOf(members, true))
  }

  function ShapeOf(c: Children, named: bool): Reach {
    match c
    case NoMore(_) => FLAT
    case Child(_, name, _, _, value, _, rest) =>
      Then(if named then ReachOf(name) else FLAT, Then(Shape(value), ShapeOf(rest, named)))
  }

  lemma {:induction false} TextHasShape(v: Json)
    requires Spaced(v)
    ensures ReachOf(Printed(v)) == Shape(v)
  {
    match v {
      case Plain(token) => QuietIsFlat(token);
      case Text(bytes) => Unquoted(bytes);
      case List(items) =>
        ChildrenHaveShape(items, false);
        Brackets(91, PrintedChildren(items, false), 93);
      case Object(members) =>
        ChildrenHaveShape(members, true);
        Brackets(123, PrintedChildren(members, true), 125);
    }
  }

  lemma {:induction false} ChildrenHaveShape(c: Children, named: bool)
    requires AllSpaced(c)
    ensures ReachOf(PrintedChildren(c, named)) == ShapeOf(c, named)
  {
    hide ReachOf, Printed, PrintedName, Comma, Then, NoBrackets;
    match c {
      case NoMore(space) => BlankIsFlat(space);
      case Child(before, name, _, _, value, after, rest) =>
        TextHasShape(value);
        ChildrenHaveShape(rest, named);
        NameHasShape(c, named);
        BlankIsFlat(before);
        CommaIsFlat(after, rest);
        Around(before, PrintedName(c, named), Printed(value), after + Comma(rest), PrintedChildren(rest, named));
    }
  }

  lemma BlankIsFlat(s: Bytes)
    requires Blank(s)
    ensures ReachOf(s) == FLAT
  {
    QuietIsFlat(s);
  }

  lemma CommaIsFlat(after: Bytes, rest: Children)
    requires Blank(after)
    ensures ReachOf(after + Comma(rest)) == FLAT
  {
    QuietIsFlat(after + Comma(rest));
  }

  /** Flat stretches between others do not show. */
  lemma Around(before: Bytes, name: Bytes, value: Bytes, after: Bytes, rest: Bytes)
    requires ReachOf(before) == ReachOf(after) == FLAT
    ensures ReachOf(before + name + value + after + rest) == Then(ReachOf(name), Then(ReachOf(value), ReachOf(rest)))
  {
    hide ReachOf;
    ReachRises(name);
    ReachRises(value);
    ReachRises(rest);
    Joins(before, name);
    Joins(before + name, value);
    Joins(before + name + value, after);
    Joins(before + name + value + after, rest);
  }

  lemma Unquoted(bytes: Bytes)
    ensures ReachOf([34] + bytes + [34]) == ReachOf(bytes)
  {
    hide ReachOf;
    OneByte(34);
    ReachRises(bytes);
    Joins([34], bytes);
    Joins([34] + bytes, [34]);
  }

  lemma NameHasShape(c: Children, named: bool)
    requires c.Child? && AllSpaced(c)
    ensures ReachOf(PrintedName(c, named)) == if named then ReachOf(c.name) else FLAT
  {
    hide ReachOf;
    if named {
      var tail := [34] + c.beforeColon + [58] + c.afterColon;
      OneByte(34);
      QuietIsFlat(tail);
      ReachRises(c.name);
      Joins([34], c.name);
      Joins([34] + c.name, tail);
      assert PrintedName(c, named) == [34] + c.name + tail;
    } else {
      QuietIsFlat([]);
    }
  }

  lemma {:induction false} ShapeRises(v: Json)
    ensures Shape(v).high >= 0 && Shape(v).high >= Shape(v).net
  {
    match v {
      case Plain(_) =>
      case Text(bytes) => ReachRises(bytes);
      case List(items) => ShapesRise(items, false);
      case Object(members) => ShapesRise(members, true);
    }
  }

  lemma {:induction false} ShapesRise(c: Children, named: bool)
    ensures ShapeOf(c, named).high >= 0 && ShapeOf(c, named).high >= ShapeOf(c, named).net
  {
    if c.Child? {
      ShapeRises(c.value);
      ShapesRise(c.rest, named);
      ReachRises(c.name);
    }
  }

  /** Whatever its strings hold and however it is spaced, a text is accepted exactly
      when its structure rises no higher than ten. */
  lemma ScanMeasuresShape(lead: Bytes, v: Json, trail: Bytes)
    requires Blank(lead) && Spaced(v) && Blank(trail)
    ensures Accepts(lead + Printed(v) + trail) <==> Shape(v).high <= MAX_INDEX_DEPTH
  {
    hide Balance, Peak, Printed, Shape;
    TextHasShape(v);
    BlankIsFlat(lead);
    BlankIsFlat(trail);
    ReachRises(Printed(v));
    Joins(lead, Printed(v));
    Joins(lead + Printed(v), trail);
  }

  // ---- what the scan says of the nesting ----

  function Depth(v: Json): nat {
    match v
    case Plain(_) => 0
    case Text(_) => 0
    case List(items) => 1 + Deepest(items)
    case Object(members) => 1 + Deepest(members)
  }

  function Deepest(c: Children): nat {
    match c
    case NoMore(_) => 0
    case Child(_, _, _, _, value, _, rest) => if Depth(value) < Deepest(rest) then Deepest(rest) else Depth(value)
  }

  /** Every string and name of a value keeps a rule. */
  ghost predicate Throughout(v: Json, rule: Bytes -> bool) {
    match v
    case Plain(_) => true
    case Text(bytes) => rule(bytes)
    case List(items) => AllThroughout(items, false, rule)
    case Object(members) => AllThroughout(members, true, rule)
  }

  ghost predicate AllThroughout(c: Children, named: bool, rule: Bytes -> bool) {
    c.Child? ==> (named ==> rule(c.name)) && Throughout(c.value, rule) && AllThroughout(c.rest, named, rule)
  }

  lemma {:induction false} DepthShows(v: Json)
    requires Throughout(v, NoClosers)
    ensures Shape(v).net >= 0 && Shape(v).high >= Depth(v)
  {
    match v {
      case Plain(_) =>
      case Text(bytes) => OpenersRise(bytes);
      case List(items) => DeepestShows(items, false);
      case Object(members) => DeepestShows(members, true);
    }
  }

  lemma {:induction false} DeepestShows(c: Children, named: bool)
    requires AllThroughout(c, named, NoClosers)
    ensures ShapeOf(c, named).net >= 0 && ShapeOf(c, named).high >= Deepest(c)
  {
    if c.Child? {
      DepthShows(c.value);
      DeepestShows(c.rest, named);
      if named { OpenersRise(c.name); }
    }
  }

  /** While no string holds a closing bracket, an index that is accepted nests at most
      ten deep. */
  lemma AcceptedIsShallow(lead: Bytes, v: Json, trail: Bytes)
    requires Blank(lead) && Spaced(v) && Blank(trail) && Throughout(v, NoClosers)
    requires Accepts(lead + Printed(v) + trail)
    ensures Depth(v) <= MAX_INDEX_DEPTH
  {
    ScanMeasuresShape(lead, v, trail);
    DepthShows(v);
  }

  lemma {:induction false} CleanShape(v: Json)
    requires Throughout(v, NoBrackets)
    ensures Shape(v) == Reach(0, Depth(v))
  {
    match v {
      case Plain(_) =>
      case Text(bytes) => QuietIsFlat(bytes);
      case List(items) => CleanShapes(items, false);
      case Object(members) => CleanShapes(members, true);
    }
  }

  lemma {:induction false} CleanShapes(c: Children, named: bool)
    requires AllThroughout(c, named, NoBrackets)
    ensures ShapeOf(c, named) == Reach(0, Deepest(c))
  {
    if c.Child? {
      CleanShape(c.value);
      CleanShapes(c.rest, named);
      if named { QuietIsFlat(c.name); }
    }
  }

  /** With no bracket in any string the scan measures the nesting itself. */
  lemma CleanAcceptedIff(lead: Bytes, v: Json, trail: Bytes)
    requires Blank(lead) && Spaced(v) && Blank(trail) && Throughout(v, NoBrackets)
    ensures Accepts(lead + Printed(v) + trail) <==> Depth(v) <= MAX_INDEX_DEPTH
  {
    ScanMeasuresShape(lead, v, trail);
    CleanShape(v);
  }

  /** Values in a row, with no space at all. */
  function Row(v: Json, rest: Children): Children { Child([], [], [], [], v, [], rest) }

  const END := NoMore([])

  function Nested(n: nat): Json { if n == 0 then Plain([48]) else List(Row(Nested(n - 1), END)) }

  lemma RowIs(v: Json, rest: Children)
    requires Spaced(v) && AllSpaced(rest)
    ensures AllSpaced(Row(v, rest)) && ShapeOf(Row(v, rest), false) == Then(Shape(v), ShapeOf(rest, false))
    ensures Deepest(Row(v, rest)) == if Depth(v) < Deepest(rest) then Deepest(rest) else Depth(v)
  {
    hide Shape, Spaced, Depth;
    ShapeRises(v);
    ShapesRise(rest, false);
  }

  lemma EndIs()
    ensures AllSpaced(END) && ShapeOf(END, false) == FLAT && Deepest(END) == 0
  {
  }

  lemma ListIs(items: Children)
    requires AllSpaced(items)
    ensures Spaced(List(items)) && Shape(List(items)) == Bracketed(ShapeOf(items, false)) && Depth(List(items)) == 1 + Deepest(items)
  {
    hide ShapeOf, Deepest, AllSpaced;
  }

  lemma {:induction false} NestedIs(n: nat)
    ensures Depth(Nested(n)) == n && Shape(Nested(n)) == Reach(0, n) && Spaced(Nested(n))
  {
    if n > 0 {
      hide Shape, ShapeOf, Depth, Deepest, Spaced, AllSpaced, Row;
      NestedIs(n - 1);
      EndIs();
      RowIs(Nested(n - 1), END);
      ListIs(Row(Nested(n - 1), END));
    }
  }

  function Closers(n: nat): Bytes { if n == 0 then [] else Closers(n - 1) + [93] }

  lemma {:induction false} ClosersFall(n: nat)
    ensures ReachOf(Closers(n)) == Reach(0 - n, 0)
  {
    if n > 0 {
      ClosersFall(n - 1);
      assert Closers(n)[..|Closers(n)| - 1] == Closers(n - 1);
    }
  }

  /** A string may hold closing brackets, though, and then any depth is accepted: the
      closers in a string pay for nesting that comes after it. */
  lemma ClosersHideDepth(depth: nat)
    requires depth >= 1
    ensures var v := List(Row(Text(Closers(depth)), Row(Nested(depth - 1), END)));
            Depth(v) == depth && Spaced(v) && Accepts(Printed(v))
  {
    hide Closers, Accepts, Shape, ShapeOf, Depth, Deepest, Spaced, AllSpaced, Row, Printed;
    var text, deep := Text(Closers(depth)), Row(Nested(depth - 1), END);
    NestedIs(depth - 1);
    EndIs();
    RowIs(Nested(depth - 1), END);
    TextIs(depth);
    RowIs(text, deep);
    var v := List(Row(text, deep));
    ListIs(Row(text, deep));
    ScanMeasuresShape([], v, []);
    assert [] + Printed(v) + [] == Printed(v);
  }

  lemma TextIs(n: nat)
    ensures var text := Text(Closers(n)); Spaced(text) && Shape(text) == Reach(0 - n, 0) && Depth(text) == 0
  {
    ClosersFall(n);
  }
}
