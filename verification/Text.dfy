/** Text cut at a mark and glued back, as `split` and `join` on one character do:
    cutting is undone by gluing whatever the text holds, and gluing is undone by
    cutting when no part holds the mark.  Paths, section names and lines are all
    read this way. */
module Text {

  /** The pieces of a text between its marks; always one piece more than marks. */
  function Cut(text: string, mark: char): (parts: seq<string>)
    ensures |parts| >= 1
    ensures forall part :: part in parts ==> mark !in part
  {
    if mark !in text then [text]
    else
      var i := FirstMark(text, mark);
      [text[..i]] + Cut(text[i + 1..], mark)
  }

  function FirstMark(text: string, mark: char): (i: nat)
    requires mark in text
    ensures i < |text| && text[i] == mark && mark !in text[..i]
  {
    if text[0] == mark then 0 else
      var i := 1 + FirstMark(text[1..], mark);
      assert text[..i] == [text[0]] + text[1..][..i - 1];
      i
  }

  function Glue(parts: seq<string>, mark: char): string
    requires |parts| >= 1
  {
    if |parts| == 1 then parts[0] else parts[0] + [mark] + Glue(parts[1..], mark)
  }

  lemma {:induction false} GlueUndoesCut(text: string, mark: char)
    ensures Glue(Cut(text, mark), mark) == text
    ensures forall c :: c != mark ==> (c in text <==> exists part :: part in Cut(text, mark) && c in part)
  {
    if mark in text {
      var i := FirstMark(text, mark);
      var rest := Cut(text[i + 1..], mark);
      GlueUndoesCut(text[i + 1..], mark);
      assert Cut(text, mark)[0] == text[..i] && Cut(text, mark)[1..] == rest;
      assert text == text[..i] + [mark] + text[i + 1..];
      forall c | c != mark
        ensures c in text <==> exists part :: part in Cut(text, mark) && c in part
      {
        if part :| part in rest && c in part { assert part in Cut(text, mark); }
        if c in text[..i] { assert text[..i] in Cut(text, mark); }
        if part :| part in Cut(text, mark) && c in part { assert part == text[..i] || part in rest; }
      }
    } else {
      assert Cut(text, mark) == [text];
      assert text in Cut(text, mark);
    }
  }

  lemma FirstMarkAt(head: string, mark: char, rest: string)
    requires mark !in head
    ensures FirstMark(head + [mark] + rest, mark) == |head|
  {
    var text := head + [mark] + rest;
    assert text[|head|] == mark;
    assert forall k :: 0 <= k < |head| ==> text[k] == head[k];
    assert forall k :: 0 <= k < FirstMark(text, mark) ==> text[k] == text[..FirstMark(text, mark)][k];
  }

  lemma CutStep(head: string, mark: char, rest: string)
    requires mark !in head
    ensures Cut(head + [mark] + rest, mark) == [head] + Cut(rest, mark)
  {
    var text := head + [mark] + rest;
    FirstMarkAt(head, mark, rest);
    assert text[|head|] == mark;
    assert text[..|head|] == head && text[|head| + 1..] == rest;
  }

  lemma {:induction false} CutUndoesGlue(parts: seq<string>, mark: char)
    requires |parts| >= 1 && forall part :: part in parts ==> mark !in part
    ensures Cut(Glue(parts, mark), mark) == parts
  {
    assert parts[0] in parts;
    if |parts| > 1 {
      CutStep(parts[0], mark, Glue(parts[1..], mark));
      CutUndoesGlue(parts[1..], mark);
    }
  }

  lemma {:induction false} CutAppend(a: string, mark: char, b: string)
    ensures Cut(a + [mark] + b, mark) == Cut(a, mark) + Cut(b, mark)
  {
    hide Cut;
    if mark in a {
      var i := FirstMark(a, mark);
      var head, rest := a[..i], a[i + 1..];
      assert a == head + [mark] + rest;
      assert a + [mark] + b == head + [mark] + (rest + [mark] + b);
      CutStep(head, mark, rest);
      CutStep(head, mark, rest + [mark] + b);
      CutAppend(rest, mark, b);
    } else {
      CutStep(a, mark, b);
      Uncut(a, mark);
    }
  }

  lemma Uncut(a: string, mark: char)
    requires mark !in a
    ensures Cut(a, mark) == [a]
  {
  }
}
