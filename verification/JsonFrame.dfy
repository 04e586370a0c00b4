/** Finding the end of a JSON object in a byte stream. */
module JsonFrame {
  const MAX_DEPTH: nat := 128

  datatype Scan = Scan(stack: string, quoted: bool, escaped: bool)

  datatype Step = More(scan: Scan) | Bad | Closed

  /** What the scanner says after some text: it wants more, or it has stopped after `length` bytes. */
  datatype Verdict = Incomplete(scan: Scan) | Invalid(at: nat) | Complete(length: nat)

  function Open(close: char): char { if close == '}' then '{' else '[' }

  function Advance(s: Scan, c: char): Step {
    if s.quoted then
      More(if s.escaped then s.(escaped := false)
           else if c == '\\' then s.(escaped := true)
           else if c == '"' then s.(quoted := false)
           else s)
    else if c == '"' then More(s.(quoted := true))
    else if c == '{' || c == '[' then
      if |s.stack| == MAX_DEPTH then Bad else More(s.(stack := s.stack + [c]))
    else if c == '}' || c == ']' then
      if s.stack == "" || s.stack[|s.stack| - 1] != Open(c) then Bad
      else if |s.stack| == 1 then Closed
      else More(s.(stack := s.stack[..|s.stack| - 1]))
    else More(s)
  }

  function Later(v: Verdict, n: nat): Verdict {
    match v
    case Incomplete(s) => v
    case Invalid(at) => Invalid(at + n)
    case Complete(length) => Complete(length + n)
  }

  function Feed(s: Scan, text: string): Verdict
    decreases |text|
  {
    if text == "" then Incomplete(s)
    else
      match Advance(s, text[0])
      case Bad => Invalid(0)
      case Closed => Complete(1)
      case More(s') => Later(Feed(s', text[1..]), 1)
  }

  const FRESH: Scan := Scan("", false, false)

  function Frame(text: string): Verdict {
    if text == "" || text[0] != '{' then Invalid(0) else Feed(FRESH, text)
  }

  /** Text in two parts is scanned as one. */
  lemma {:induction false} FeedConcat(s: Scan, a: string, b: string)
    ensures Feed(s, a + b) ==
              match Feed(s, a)
              case Incomplete(s') => Later(Feed(s', b), |a|)
              case v => v
    decreases |a|
  {
    if a == "" {
      assert a + b == b;
    } else {
      assert (a + b)[1..] == a[1..] + b;
      match Advance(s, a[0])
      case More(s') => FeedConcat(s', a[1..], b);
      case _ =>
    }
  }

  lemma {:induction false} FeedLength(s: Scan, text: string)
    ensures var v := Feed(s, text);
            && (v.Complete? ==> 0 < v.length <= |text|)
            && (v.Invalid? ==> v.at < |text|)
    decreases |text|
  {
    if text != "" {
      match Advance(s, text[0])
      case More(s') => FeedLength(s', text[1..]);
      case _ =>
    }
  }

  /** A verdict on a prefix is either to wait or final: more bytes never change it. */
  lemma VerdictIsFinal(a: string, b: string)
    requires a != ""
    ensures !Frame(a).Incomplete? ==> Frame(a + b) == Frame(a)
  {
    FeedConcat(FRESH, a, b);
  }

  /** A complete object is seen as soon as its last byte is there, and no sooner. */
  lemma CompleteAtLastByte(text: string, m: nat)
    requires Frame(text).Complete? && 0 < m <= |text|
    ensures m < Frame(text).length ==> Frame(text[..m]).Incomplete?
    ensures m >= Frame(text).length ==> Frame(text[..m]) == Frame(text)
  {
    assert text[..m] + text[m..] == text;
    FeedConcat(FRESH, text[..m], text[m..]);
    FeedLength(FRESH, text[..m]);
    match Feed(FRESH, text[..m])
    case Incomplete(s) => FeedLength(s, text[m..]);
    case _ =>
  }

  // ------------------------------------------------------------------------------------------
  // The scanning loop

  lemma FeedStep(s: Scan, text: string, i: nat)
    requires i < |text|
    ensures Feed(s, text[i..]) ==
              match Advance(s, text[i])
              case Bad => Invalid(0)
              case Closed => Complete(1)
              case More(s') => Later(Feed(s', text[i + 1..]), 1)
  {
    assert text[i..][0] == text[i] && text[i..][1..] == text[i + 1..];
  }

  /** One byte, on the bracket stack and the two flags. */
  method AdvanceInPlace(stack: array<char>, depth: nat, quoted: bool, escaped: bool, c: char)
    returns (step: int, depth': nat, quoted': bool, escaped': bool)
    requires stack.Length == MAX_DEPTH && depth <= MAX_DEPTH
    modifies stack
    ensures depth' <= MAX_DEPTH
    ensures match Advance(old(Scan(stack[..depth], quoted, escaped)), c)
            case Bad => step == -1
            case Closed => step == 1
            case More(s) => step == 0 && s == Scan(stack[..depth'], quoted', escaped')
  {
    step, depth', quoted', escaped' := 0, depth, quoted, escaped;
    if quoted {
      if escaped { escaped' := false; } else if c == '\\' { escaped' := true; } else if c == '"' { quoted' := false; }
    } else if c == '"' {
      quoted' := true;
    } else if c == '{' || c == '[' {
      if depth == MAX_DEPTH { return -1, depth, quoted, escaped; }
      stack[depth] := c;
      depth' := depth + 1;
    } else if c == '}' || c == ']' {
      if depth == 0 || stack[depth - 1] != Open(c) { return -1, depth, quoted, escaped; }
      depth' := depth - 1;
      if depth' == 0 { step := 1; }
      assert stack[..depth'] == stack[..depth][..depth - 1];
    }
  }

  /** `cp_json_object_length`: 1 with the length, 0 for more, -1 for text that is no object. */
  method CpJsonObjectLength(data: string) returns (rc: int, objectLen: nat)
    ensures rc == match Frame(data) { case Incomplete(_) => 0 case Invalid(_) => -1 case Complete(_) => 1 }
    ensures rc == 1 ==> objectLen == Frame(data).length
  {
    if |data| == 0 || data[0] != '{' { return -1, 0; }
    var stack := new char[MAX_DEPTH](_ => ' ');
    var depth: nat, quoted, escaped, step := 0, false, false, 0;
    assert data[0..] == data;
    for i := 0 to |data|
      invariant depth <= MAX_DEPTH
      invariant Frame(data) == Later(Feed(Scan(stack[..depth], quoted, escaped), data[i..]), i)
    {
      FeedStep(Scan(stack[..depth], quoted, escaped), data, i);
      step, depth, quoted, escaped := AdvanceInPlace(stack, depth, quoted, escaped, data[i]);
      if step < 0 { return -1, 0; }
      if step > 0 { return 1, i + 1; }
    }
    return 0, 0;
  }

  // ------------------------------------------------------------------------------------------
  // What the scanner recognises

  /** Any JSON text, seen as the scanner sees it: stretches without quotes and brackets, quoted
      strings, and groups in brackets of either kind. */
  datatype Json = Plain(text: string) | Quoted(text: string) | Group(curly: bool, items: seq<Json>)

  predicate PlainText(text: string) {
    forall i :: 0 <= i < |text| ==> text[i] !in {'"', '{', '}', '[', ']'}
  }

  /** The inside of a quoted string: quotes and backslashes only behind a backslash. */
  predicate QuotedText(text: string) {
    text == ""
    || (if text[0] == '\\' then |text| > 1 && QuotedText(text[2..]) else text[0] != '"' && QuotedText(text[1..]))
  }

  predicate WellFormed(j: Json) {
    match j
    case Plain(text) => PlainText(text)
    case Quoted(text) => QuotedText(text)
    case Group(_, items) => forall i :: 0 <= i < |items| ==> WellFormed(items[i])
  }

  function Max(a: nat, b: nat): nat { if a >= b then a else b }

  function Nesting(j: Json): nat {
    if j.Group? then 1 + NestingOf(j.items) else 0
  }

  function NestingOf(items: seq<Json>): nat {
    if items == [] then 0 else Max(Nesting(items[0]), NestingOf(items[1..]))
  }

  function Render(j: Json): string {
    match j
    case Plain(text) => text
    case Quoted(text) => "\"" + text + "\""
    case Group(curly, items) => [if curly then '{' else '['] + RenderAll(items) + [if curly then '}' else ']']
  }

  function RenderAll(items: seq<Json>): string {
    if items == [] then "" else Render(items[0]) + RenderAll(items[1..])
  }

  lemma {:induction false} FeedPlain(stack: string, text: string)
    requires PlainText(text)
    ensures Feed(Scan(stack, false, false), text) == Incomplete(Scan(stack, false, false))
    decreases |text|
  {
    if text != "" { FeedPlain(stack, text[1..]); }
  }

  lemma {:induction false} FeedQuoted(stack: string, text: string)
    requires QuotedText(text)
    ensures Feed(Scan(stack, true, false), text) == Incomplete(Scan(stack, true, false))
    decreases |text|
  {
    if text != "" {
      if text[0] == '\\' {
        var mid := Scan(stack, true, true);
        assert Advance(Scan(stack, true, false), text[0]) == More(mid);
        assert text[1..][1..] == text[2..];
        assert Feed(mid, text[1..]) == Later(Feed(Scan(stack, true, false), text[2..]), 1);
        FeedQuoted(stack, text[2..]);
      } else {
        FeedQuoted(stack, text[1..]);
      }
    }
  }

  lemma FeedFront(s: Scan, c: char, rest: string)
    ensures Feed(s, [c] + rest) ==
              match Advance(s, c)
              case Bad => Invalid(0)
              case Closed => Complete(1)
              case More(s') => Later(Feed(s', rest), 1)
  {
    assert ([c] + rest)[1..] == rest;
  }

  /** After the item the scanner is where it was, as long as the nesting fits the stack. */
  lemma {:induction false} FeedItem(stack: string, j: Json, rest: string)
    requires WellFormed(j) && 0 < |stack| && |stack| + Nesting(j) <= MAX_DEPTH
    ensures Feed(Scan(stack, false, false), Render(j) + rest) ==
      Later(Feed(Scan(stack, false, false), rest), |Render(j)|)
    decreases j, 1
  {
    var s := Scan(stack, false, false);
    match j
    case Plain(text) =>
      FeedPlain(stack, text);
      FeedConcat(s, text, rest);
    case Quoted(text) =>
      var q := Scan(stack, true, false);
      var quote := "\"";
      FeedQuoted(stack, text);
      FeedConcat(q, text, quote + rest);
      assert Feed(q, quote + rest) == Later(Feed(s, rest), 1) by { assert (quote + rest)[1..] == rest; }
      assert Render(j) + rest == quote + (text + (quote + rest));
      assert (quote + (text + (quote + rest)))[1..] == text + (quote + rest);
    case Group(curly, items) =>
      FeedGroup(stack, j, rest);
  }

  lemma {:induction false} FeedGroup(stack: string, j: Json, rest: string)
    requires j.Group? && WellFormed(j) && |stack| + Nesting(j) <= MAX_DEPTH
    ensures Feed(Scan(stack, false, false), Render(j) + rest)
            == if stack == "" then Complete(|Render(j)|)
               else Later(Feed(Scan(stack, false, false), rest), |Render(j)|)
    decreases j, 0
  {
    var (open, close) := if j.curly then ('{', '}') else ('[', ']');
    var (s, inner) := (Scan(stack, false, false), Scan(stack + [open], false, false));
    var (all, tail) := (RenderAll(j.items), [close] + rest);
    FeedItems(stack + [open], j, j.items, tail);
    Brackets(stack, open, close);
    hide Advance;
    RenderGroup(j, open, close, rest);
    FeedFront(s, open, all + tail);
    FeedFront(inner, close, rest);
    var (outside, inside, ending) := (Feed(s, [open] + (all + tail)), Feed(inner, all + tail), Feed(inner, tail));
    assert outside == Later(inside, 1) && inside == Later(ending, |all|);
    assert ending == if stack == "" then Complete(1) else Later(Feed(s, rest), 1);
    hide Render, RenderAll, Feed;
  }

  lemma Brackets(stack: string, open: char, close: char)
    requires (open, close) in {('{', '}'), ('[', ']')} && |stack| < MAX_DEPTH
    ensures var (s, inner) := (Scan(stack, false, false), Scan(stack + [open], false, false));
            && Advance(s, open) == More(inner)
            && Advance(inner, close) == if stack == "" then Closed else More(s)
  {
    assert (stack + [open])[..|stack|] == stack;
  }

  lemma RenderGroup(j: Json, open: char, close: char, rest: string)
    requires j.Group? && (open, close) == if j.curly then ('{', '}') else ('[', ']')
    ensures Render(j) + rest == [open] + (RenderAll(j.items) + ([close] + rest))
    ensures |Render(j)| == |RenderAll(j.items)| + 2
  {
    hide RenderAll;
  }

  lemma {:induction false} FeedItems(stack: string, j: Json, items: seq<Json>, rest: string)
    requires stack != "" && j.Group? && (forall i :: 0 <= i < |items| ==> items[i] in j.items && WellFormed(items[i]))
    requires |stack| + NestingOf(items) <= MAX_DEPTH
    ensures Feed(Scan(stack, false, false), RenderAll(items) + rest)
            == Later(Feed(Scan(stack, false, false), rest), |RenderAll(items)|)
    decreases j, 0, |items|
  {
    if items == [] {
      assert RenderAll(items) + rest == rest;
    } else {
      assert items[0] in j.items;
      FeedItem(stack, items[0], RenderAll(items[1..]) + rest);
      FeedItems(stack, j, items[1..], rest);
      assert RenderAll(items) + rest == Render(items[0]) + (RenderAll(items[1..]) + rest);
    }
  }

  /** A bracket too many stops the scan, wherever it is. */
  lemma {:induction false} FeedDeep(stack: string, j: Json, rest: string)
    requires WellFormed(j) && |stack| <= MAX_DEPTH < |stack| + Nesting(j)
    ensures Feed(Scan(stack, false, false), Render(j) + rest).Invalid?
    decreases j, 1
  {
    var (open, close) := if j.curly then ('{', '}') else ('[', ']');
    var all := RenderAll(j.items);
    assert Render(j) + rest == [open] + (all + ([close] + rest));
    if |stack| < MAX_DEPTH {
      FeedItemsDeep(stack + [open], j, j.items, [close] + rest);
      assert ([open] + (all + ([close] + rest)))[1..] == all + ([close] + rest);
    }
  }

  lemma {:induction false} FeedItemsDeep(stack: string, j: Json, items: seq<Json>, rest: string)
    requires stack != "" && j.Group? && (forall i :: 0 <= i < |items| ==> items[i] in j.items && WellFormed(items[i]))
    requires |stack| <= MAX_DEPTH < |stack| + NestingOf(items)
    ensures Feed(Scan(stack, false, false), RenderAll(items) + rest).Invalid?
    decreases j, 0, |items|
  {
    assert items[0] in j.items;
    var more := RenderAll(items[1..]) + rest;
    assert RenderAll(items) + rest == Render(items[0]) + more;
    if |stack| + Nesting(items[0]) > MAX_DEPTH {
      FeedDeep(stack, items[0], more);
    } else {
      FeedItem(stack, items[0], more);
      FeedItemsDeep(stack, j, items[1..], rest);
    }
  }

  /** The scanner finds exactly the end of every object nested at most MAX_DEPTH deep, whatever
      follows, and refuses every deeper one. */
  lemma FrameFindsObject(j: Json, rest: string)
    requires j.Group? && j.curly && WellFormed(j)
    ensures Nesting(j) <= 128 ==> Frame(Render(j) + rest) == Complete(|Render(j)|)
    ensures Nesting(j) > 128 ==> Frame(Render(j) + rest).Invalid?
  {
    if Nesting(j) <= MAX_DEPTH { FeedGroup("", j, rest); } else { FeedDeep("", j, rest); }
  }
}
