/** What the reader makes of a stream of JSON objects. */
module NetStreams {
  import opened JsonFrame
  import opened NetReader

  /** An object, and the bytes before it that start none. */
  datatype Item = Item(gap: string, json: Json)

  predicate Legal(x: Item) {
    && '{' !in x.gap && x.json.Group? && x.json.curly && WellFormed(x.json) && Nesting(x.json) <= 128
  }

  predicate AllLegal(items: seq<Item>) { forall i :: 0 <= i < |items| ==> Legal(items[i]) }

  function Stream(items: seq<Item>, tail: string): string {
    if items == [] then tail else items[0].gap + (Render(items[0].json) + Stream(items[1..], tail))
  }

  function Renderings(items: seq<Item>): seq<string> {
    seq(|items|, i requires 0 <= i < |items| => Render(items[i].json))
  }

  /** Every object with the bytes before it fits a buffer of `cap` bytes, and so does what follows the last. */
  predicate AllFit(cap: nat, items: seq<Item>, tail: string) {
    && (forall i :: 0 <= i < |items| ==> |items[i].gap| + |Render(items[i].json)| <= cap)
    && |tail| < cap
  }

  lemma {:induction false} IndexBehind(gap: string, rest: string)
    requires '{' !in gap && rest != "" && rest[0] == '{'
    ensures IndexOf(gap + rest, '{') == |gap|
    decreases |gap|
  {
    if gap == "" {
      assert gap + rest == rest;
    } else {
      assert (gap + rest)[1..] == gap[1..] + rest;
      IndexBehind(gap[1..], rest);
    }
  }

  lemma {:induction false} IndexOfNone(tail: string)
    requires '{' !in tail
    ensures IndexOf(tail, '{') == |tail|
    decreases |tail|
  {
    if tail != "" { IndexOfNone(tail[1..]); }
  }

  /** The first object of the stream is seen as it was written. */
  lemma FirstIsSeen(x: Item, rest: string)
    requires Legal(x)
    ensures var s := x.gap + (Render(x.json) + rest);
            && Look(s) == Ready(|x.gap|, |Render(x.json)|)
            && Object(s) == Render(x.json) && s[|x.gap| + |Render(x.json)|..] == rest
  {
    var text := Render(x.json) + rest;
    IndexBehind(x.gap, text);
    var s := x.gap + text;
    assert s[|x.gap|..] == text;
    FrameFindsObject(x.json, rest);
    hide Render, Frame, IndexOf;
    assert s[|x.gap|..|x.gap| + |Render(x.json)|] == Render(x.json);
  }

  lemma NoneIsSeen(tail: string)
    requires '{' !in tail
    ensures Look(tail) == Wait
  {
    IndexOfNone(tail);
  }

  /** The objects are popped exactly as they were written, in order, and what follows the last is kept. */
  lemma {:induction false} AllAreSeen(items: seq<Item>, tail: string)
    requires AllLegal(items) && '{' !in tail
    ensures All(Stream(items, tail)) == Outcome(Renderings(items), tail, false)
    decreases |items|
  {
    hide Look, Object, Render, Legal;
    if items == [] {
      NoneIsSeen(tail);
    } else {
      AllAreSeen(items[1..], tail);
      assert Legal(items[0]);
      FirstIsSeen(items[0], Stream(items[1..], tail));
      assert Renderings(items) == [Render(items[0].json)] + Renderings(items[1..]);
    }
  }

  lemma {:induction false} FitsExactly(cap: nat, items: seq<Item>, tail: string)
    requires AllLegal(items) && '{' !in tail
    ensures Fits(cap, Stream(items, tail)) <==> AllFit(cap, items, tail)
    decreases |items|
  {
    hide Look, Object, Render, Legal, AllFit;
    if items == [] {
      NoneIsSeen(tail);
      FitOfNone(cap, tail);
    } else {
      FitsExactly(cap, items[1..], tail);
      assert Legal(items[0]);
      FirstIsSeen(items[0], Stream(items[1..], tail));
      FitOfMore(cap, items, tail);
    }
  }

  lemma FitOfNone(cap: nat, tail: string)
    ensures AllFit(cap, [], tail) <==> |tail| < cap
  {
  }

  lemma FitOfMore(cap: nat, items: seq<Item>, tail: string)
    requires items != []
    ensures AllFit(cap, items, tail) <==>
              |items[0].gap| + |Render(items[0].json)| <= cap && AllFit(cap, items[1..], tail)
  {
    hide Render;
    assert forall i :: 1 <= i < |items| ==> items[i] == items[1..][i - 1];
  }

  /** A stream of objects nested at most 128 deep: the reader pops exactly the objects as they were written, in
      order, keeps what follows the last, and does not give up, if and only if each object with the bytes before it
      and the rest fit its buffer. */
  lemma ObjectsArePopped(cap: nat, items: seq<Item>, tail: string)
    requires cap > 0 && AllLegal(items) && '{' !in tail
    ensures Ideal(cap, Stream(items, tail)) == Outcome(Renderings(items), tail, false) <==> AllFit(cap, items, tail)
  {
    AllAreSeen(items, tail);
    FitsExactly(cap, items, tail);
    hide Ideal, All, Fits, AllFit, Stream;
    BufferSuffices(cap, Stream(items, tail));
  }
}
