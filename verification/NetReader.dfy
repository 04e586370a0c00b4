/** The pool connection's reader: bytes arrive in arbitrary pieces, objects are popped whole. */
module NetReader {
  import opened Arith
  import opened JsonFrame

  function IndexOf(text: string, c: char): nat
    ensures IndexOf(text, c) <= |text|
    ensures IndexOf(text, c) < |text| ==> text[IndexOf(text, c)] == c
  {
    if text == "" || text[0] == c then 0 else 1 + IndexOf(text[1..], c)
  }

  /** What the buffered bytes hold: no object yet, an object behind `skip` other bytes, or text that
      can never become one. */
  datatype Message = Wait | Ready(skip: nat, length: nat) | Broken

  function Look(buf: string): (m: Message)
    ensures m.Ready? ==> 0 < m.length && m.skip + m.length <= |buf|
  {
    var start := IndexOf(buf, '{');
    if start == |buf| then Wait
    else
      FeedLength(FRESH, buf[start..]);
      match Frame(buf[start..])
      case Incomplete(_) => Wait
      case Invalid(_) => Broken
      case Complete(length) => Ready(start, length)
  }

  function Object(buf: string): string
    requires Look(buf).Ready?
  {
    buf[Look(buf).skip..Look(buf).skip + Look(buf).length]
  }

  function Rest(buf: string): string
    requires Look(buf).Ready?
  {
    buf[Look(buf).skip + Look(buf).length..]
  }

  /** The reader's outcome: the objects popped, the bytes kept, and whether the connection was
      given up. */
  datatype Outcome = Outcome(popped: seq<string>, kept: string, lost: bool)

  function Prepend(m: string, o: Outcome): Outcome { o.(popped := [m] + o.popped) }

  function Window(cap: nat, stream: string): string { if |stream| <= cap then stream else stream[..cap] }

  /** All that a buffer of `cap` bytes makes of the stream: each object must end within `cap` bytes of the
      end of the one before, and so must the first byte that makes it invalid. */
  function Ideal(cap: nat, stream: string): Outcome
    decreases |stream|
  {
    match Look(Window(cap, stream))
    case Ready(skip, length) => Prepend(Object(Window(cap, stream)), Ideal(cap, stream[skip + length..]))
    case Broken => Outcome([], "", true)
    case Wait => if |stream| >= cap then Outcome([], "", true) else Outcome([], stream, false)
  }

  // ------------------------------------------------------------------------------------------
  // What is seen in a prefix stays

  lemma {:induction false} IndexOfPrefix(a: string, b: string, c: char)
    ensures IndexOf(a, c) < |a| ==> IndexOf(a + b, c) == IndexOf(a, c)
    ensures IndexOf(a, c) == |a| ==> IndexOf(a + b, c) >= |a|
  {
    if a != "" && a[0] != c {
      IndexOfPrefix(a[1..], b, c);
      assert (a + b)[1..] == a[1..] + b;
    }
  }

  lemma LookStays(a: string, b: string)
    ensures Look(a).Ready? ==> Look(a + b) == Look(a) && Object(a + b) == Object(a) && Rest(a + b) == Rest(a) + b
    ensures Look(a).Broken? ==> Look(a + b).Broken?
  {
    IndexOfPrefix(a, b, '{');
    var start := IndexOf(a, '{');
    if start < |a| {
      assert (a + b)[start..] == a[start..] + b;
      VerdictIsFinal(a[start..], b);
    }
  }

  /** An object ends at the same byte in every prefix that holds it. */
  lemma LookSooner(a: string, b: string)
    requires Look(a + b).Ready? && Look(a + b).skip + Look(a + b).length <= |a|
    ensures Look(a) == Look(a + b)
  {
    IndexOfPrefix(a, b, '{');
    var start := Look(a + b).skip;
    assert (a + b)[start..] == a[start..] + b;
    CompleteAtLastByte(a[start..] + b, |a| - start);
    assert (a[start..] + b)[..|a| - start] == a[start..];
  }

  // ------------------------------------------------------------------------------------------
  // The reader

  /** What has been popped, what is buffered, and whether the connection was given up. A live reader's
      buffer has room. */
  type Reader = Outcome

  /** The reader's loop between two reads: it pops while it can, and gives up when the buffer is
      broken or full. */
  function Drain(cap: nat, buf: string): Outcome
    decreases |buf|
  {
    match Look(buf)
    case Ready(skip, length) => Prepend(Object(buf), Drain(cap, buf[skip + length..]))
    case Broken => Outcome([], "", true)
    case Wait => if |buf| >= cap then Outcome([], "", true) else Outcome([], buf, false)
  }

  /** One read of `chunk`, and the pops that follow. */
  function Receive(cap: nat, r: Reader, chunk: string): Reader {
    Then(r, Drain(cap, r.kept + chunk))
  }

  /** The socket gives some bytes, at most as many as there is room for, while the reader reads. */
  predicate Readable(cap: nat, r: Reader, chunk: string) {
    r.lost || 0 < |chunk| <= cap - |r.kept|
  }

  function Read(cap: nat, chunks: seq<string>): Reader {
    if chunks == [] then Outcome([], "", false)
    else Receive(cap, Read(cap, chunks[..|chunks| - 1]), chunks[|chunks| - 1])
  }

  predicate Segmentation(cap: nat, chunks: seq<string>) {
    chunks == [] ||
    (Segmentation(cap, chunks[..|chunks| - 1])
     && Readable(cap, Read(cap, chunks[..|chunks| - 1]), chunks[|chunks| - 1]))
  }

  function Joined(chunks: seq<string>): string {
    if chunks == [] then "" else Joined(chunks[..|chunks| - 1]) + chunks[|chunks| - 1]
  }

  /** A buffer that is not overfull drains to what the whole stream so far would give. */
  lemma {:induction false} DrainIsIdeal(cap: nat, buf: string)
    requires |buf| <= cap
    ensures Drain(cap, buf) == Ideal(cap, buf)
    decreases |buf|
  {
    hide Look, Object;
    match Look(buf)
    case Ready(skip, length) => DrainIsIdeal(cap, buf[skip + length..]);
    case _ =>
  }

  /** A longer stream shows the same in its window, unless the shorter one was still waiting. */
  lemma WindowStays(cap: nat, a: string, b: string)
    ensures Look(Window(cap, a)).Ready? ==>
              && Look(Window(cap, a + b)) == Look(Window(cap, a))
              && Object(Window(cap, a + b)) == Object(Window(cap, a))
    ensures Look(Window(cap, a)).Broken? ==> Look(Window(cap, a + b)).Broken?
    ensures |a| >= cap ==> Window(cap, a + b) == Window(cap, a)
  {
    var (w, w') := (Window(cap, a), Window(cap, a + b));
    assert w' == w + w'[|w|..];
    LookStays(w, w'[|w|..]);
  }

  function Then(o: Outcome, more: Outcome): Outcome {
    if o.lost then o else more.(popped := o.popped + more.popped)
  }

  lemma PrependPops(m: string, o: Outcome, more: Outcome)
    ensures Prepend(m, Then(o, more)) == Then(Prepend(m, o), more)
  {
    assert [m] + (o.popped + more.popped) == [m] + o.popped + more.popped;
  }

  /** The first object of a stream, when its window shows one. */
  lemma IdealPops(cap: nat, s: string, skip: nat, length: nat)
    requires Look(Window(cap, s)) == Ready(skip, length)
    ensures skip + length <= |s| && 0 < length
    ensures Ideal(cap, s) == Prepend(Object(Window(cap, s)), Ideal(cap, s[skip + length..]))
  {
    hide Look, Object;
  }

  lemma IdealWaits(cap: nat, a: string, b: string)
    requires !Look(Window(cap, a)).Ready?
    ensures Ideal(cap, a + b) == Then(Ideal(cap, a), Ideal(cap, Ideal(cap, a).kept + b))
  {
    WindowStays(cap, a, b);
    hide Look, Object;
    var more := Ideal(cap, a + b);
    assert [] + more.popped == more.popped;
  }

  /** The ideal outcome of a stream in two parts. */
  lemma {:induction false} IdealConcat(cap: nat, a: string, b: string)
    ensures Ideal(cap, a + b) == Then(Ideal(cap, a), Ideal(cap, Ideal(cap, a).kept + b))
    decreases |a|
  {
    hide Ideal, Look, Object, Window;
    if Look(Window(cap, a)).Ready? {
      var n := Look(Window(cap, a)).skip + Look(Window(cap, a)).length;
      BothPop(cap, a, b);
      IdealConcat(cap, a[n..], b);
      PrependPops(Object(Window(cap, a)), Ideal(cap, a[n..]), Ideal(cap, Ideal(cap, a[n..]).kept + b));
    } else {
      IdealWaits(cap, a, b);
    }
  }

  lemma BothPop(cap: nat, a: string, b: string)
    requires Look(Window(cap, a)).Ready?
    ensures var n := Look(Window(cap, a)).skip + Look(Window(cap, a)).length;
            && 0 < n <= |a|
            && Ideal(cap, a) == Prepend(Object(Window(cap, a)), Ideal(cap, a[n..]))
            && Ideal(cap, a + b) == Prepend(Object(Window(cap, a)), Ideal(cap, a[n..] + b))
  {
    hide Ideal, Look, Object, Window;
    var (skip, length) := (Look(Window(cap, a)).skip, Look(Window(cap, a)).length);
    WindowStays(cap, a, b);
    IdealPops(cap, a, skip, length);
    IdealPops(cap, a + b, skip, length);
    assert (a + b)[skip + length..] == a[skip + length..] + b;
  }

  lemma {:induction false} KeptHasRoom(cap: nat, stream: string)
    ensures !Ideal(cap, stream).lost ==> |Ideal(cap, stream).kept| < cap
    decreases |stream|
  {
    hide Look, Object;
    match Look(Window(cap, stream))
    case Ready(skip, length) => KeptHasRoom(cap, stream[skip + length..]);
    case _ =>
  }

  /** However the network cuts the stream, the reader pops the same objects, keeps the same bytes, and
      gives up in the same cases. */
  lemma {:induction false} SegmentationDoesNotMatter(cap: nat, chunks: seq<string>)
    requires cap > 0 && Segmentation(cap, chunks)
    ensures Read(cap, chunks) == Ideal(cap, Joined(chunks))
  {
    if chunks != [] {
      var (front, chunk) := (chunks[..|chunks| - 1], chunks[|chunks| - 1]);
      SegmentationDoesNotMatter(cap, front);
      IdealConcat(cap, Joined(front), chunk);
      var r := Read(cap, front);
      if !r.lost {
        DrainIsIdeal(cap, r.kept + chunk);
      }
    }
  }

  /** What a reader with unlimited room makes of the stream. */
  function All(stream: string): Outcome
    decreases |stream|
  {
    match Look(stream)
    case Ready(skip, length) => Prepend(Object(stream), All(stream[skip + length..]))
    case Broken => Outcome([], "", true)
    case Wait => Outcome([], stream, false)
  }

  /** Every object ends within `cap` bytes of the one before, and less than `cap` bytes are left. */
  predicate Fits(cap: nat, stream: string)
    decreases |stream|
  {
    match Look(stream)
    case Ready(skip, length) => skip + length <= cap && Fits(cap, stream[skip + length..])
    case Broken => true
    case Wait => |stream| < cap
  }

  lemma WindowOfStream(cap: nat, s: string)
    ensures Look(Window(cap, s)).Ready? ==> Look(s) == Look(Window(cap, s)) && Object(s) == Object(Window(cap, s))
    ensures Look(Window(cap, s)).Broken? ==> Look(s).Broken?
    ensures Look(s).Ready? && Look(s).skip + Look(s).length <= cap ==> Look(Window(cap, s)) == Look(s)
    ensures |s| <= cap ==> Window(cap, s) == s
  {
    var w := Window(cap, s);
    assert w + s[|w|..] == s;
    LookStays(w, s[|w|..]);
    if Look(s).Ready? && Look(s).skip + Look(s).length <= cap {
      LookSooner(w, s[|w|..]);
    }
  }

  lemma LargeObjectLost(cap: nat, stream: string)
    requires Look(stream).Ready? && Look(stream).skip + Look(stream).length > cap
    ensures Ideal(cap, stream) == Outcome([], "", true) && All(stream).popped != []
  {
    WindowOfStream(cap, stream);
    hide Look, Object;
    assert |Window(cap, stream)| <= cap;
  }

  lemma FittingObjectPopped(cap: nat, stream: string, n: nat)
    requires Look(stream).Ready? && n == Look(stream).skip + Look(stream).length <= cap
    ensures n <= |stream| && Ideal(cap, stream) == Prepend(Object(stream), Ideal(cap, stream[n..]))
    ensures All(stream) == Prepend(Object(stream), All(stream[n..]))
  {
    WindowOfStream(cap, stream);
    hide Look, Object, Window;
  }

  lemma NoObjectLeft(cap: nat, stream: string)
    requires !Look(stream).Ready? && cap > 0
    ensures Ideal(cap, stream) == All(stream) <==> Look(stream).Broken? || |stream| < cap
  {
    WindowOfStream(cap, stream);
    hide Look, Object, Window;
  }

  /** The bounded buffer makes no difference exactly when everything fits it. */
  lemma {:induction false} BufferSuffices(cap: nat, stream: string)
    requires cap > 0
    ensures Ideal(cap, stream) == All(stream) <==> Fits(cap, stream)
    decreases |stream|
  {
    hide Look, Object, Ideal, All;
    if Look(stream).Ready? {
      var n := Look(stream).skip + Look(stream).length;
      if n <= cap {
        FittingObjectPopped(cap, stream, n);
        BufferSuffices(cap, stream[n..]);
        PrependInjective(Object(stream), Ideal(cap, stream[n..]), All(stream[n..]));
      } else {
        LargeObjectLost(cap, stream);
      }
    } else {
      NoObjectLeft(cap, stream);
    }
  }

  lemma PrependInjective(m: string, x: Outcome, y: Outcome)
    ensures Prepend(m, x) == Prepend(m, y) <==> x == y
  {
    if Prepend(m, x) == Prepend(m, y) {
      assert x.popped == ([m] + x.popped)[1..];
      assert y.popped == ([m] + y.popped)[1..];
    }
  }

  // ------------------------------------------------------------------------------------------
  // The buffer

  class NetBuffer {
    const bytes: array<char>
    var pos: nat

    predicate Valid()
      reads this
    {
      pos < bytes.Length
    }

    /** The bytes received and not yet popped. */
    function Contents(): string
      requires Valid()
      reads this, bytes
    {
      bytes[..pos]
    }

    constructor (size: nat)
      requires size > 0
      ensures Valid() && fresh(bytes) && bytes.Length == size && Contents() == ""
    {
      bytes := new char[size](_ => ' ');
      pos := 0;
    }

    function Room(): nat
      requires Valid()
      reads this
    {
      bytes.Length - 1 - pos
    }

    /** What the socket delivered is put behind the rest. */
    method Append(chunk: string)
      requires Valid() && |chunk| <= Room()
      modifies this`pos, bytes
      ensures Valid() && Contents() == old(Contents()) + chunk
    {
      forall i | 0 <= i < |chunk| { bytes[pos + i] := chunk[i]; }
      pos := pos + |chunk|;
    }

    method IndexOfBrace() returns (start: nat)
      requires Valid()
      ensures start == IndexOf(Contents(), '{')
    {
      start := 0;
      assert Contents()[0..] == Contents();
      while start < pos && bytes[start] != '{'
        invariant start <= pos && IndexOf(Contents(), '{') == start + IndexOf(Contents()[start..], '{')
      {
        assert Contents()[start..][1..] == Contents()[start + 1..];
        start := start + 1;
      }
    }

    /** The bytes from `n` on move to the front. */
    method Skip(n: nat)
      requires Valid() && n <= pos
      modifies this`pos, bytes
      ensures Valid() && Contents() == old(Contents())[n..]
    {
      var tail := pos - n;
      assert Contents()[n..] == bytes[n..pos];
      forall i | 0 <= i < tail { bytes[i] := bytes[n + i]; }
      pos := tail;
    }

    /** Takes the first object out of the buffer and moves the rest to its front. */
    method PopMessage() returns (state: int, message: string)
      requires Valid()
      modifies this`pos, bytes
      ensures Valid()
      ensures state == match Look(old(Contents())) { case Wait => 0 case Broken => -1 case Ready(_, _) => 1 }
      ensures state != 1 ==> Contents() == old(Contents())
      ensures state == 1 ==> message == Object(old(Contents())) && Contents() == Rest(old(Contents()))
    {
      message := "";
      var start := IndexOfBrace();
      hide IndexOf, Frame;
      if start == pos { return 0, ""; }
      var length;
      state, length := CpJsonObjectLength(bytes[start..pos]);
      assert Contents()[start..] == bytes[start..pos];
      if state != 1 { return; }
      assert Look(Contents()) == Ready(start, length);
      message := bytes[start..start + length];
      assert Contents()[start..start + length] == message;
      Skip(start + length);
    }

    /** The reader's loop until it has to wait for the socket, or gives up. */
    method DrainAll() returns (popped: seq<string>, lost: bool)
      requires Valid()
      modifies this`pos, bytes
      ensures Valid()
      ensures popped == Drain(bytes.Length - 1, old(Contents())).popped
      ensures lost == Drain(bytes.Length - 1, old(Contents())).lost
      ensures !lost ==> Contents() == Drain(bytes.Length - 1, old(Contents())).kept
    {
      hide Drain, Look, Object, Rest;
      popped, lost := [], false;
      ghost var cap := bytes.Length - 1;
      ghost var whole := Contents();
      AfterNothing(Drain(cap, whole));
      while true
        invariant Valid()
        invariant Drain(cap, whole) == Then(Outcome(popped, "", false), Drain(cap, Contents()))
        decreases pos
      {
        ghost var before := Contents();
        DrainStep(cap, before);
        var state, message := PopMessage();
        if state != 1 {
          lost := state < 0 || pos >= bytes.Length - 1;
          assert popped + [] == popped;
          break;
        }
        PoppedOneMore(popped, message, Drain(cap, Contents()));
        popped := popped + [message];
      }
    }
  }

  lemma AfterNothing(o: Outcome)
    ensures Then(Outcome([], "", false), o) == o
  {
    assert [] + o.popped == o.popped;
  }

  lemma PoppedOneMore(popped: seq<string>, m: string, o: Outcome)
    ensures Then(Outcome(popped, "", false), Prepend(m, o)) == Then(Outcome(popped + [m], "", false), o)
  {
    assert popped + ([m] + o.popped) == popped + [m] + o.popped;
  }

  lemma DrainStep(cap: nat, buf: string)
    ensures Drain(cap, buf) ==
              match Look(buf)
              case Ready(_, _) => Prepend(Object(buf), Drain(cap, Rest(buf)))
              case Broken => Outcome([], "", true)
              case Wait => if |buf| >= cap then Outcome([], "", true) else Outcome([], buf, false)
    ensures Look(buf).Ready? ==> |Rest(buf)| < |buf|
  {
  }

  // ------------------------------------------------------------------------------------------
  // The reader on the buffer

  /** How many bytes a read delivers: the network decides, but some, and no more than there is room for. */
  function Delivered(pace: nat, room: nat, left: nat): (n: nat)
    requires room > 0 && left > 0
    ensures 0 < n <= room && n <= left
  {
    Min(if pace == 0 then 1 else pace, Min(room, left))
  }

  /** The reader thread on one buffer object: whatever the network delivers at a time, the whole stream has
      the outcome the stream alone decides. */
  method ReadStream(size: nat, stream: string, pace: nat -> nat) returns (popped: seq<string>, kept: string, lost: bool)
    requires size > 1
    ensures Outcome(popped, kept, lost) == Ideal(size - 1, stream)
  {
    hide Drain, Ideal, Segmentation, Read, Joined;
    var buffer := new NetBuffer(size);
    ghost var cap, chunks: seq<string> := size - 1, [];
    NoReads(cap);
    popped, lost := [], false;
    var at := 0;
    while at < |stream| && !lost
      invariant at <= |stream| && buffer.Valid() && buffer.bytes.Length == size && fresh(buffer) && fresh(buffer.bytes)
      invariant Segmentation(cap, chunks) && Joined(chunks) == stream[..at]
      invariant Read(cap, chunks) == Outcome(popped, if lost then "" else buffer.Contents(), lost)
      invariant !lost ==> buffer.Room() > 0
    {
      var n := Delivered(pace(at), buffer.Room(), |stream| - at);
      ghost var chunk := stream[at..at + n];
      OneMoreRead(cap, chunks, chunk);
      DrainIsIdeal(cap, buffer.Contents() + chunk);
      KeptHasRoom(cap, buffer.Contents() + chunk);
      LostKeepsNothing(cap, buffer.Contents() + chunk);
      buffer.Append(stream[at..at + n]);
      var more;
      more, lost := buffer.DrainAll();
      popped := popped + more;
      chunks := chunks + [chunk];
      at := at + n;
      assert stream[..at] == stream[..at - n] + chunk;
    }
    kept := if lost then "" else buffer.Contents();
    if at < |stream| {
      OneMoreRead(cap, chunks, stream[at..]);
      chunks := chunks + [stream[at..]];
      assert stream == stream[..at] + stream[at..];
    }
    assert stream[..|stream|] == stream;
    SegmentationDoesNotMatter(cap, chunks);
  }

  lemma {:induction false} LostKeepsNothing(cap: nat, buf: string)
    ensures Drain(cap, buf).lost ==> Drain(cap, buf).kept == ""
    decreases |buf|
  {
    hide Look, Object;
    match Look(buf)
    case Ready(skip, length) => LostKeepsNothing(cap, buf[skip + length..]);
    case _ =>
  }

  lemma NoReads(cap: nat)
    ensures Segmentation(cap, []) && Joined([]) == "" && Read(cap, []) == Outcome([], "", false)
  {
  }

  lemma OneMoreRead(cap: nat, chunks: seq<string>, chunk: string)
    requires Segmentation(cap, chunks) && Readable(cap, Read(cap, chunks), chunk)
    ensures Segmentation(cap, chunks + [chunk]) && Joined(chunks + [chunk]) == Joined(chunks) + chunk
    ensures Read(cap, chunks + [chunk]) == Receive(cap, Read(cap, chunks), chunk)
  {
    assert (chunks + [chunk])[..|chunks|] == chunks;
  }
}
