/** Any sequence of calls on one cached hash, over any number of buffers and lengths, with writes in between. */
module DigestRuns {
  import opened Wrappers
  import opened Bits
  import opened Blake3Tree
  import opened Buffers
  import opened ChunkDigest
  import opened DirtyList
  import opened TreeImage
  import opened MatrixHash

  /** What a call is about: the first `len` bytes of a buffer, and the key. */
  datatype Subject = Subject(buf: nat, len: nat, key: Key)

  /** A write to a buffer, or a call: a digest with its list of changed offsets, an invalidation, or a
      rebuild from chunk values or from a tree computed elsewhere. `oom` is a failing allocation. */
  datatype Call =
    | Write(buf: nat, pos: nat, value: byte)
    | Ask(subject: Subject, offsetsNull: bool, offsets: seq<nat>, oom: bool)
    | Forget
    | Adopt(subject: Subject, oom: bool)
    | AdoptTree(subject: Subject, pad: Cv, oom: bool)

  predicate Asks(c: Call) { c.Ask? || c.Adopt? || c.AdoptTree? }

  /** A message of at most one chunk is hashed without the cache. */
  predicate UsesCache(c: Call) {
    Asks(c) && NumChunks(c.subject.len) >= 2
  }

  // ------------------------------------------------------------------------------------------
  // The buffers

  /** The bytes of every buffer after the calls. */
  function DataAfter(init: seq<seq<byte>>, calls: seq<Call>): (data: seq<seq<byte>>)
    ensures |data| == |init| && forall i :: 0 <= i < |init| ==> |data[i]| == |init[i]|
  {
    if calls == [] then init else Written(DataAfter(init, calls[..|calls| - 1]), calls[|calls| - 1])
  }

  function Written(data: seq<seq<byte>>, call: Call): (r: seq<seq<byte>>)
    ensures |r| == |data| && forall i :: 0 <= i < |data| ==> |r[i]| == |data[i]|
  {
    if call.Write? && call.buf < |data| && call.pos < |data[call.buf]|
    then data[call.buf := data[call.buf][call.pos := call.value]]
    else data
  }

  predicate Exists(s: Subject, data: seq<seq<byte>>) {
    s.buf < |data| && s.len <= |data[s.buf]| && NumChunks(s.len) < CHUNK_COUNT_LIMIT
  }

  function Message(s: Subject, data: seq<seq<byte>>): seq<byte>
    requires Exists(s, data)
  {
    data[s.buf][..s.len]
  }

  // ------------------------------------------------------------------------------------------
  // What the client owes

  /** The subject of the last call that used the cache, unless it was invalidated since, and the chunks of
      its buffer written since. */
  datatype Book = Nothing | Book(last: Subject, chunks: set<nat>)

  function BookStep(book: Book, call: Call): Book {
    if UsesCache(call) then Book(call.subject, {})
    else if call.Forget? then Nothing
    else if call.Write? && book.Book? && call.buf == book.last.buf then
      book.(chunks := book.chunks + {call.pos / B3_CHUNK})
    else book
  }

  function BookAfter(calls: seq<Call>): Book {
    if calls == [] then Nothing else BookStep(BookAfter(calls[..|calls| - 1]), calls[|calls| - 1])
  }

  /** A digest of the subject of the last call lists every chunk written since that call. */
  ghost predicate Owed(call: Call, book: Book) {
    call.Ask? && book.Book? && call.subject == book.last ==>
      var n := NumChunks(call.subject.len);
      forall c :: c in book.chunks && c < n ==> c in DirtyChunks(call.offsets, n)
  }

  ghost predicate Honest(calls: seq<Call>, data: seq<seq<byte>>) {
    forall i :: 0 <= i < |calls| ==>
      Owed(calls[i], BookAfter(calls[..i])) && (Asks(calls[i]) ==> Exists(calls[i].subject, data))
  }

  // ------------------------------------------------------------------------------------------
  // One call

  /** The cached bytes differ from the current ones only in written chunks. */
  ghost predicate DiffersOnlyIn(was: seq<byte>, now: seq<byte>, chunks: set<nat>) {
    |was| == |now| && forall p :: 0 <= p < |was| && was[p] != now[p] ==> p / B3_CHUNK in chunks
  }

  /** A valid cache is of the last call's subject and knows it but for the written chunks. */
  ghost predicate Knows(subject: Subject, snap: seq<byte>, data: seq<seq<byte>>, book: Book) {
    && book.Book? && subject == book.last && Exists(subject, data)
    && DiffersOnlyIn(snap, Message(subject, data), book.chunks)
  }

  ghost predicate Synced(h: PearlMatrixHash, mats: seq<array<byte>>, book: Book)
    reads h, h.level, mats
  {
    && h.Valid()
    && (h.valid ==>
          && book.Book? && book.last.buf < |mats| && h.data == mats[book.last.buf]
          && Knows(Subject(book.last.buf, h.rawLen, h.key), h.snap, Bytes(mats), book))
  }

  lemma InvalidIsSynced(h: PearlMatrixHash, mats: seq<array<byte>>)
    requires h.Valid() && !h.valid
    ensures Synced(h, mats, Nothing)
  {
  }

  lemma KnowsItself(s: Subject, data: seq<seq<byte>>)
    requires Exists(s, data)
    ensures Knows(s, Message(s, data), data, Book(s, {}))
  {
  }

  lemma PendingCovers(was: seq<byte>, now: seq<byte>, chunks: set<nat>, offsets: seq<nat>)
    requires DiffersOnlyIn(was, now, chunks)
    requires forall c :: c in chunks && c < NumChunks(|was|) ==> c in DirtyChunks(offsets, NumChunks(|was|))
    ensures Covered(was, now, offsets)
  {
    forall p | 0 <= p < |was| && was[p] != now[p]
      ensures p / B3_CHUNK in DirtyChunks(offsets, NumChunks(|was|))
    {
      assert p / B3_CHUNK < NumChunks(|was|);
    }
  }

  lemma OwedCovers(h: PearlMatrixHash, mats: seq<array<byte>>, call: Call, book: Book)
    requires call.Ask? && UsesCache(call) && Distinct(mats) && Synced(h, mats, book) && Owed(call, book)
    requires Exists(call.subject, Bytes(mats))
    requires var s := call.subject; Reuses(h, mats[s.buf], s.len, s.key, call.offsetsNull, call.offsets)
    ensures Covered(h.snap, mats[call.subject.buf][..call.subject.len], call.offsets)
  {
    PendingCovers(h.snap, mats[call.subject.buf][..call.subject.len], book.chunks, call.offsets);
  }

  /** The digest is the full one of the subject's bytes. */
  predicate Right(b: Blake3, s: Subject, data: seq<seq<byte>>, out: Digest) {
    Exists(s, data) && NumChunks(s.len) >= 1 && out == FullDigest(b, s.key, Message(s, data))
  }

  /** A digest call. */
  method AskDigest(h: PearlMatrixHash, mats: seq<array<byte>>, call: Call, ghost book: Book)
    returns (out: Option<Digest>)
    requires call.Ask? && Distinct(mats) && Synced(h, mats, book)
    requires Exists(call.subject, Bytes(mats)) && Owed(call, book)
    modifies Footprint(h)
    ensures Synced(h, mats, BookStep(book, call))
    ensures out.Some? ==> Right(h.b, call.subject, Bytes(mats), out.value)
    ensures !call.oom && NumChunks(call.subject.len) >= 2 ==> out.Some?
    ensures fresh(Footprint(h) - old(Footprint(h)))
  {
    hide FullDigest, PearlMatrixHash.Caches, PearlMatrixHash.Valid, Covered, DirtyChunks, Knows, PaddedChunkLen,
         NumChunks;
    var s := call.subject;
    var mat := mats[s.buf];
    if UsesCache(call) && Reuses(h, mat, s.len, s.key, call.offsetsNull, call.offsets) {
      OwedCovers(h, mats, call, book);
    }
    var rc, digest, rehashed := MatrixHash.Digest(h, h.b, mat, s.len, s.key, call.offsetsNull, call.offsets, call.oom);
    KnowsItself(s, Bytes(mats));
    out := if rc == 0 then Some(digest) else None;
  }

  /** A rebuild from chunk values or from a tree. */
  method AdoptCache(h: PearlMatrixHash, mats: seq<array<byte>>, call: Call, ghost book: Book)
    returns (out: Option<Digest>)
    requires (call.Adopt? || call.AdoptTree?) && Synced(h, mats, book) && Exists(call.subject, Bytes(mats))
    modifies Footprint(h)
    ensures Synced(h, mats, BookStep(book, call))
    ensures out.Some? ==> Right(h.b, call.subject, Bytes(mats), out.value)
    ensures !call.oom && NumChunks(call.subject.len) >= 2 ==> out.Some?
    ensures fresh(Footprint(h) - old(Footprint(h)))
  {
    hide FullDigest, ChunkCvs, PearlMatrixHash.Caches;
    var s := call.subject;
    var mat := mats[s.buf];
    ghost var bytes := mat[..s.len];
    var cvs := ChunkCvs(h.b, s.key, mat[..s.len]);
    var rc, digest;
    if call.Adopt? {
      rc, digest := h.FromCvs(mat, bytes, s.len, s.key, cvs, call.oom);
    } else {
      var f := KeyedParent(h.b, s.key);
      ImageHoldsTree(f, cvs, call.pad);
      rc, digest := h.FromTree(mat, bytes, s.len, s.key, Image(f, cvs, BitLength(|cvs|), call.pad), call.oom);
    }
    out := if rc == 0 then Some(digest) else None;
  }

  method WriteByte(h: PearlMatrixHash, mats: seq<array<byte>>, call: Call, ghost book: Book)
    requires call.Write? && Distinct(mats) && Synced(h, mats, book)
    modifies mats
    ensures Synced(h, mats, BookStep(book, call)) && Bytes(mats) == Written(old(Bytes(mats)), call)
  {
    if call.buf < |mats| && call.pos < mats[call.buf].Length {
      mats[call.buf][call.pos] := call.value;
    }
  }

  method ForgetCache(h: PearlMatrixHash, mats: seq<array<byte>>, call: Call, ghost book: Book)
    requires call.Forget? && Synced(h, mats, book)
    modifies h`valid
    ensures Synced(h, mats, BookStep(book, call)) && Bytes(mats) == old(Bytes(mats))
  {
    h.Invalidate();
  }

  /** A write, an invalidation or a question. */
  method Step(h: PearlMatrixHash, mats: seq<array<byte>>, call: Call, ghost book: Book) returns (out: Option<Digest>)
    requires Distinct(mats) && Synced(h, mats, book) && Owed(call, book)
    requires Asks(call) ==> Exists(call.subject, Bytes(mats))
    modifies Footprint(h), mats
    ensures Synced(h, mats, BookStep(book, call)) && Bytes(mats) == Written(old(Bytes(mats)), call)
    ensures Asks(call) && out.Some? ==> Right(h.b, call.subject, Bytes(mats), out.value)
    ensures Asks(call) && !call.oom && NumChunks(call.subject.len) >= 2 ==> out.Some?
    ensures fresh(Footprint(h) - old(Footprint(h)))
  {
    hide FullDigest, PearlMatrixHash.Caches, Right, Synced, BookStep;
    out := None;
    if call.Ask? {
      out := AskDigest(h, mats, call, book);
    } else if Asks(call) {
      out := AdoptCache(h, mats, call, book);
    } else if call.Forget? {
      ForgetCache(h, mats, call, book);
    } else {
      WriteByte(h, mats, call, book);
    }
  }

  // ------------------------------------------------------------------------------------------
  // All calls

  /** Every digest of every run in which the client keeps its obligation is the full keyed digest of its bytes
      at that moment, whatever buffer, length and key were cached, invalidated, adopted or lost before. */
  method RunCalls(b: Blake3, mats: seq<array<byte>>, calls: seq<Call>) returns (answers: seq<Option<Digest>>)
    requires Distinct(mats) && Honest(calls, Bytes(mats))
    modifies mats
    ensures |answers| == |calls| && Bytes(mats) == DataAfter(old(Bytes(mats)), calls)
    ensures AllAnswered(b, old(Bytes(mats)), calls, answers)
  {
    hide Right, Synced, BookAfter, BookStep, Written, DataAfter, Honest, AllAnswered, Distinct, Owed, Exists, Footprint;
    ghost var init := Bytes(mats);
    var h := new PearlMatrixHash(b);
    NewFootprint(h);
    InvalidIsSynced(h, mats);
    AtFirst(b, init, calls);
    answers := [];
    for i := 0 to |calls|
      invariant fresh(Footprint(h)) && h.b == b
      invariant Synced(h, mats, BookAfter(calls[..i])) && Bytes(mats) == DataAfter(init, calls[..i])
      invariant |answers| == i && AllAnswered(b, init, calls, answers)
    {
      OneMore(init, calls, i);
      ghost var before, footprint := answers, Footprint(h);
      label Before:
      var answer := Step(h, mats, calls[i], BookAfter(calls[..i]));
      forall o | o in Footprint(h)
        ensures fresh(o)
      {
        if o !in footprint {
          assert o in Footprint(h) - footprint;
          assert fresh@Before(o);
        }
      }
      answers := answers + [answer];
      OneMoreAnswer(b, init, calls, before, answer);
    }
    assert calls[..|calls|] == calls;
  }

  /** A new cache owns itself and its scratch array. */
  lemma NewFootprint(h: PearlMatrixHash)
    ensures h.level == [] ==> Footprint(h) == {h, h.idx}
  {
  }

  lemma AtFirst(b: Blake3, init: seq<seq<byte>>, calls: seq<Call>)
    ensures AllAnswered(b, init, calls, [])
    ensures BookAfter(calls[..0]) == Nothing && DataAfter(init, calls[..0]) == init
  {
  }

  /** One more call, and what it may rely on. */
  lemma OneMore(init: seq<seq<byte>>, calls: seq<Call>, i: nat)
    requires i < |calls| && Honest(calls, init)
    ensures BookAfter(calls[..i + 1]) == BookStep(BookAfter(calls[..i]), calls[i])
    ensures DataAfter(init, calls[..i + 1]) == Written(DataAfter(init, calls[..i]), calls[i])
    ensures Owed(calls[i], BookAfter(calls[..i]))
    ensures Asks(calls[i]) ==> Exists(calls[i].subject, DataAfter(init, calls[..i]))
  {
    assert calls[..i + 1][..i] == calls[..i];
  }

  ghost predicate Answered(b: Blake3, init: seq<seq<byte>>, calls: seq<Call>, answers: seq<Option<Digest>>, i: nat)
    requires i < |calls|
  {
    i < |answers| && (Asks(calls[i]) ==>
      && (answers[i].Some? ==> Right(b, calls[i].subject, DataAfter(init, calls[..i + 1]), answers[i].value))
      && (!calls[i].oom && NumChunks(calls[i].subject.len) >= 2 ==> answers[i].Some?))
  }

  ghost predicate AllAnswered(b: Blake3, init: seq<seq<byte>>, calls: seq<Call>, answers: seq<Option<Digest>>) {
    |answers| <= |calls| && forall i :: 0 <= i < |answers| ==> Answered(b, init, calls, answers, i)
  }

  lemma OneMoreAnswer(b: Blake3, init: seq<seq<byte>>, calls: seq<Call>, answers: seq<Option<Digest>>,
                      answer: Option<Digest>)
    requires |answers| < |calls| && AllAnswered(b, init, calls, answers)
    requires var call, data := calls[|answers|], DataAfter(init, calls[..|answers| + 1]);
             Asks(call) ==>
               && (answer.Some? ==> Right(b, call.subject, data, answer.value))
               && (!call.oom && NumChunks(call.subject.len) >= 2 ==> answer.Some?)
    ensures AllAnswered(b, init, calls, answers + [answer])
  {
    hide DataAfter, Right;
    var more := answers + [answer];
    assert Answered(b, init, calls, more, |answers|);
    forall k | 0 <= k < |answers| ensures Answered(b, init, calls, more, k) {
      assert Answered(b, init, calls, answers, k);
    }
  }
}
