/** Any sequence of attempts of the CPU worker, on any of its signal buffers. */
module AttemptRuns {
  import opened Wrappers
  import opened Config
  import opened Blake3Tree
  import opened Buffers
  import opened ChunkDigest
  import opened MatrixHash
  import opened CpuWorker

  /** One attempt: its job, its buffer if there is one, what is drawn, and what fails. */
  datatype Attempt = Attempt(
    jobKey: Key,
    m: nat,
    buf: Option<nat>,
    prepared: bool,
    entropyOk: bool,
    row: nat,
    vals: seq<byte>,
    created: bool,
    oom: bool,
    lastOom: bool,
    later: int)

  /** Whether the attempt rewrites its buffer. */
  predicate Draws(a: Attempt) { a.buf.Some? && a.prepared && a.entropyOk }

  predicate Fits(a: Attempt, rowpoke: bool, data: seq<seq<byte>>) {
    && a.m < ROW_LIMIT && DrawFits(rowpoke, a.m, a.row, a.vals) && a.later in {0, -1, -2}
    && (a.buf.Some? ==> a.buf.value < |data| && |data[a.buf.value]| >= a.m * K_DIM)
  }

  function AfterAttempt(data: seq<seq<byte>>, rowpoke: bool, a: Attempt): (r: seq<seq<byte>>)
    requires Fits(a, rowpoke, data)
    ensures |r| == |data| && forall i :: 0 <= i < |data| ==> |r[i]| == |data[i]|
  {
    if Draws(a) then data[a.buf.value := Drawn(data[a.buf.value], rowpoke, a.m, a.row, a.vals)] else data
  }

  predicate AllFit(attempts: seq<Attempt>, rowpoke: bool, data: seq<seq<byte>>) {
    forall i :: 0 <= i < |attempts| ==> Fits(attempts[i], rowpoke, data)
  }

  /** The buffers after the attempts, which are the only writes to them. */
  function DataAfter(init: seq<seq<byte>>, rowpoke: bool, attempts: seq<Attempt>): (data: seq<seq<byte>>)
    requires AllFit(attempts, rowpoke, init)
    ensures |data| == |init| && forall i :: 0 <= i < |init| ==> |data[i]| == |init[i]|
  {
    if attempts == [] then init
    else AfterAttempt(DataAfter(init, rowpoke, attempts[..|attempts| - 1]), rowpoke, attempts[|attempts| - 1])
  }

  /** What an attempt answers, given the buffers after it: its commitment is the full keyed digest of its signal,
      and it fails only for a reason. */
  predicate Right(b: Blake3, rowpoke: bool, a: Attempt, data: seq<seq<byte>>, rc: int, hashA: Digest)
    requires Fits(a, rowpoke, data)
  {
    && (rc == 0 ==> a.buf.Some? && a.m > 0 && hashA == FullDigest(b, a.jobKey, data[a.buf.value][..a.m * K_DIM]))
    && (a.buf.None? ==> rc == -2)
    && (a.buf.Some? && !a.prepared ==> rc == -1)
    && (a.buf.Some? && a.prepared && !a.entropyOk ==> rc == -2)
    && (Draws(a) && !DrawEnds(rowpoke, a.m, a.vals) ==> rc == -1)
    && (Draws(a) && DrawEnds(rowpoke, a.m, a.vals) ==> rc == a.later || (rc == 1 && (a.m == 0 || (a.oom && a.lastOom))))
  }

  // ------------------------------------------------------------------------------------------
  // One attempt

  /** The worker remembers no buffer, or one of these with the bytes the last attempt left in it. */
  ghost predicate Remembers(w: CpuWorker, mats: seq<array<byte>>)
    reads w, mats
  {
    w.aSigHashed == null
    || (&& w.aSigHashed in mats && w.aSigHashed.Length >= w.aSigM * K_DIM
        && w.aSigHashed[..w.aSigM * K_DIM] == w.lastA)
  }

  /** Only the attempt's own buffer is rewritten. */
  lemma OneBufferWritten(data: seq<seq<byte>>, data': seq<seq<byte>>, rowpoke: bool, a: Attempt)
    requires Fits(a, rowpoke, data) && |data'| == |data|
    requires forall i :: 0 <= i < |data| && Some(i) != a.buf ==> data'[i] == data[i]
    requires a.buf.Some? ==>
      data'[a.buf.value] ==
      if Draws(a) then Drawn(data[a.buf.value], rowpoke, a.m, a.row, a.vals) else data[a.buf.value]
    ensures data' == AfterAttempt(data, rowpoke, a)
  {
    hide Drawn;
  }

  /** A cache owns no signal buffer. */
  lemma NoBufferInFootprint(h: PearlMatrixHash?, mats: seq<array<byte>>)
    ensures forall i :: 0 <= i < |mats| ==> mats[i] !in Footprint(h)
    ensures h == null ==> Footprint(h) == {}
  {
  }

  method Prepare(w: CpuWorker, mats: seq<array<byte>>, a: Attempt) returns (rc: int, hashA: Digest)
    requires w.Valid() && Distinct(mats) && Remembers(w, mats) && Fits(a, w.rowpoke, Bytes(mats))
    modifies w, Footprint(w.aHash), mats
    ensures w.Valid() && Remembers(w, mats) && fresh(Footprint(w.aHash) - old(Footprint(w.aHash)))
    ensures Bytes(mats) == AfterAttempt(old(Bytes(mats)), w.rowpoke, a)
    ensures Right(w.b, w.rowpoke, a, Bytes(mats), rc, hashA)
  {
    hide FullDigest, Drawn, CpuWorker.Valid, AfterAttempt, DrawEnds, Footprint;
    NoBufferInFootprint(w.aHash, mats);
    var sig: array?<byte> := if a.buf.Some? then mats[a.buf.value] else null;
    rc, hashA := w.PrepareAttempt(a.jobKey, a.m, sig, a.prepared, a.entropyOk, a.row, a.vals, a.created, a.oom,
                                  a.lastOom, a.later);
    OneBufferWritten(old(Bytes(mats)), Bytes(mats), w.rowpoke, a);
  }

  // ------------------------------------------------------------------------------------------
  // All attempts

  ghost predicate AllRight(b: Blake3, rowpoke: bool, init: seq<seq<byte>>, attempts: seq<Attempt>,
                           answers: seq<(int, Digest)>)
    requires AllFit(attempts, rowpoke, init)
  {
    && |answers| <= |attempts|
    && forall i :: 0 <= i < |answers| ==>
         Right(b, rowpoke, attempts[i], DataAfter(init, rowpoke, attempts[..i + 1]), answers[i].0, answers[i].1)
  }

  /** In every run of attempts, over any buffers, sizes and jobs, and through cancellations and failures, each
      commitment is the full keyed digest of the signal as it then stands. */
  method RunAttempts(b: Blake3, rowpoke: bool, mats: seq<array<byte>>, attempts: seq<Attempt>)
    returns (answers: seq<(int, Digest)>)
    requires Distinct(mats) && AllFit(attempts, rowpoke, Bytes(mats))
    modifies mats
    ensures |answers| == |attempts| && Bytes(mats) == DataAfter(old(Bytes(mats)), rowpoke, attempts)
    ensures AllRight(b, rowpoke, old(Bytes(mats)), attempts, answers)
  {
    hide Remembers, Right, AfterAttempt, DataAfter, AllRight, Fits, CpuWorker.Valid, Distinct, Footprint;
    ghost var init := Bytes(mats);
    var w := new CpuWorker(b, rowpoke);
    RemembersNothing(w, mats);
    NoBufferInFootprint(w.aHash, mats);
    AtFirst(b, rowpoke, init, attempts);
    answers := [];
    for i := 0 to |attempts|
      invariant fresh(w) && fresh(Footprint(w.aHash)) && w.b == b && w.rowpoke == rowpoke
      invariant w.Valid() && Remembers(w, mats) && Bytes(mats) == DataAfter(init, rowpoke, attempts[..i])
      invariant |answers| == i && AllRight(b, rowpoke, init, attempts, answers)
    {
      OneMore(init, rowpoke, attempts, i);
      ghost var before, footprint := answers, Footprint(w.aHash);
      label Before:
      var rc, hashA := Prepare(w, mats, attempts[i]);
      forall o | o in Footprint(w.aHash)
        ensures fresh(o)
      {
        if o !in footprint {
          assert o in Footprint(w.aHash) - footprint;
          assert fresh@Before(o);
        }
      }
      answers := answers + [(rc, hashA)];
      OneMoreRight(b, rowpoke, init, attempts, before, (rc, hashA));
    }
    assert attempts[..|attempts|] == attempts;
  }

  lemma RemembersNothing(w: CpuWorker, mats: seq<array<byte>>)
    requires w.aSigHashed == null
    ensures Remembers(w, mats)
  {
  }

  lemma AtFirst(b: Blake3, rowpoke: bool, init: seq<seq<byte>>, attempts: seq<Attempt>)
    requires AllFit(attempts, rowpoke, init)
    ensures DataAfter(init, rowpoke, attempts[..0]) == init && AllRight(b, rowpoke, init, attempts, [])
  {
  }

  lemma OneMore(init: seq<seq<byte>>, rowpoke: bool, attempts: seq<Attempt>, i: nat)
    requires i < |attempts| && AllFit(attempts, rowpoke, init)
    ensures Fits(attempts[i], rowpoke, DataAfter(init, rowpoke, attempts[..i]))
    ensures DataAfter(init, rowpoke, attempts[..i + 1]) ==
            AfterAttempt(DataAfter(init, rowpoke, attempts[..i]), rowpoke, attempts[i])
  {
    assert attempts[..i + 1][..i] == attempts[..i];
  }

  lemma OneMoreRight(b: Blake3, rowpoke: bool, init: seq<seq<byte>>, attempts: seq<Attempt>,
                     answers: seq<(int, Digest)>, answer: (int, Digest))
    requires AllFit(attempts, rowpoke, init) && |answers| < |attempts|
    requires AllRight(b, rowpoke, init, attempts, answers)
    requires Right(b, rowpoke, attempts[|answers|], DataAfter(init, rowpoke, attempts[..|answers| + 1]), answer.0,
                   answer.1)
    ensures AllRight(b, rowpoke, init, attempts, answers + [answer])
  {
    hide DataAfter, Right, Fits;
  }
}
