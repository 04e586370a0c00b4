/**
 The dirty node indices of one tree level: a scratch array that is filtered, sorted, stripped of
 duplicates and halved in place.
 */
module DirtyList {
  import opened ChunkDigest

  ghost predicate StrictlySorted(s: seq<nat>) {
    forall i, j :: 0 <= i < j < |s| ==> s[i] < s[j]
  }

  ghost predicate Sorted(s: seq<nat>) {
    forall i, j :: 0 <= i < j < |s| ==> s[i] <= s[j]
  }

  ghost predicate SameElements(s: seq<nat>, t: seq<nat>) {
    forall x :: x in s <==> x in t
  }

  /** The chunks among the first n that some offset falls into. */
  ghost function DirtyChunks(offsets: seq<nat>, n: nat): set<nat> {
    set t | 0 <= t < |offsets| && offsets[t] / B3_CHUNK < n :: offsets[t] / B3_CHUNK
  }

  ghost function Elements(s: seq<nat>): set<nat> {
    set x | x in s
  }

  lemma {:induction false} StrictlySortedSize(s: seq<nat>)
    requires StrictlySorted(s)
    ensures |Elements(s)| == |s|
  {
    if s != [] {
      var front, last := s[..|s| - 1], s[|s| - 1];
      StrictlySortedSize(front);
      assert s == front + [last];
      assert Elements(s) == Elements(front) + {last};
      assert last !in front;
    }
  }

  /** The chunk of each offset, dropping those past the last chunk. */
  method CollectChunks(offsets: seq<nat>, n: nat, idx: array<nat>) returns (cnt: nat)
    requires |offsets| <= idx.Length
    modifies idx
    ensures cnt <= idx.Length
    ensures Elements(idx[..cnt]) == DirtyChunks(offsets, n)
  {
    cnt := 0;
    for t := 0 to |offsets|
      invariant cnt <= t
      invariant Elements(idx[..cnt]) == DirtyChunks(offsets[..t], n)
    {
      var c := offsets[t] / B3_CHUNK;
      assert offsets[..t + 1] == offsets[..t] + [offsets[t]];
      assert DirtyChunks(offsets[..t + 1], n) == DirtyChunks(offsets[..t], n) + if c < n then {c} else {} by {
        DirtyChunksStep(offsets[..t], offsets[t], n);
      }
      if c < n {
        ghost var before := idx[..cnt];
        idx[cnt] := c;
        cnt := cnt + 1;
        assert idx[..cnt] == before + [c];
      }
    }
    assert offsets[..|offsets|] == offsets;
  }

  lemma DirtyChunksStep(offsets: seq<nat>, x: nat, n: nat)
    ensures DirtyChunks(offsets + [x], n)
         == DirtyChunks(offsets, n) + if x / B3_CHUNK < n then {x / B3_CHUNK} else {}
  {
    var s := offsets + [x];
    forall t | 0 <= t < |offsets| && offsets[t] / B3_CHUNK < n
      ensures offsets[t] / B3_CHUNK in DirtyChunks(s, n)
    {
      assert s[t] == offsets[t];
    }
    assert s[|offsets|] == x;
  }

  function Insert(x: nat, s: seq<nat>): (r: seq<nat>)
    requires Sorted(s)
    ensures Sorted(r) && |r| == |s| + 1
    ensures forall y :: y in r <==> y == x || y in s
  {
    if s == [] || x <= s[0] then [x] + s
    else
      var tail := Insert(x, s[1..]);
      assert forall y :: y in tail ==> s[0] <= y;
      assert forall k :: 0 <= k < |tail| ==> tail[k] in tail;
      [s[0]] + tail
  }

  function SortSeq(s: seq<nat>): (r: seq<nat>)
    ensures Sorted(r) && |r| == |s| && SameElements(r, s)
  {
    if s == [] then [] else
      assert s == [s[0]] + s[1..];
      Insert(s[0], SortSeq(s[1..]))
  }

  /** `qsort` over the first cnt entries. */
  method Sort(idx: array<nat>, cnt: nat)
    requires cnt <= idx.Length
    modifies idx
    ensures Sorted(idx[..cnt]) && SameElements(idx[..cnt], old(idx[..cnt]))
  {
    var s := SortSeq(idx[..cnt]);
    for i := 0 to cnt
      invariant idx[..i] == s[..i]
    {
      idx[i] := s[i];
    }
    assert idx[..cnt] == s;
  }

  /** Drops the duplicates of a sorted prefix. */
  method Deduplicate(idx: array<nat>, cnt: nat) returns (w: nat)
    requires cnt <= idx.Length && Sorted(idx[..cnt])
    modifies idx
    ensures w <= cnt
    ensures StrictlySorted(idx[..w]) && SameElements(idx[..w], old(idx[..cnt]))
  {
    w := 0;
    ghost var s := idx[..cnt];
    for t := 0 to cnt
      invariant w <= t
      invariant w == 0 <==> t == 0
      invariant w > 0 ==> idx[w - 1] == s[t - 1]
      invariant StrictlySorted(idx[..w]) && SameElements(idx[..w], s[..t])
      invariant idx[t..cnt] == s[t..]
    {
      assert idx[t] == idx[t..cnt][0] == s[t];
      assert s[..t + 1] == s[..t] + [s[t]];
      if w == 0 || idx[w - 1] != idx[t] {
        ghost var before := idx[..w];
        assert w > 0 ==> s[t - 1] <= s[t];
        idx[w] := idx[t];
        w := w + 1;
        assert idx[..w] == before + [s[t]];
      }
      assert idx[t + 1..cnt] == s[t..][1..];
    }
    assert s[..cnt] == s;
  }

  /** The complete parents of a strictly sorted prefix of nodes, again strictly sorted. */
  method ParentsOf(idx: array<nat>, cnt: nat, len: nat) returns (w: nat)
    requires cnt <= idx.Length && StrictlySorted(idx[..cnt])
    modifies idx
    ensures w <= cnt && StrictlySorted(idx[..w])
    ensures forall v :: v in idx[..w] ==> v < len
    ensures forall v :: v in old(idx[..cnt]) && v / 2 < len ==> v / 2 in idx[..w]
  {
    w := 0;
    ghost var s := idx[..cnt];
    for t := 0 to cnt
      invariant w <= t
      invariant StrictlySorted(idx[..w])
      invariant forall v :: v in idx[..w] ==> v < len
      invariant t > 0 && w > 0 ==> idx[w - 1] <= s[t - 1] / 2
      invariant forall v :: v in s[..t] && v / 2 < len ==> v / 2 in idx[..w]
      invariant idx[t..cnt] == s[t..]
    {
      assert idx[t] == idx[t..cnt][0] == s[t];
      assert s[..t + 1] == s[..t] + [s[t]];
      assert t > 0 ==> s[t - 1] < s[t];
      var v := idx[t] / 2;
      if v < len && (w == 0 || idx[w - 1] != v) {
        ghost var before := idx[..w];
        idx[w] := v;
        w := w + 1;
        assert idx[..w] == before + [v];
      }
      assert idx[t + 1..cnt] == s[t..][1..];
    }
    assert s[..cnt] == s;
  }
}
