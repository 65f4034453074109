/**
 * How the UI decides which headers, flags and bodies to ask the IMAP side
 * for: a UID is queued only when it is neither cached nor already asked
 * for, and is marked as asked for in the same step; the queued UIDs are
 * sent in ascending batches of a fixed size.
 */
module Fetch {
  import opened MailTypes
  import opened Util

  /** The UIDs of a walk that are neither excluded (cached, or asked for elsewhere) nor already marked. */
  function Wanted(candidates: seq<Uid>, exclude: set<Uid>, marked: set<Uid>): set<Uid>
  {
    set i | 0 <= i < |candidates| && candidates[i] !in exclude && candidates[i] !in marked :: candidates[i]
  }

  /**
   * The deduplication loop shared by the message list, the message view and
   * the full-sync branch: walk the candidates in order and queue each UID
   * that is not excluded and not yet marked, marking it at once.
   */
  method Claim(candidates: seq<Uid>, exclude: set<Uid>, marked: set<Uid>)
    returns (queued: set<Uid>, newMarked: set<Uid>)
    ensures queued == Wanted(candidates, exclude, marked)
    ensures newMarked == marked + queued
  {
    queued := {};
    newMarked := marked;
    var i := 0;
    while i < |candidates|
      invariant 0 <= i <= |candidates|
      invariant queued == Wanted(candidates[..i], exclude, marked)
      invariant newMarked == marked + queued
    {
      var uid := candidates[i];
      if uid !in exclude && uid !in newMarked {
        queued := queued + {uid};
        newMarked := newMarked + {uid};
      }
      assert candidates[..i + 1] == candidates[..i] + [uid];
      i := i + 1;
    }
    assert candidates[..i] == candidates;
  }

  /**
   * Nothing queued was cached, marked or excluded before, every candidate
   * that was none of these is queued, and walking the same candidates again
   * with the new marks queues nothing: no UID is ever asked for twice.
   */
  lemma {:induction false} ClaimOnce(candidates: seq<Uid>, exclude: set<Uid>, marked: set<Uid>)
    ensures Wanted(candidates, exclude, marked) !! (exclude + marked)
    ensures forall i :: 0 <= i < |candidates| && candidates[i] !in exclude + marked ==>
      candidates[i] in Wanted(candidates, exclude, marked)
    ensures Wanted(candidates, exclude, marked + Wanted(candidates, exclude, marked)) == {}
  {
    var w := Wanted(candidates, exclude, marked);
    forall i | 0 <= i < |candidates| && candidates[i] !in exclude + marked
      ensures candidates[i] in w
    {
    }
    forall i | 0 <= i < |candidates|
      ensures candidates[i] in exclude || candidates[i] in marked + w
    {
    }
  }

  /** After a claim, every candidate is excluded, or marked before or now. */
  lemma CoveredByClaim(candidates: seq<Uid>, exclude: set<Uid>, marked: set<Uid>)
    ensures forall u | u in candidates :: u in exclude || u in marked + Wanted(candidates, exclude, marked)
  {
    forall u | u in candidates
      ensures u in exclude || u in marked + Wanted(candidates, exclude, marked)
    {
      var i :| 0 <= i < |candidates| && candidates[i] == u;
    }
  }

  /**
   * The same loop over a std::set of candidates, walked in ascending
   * order: the full-sync branch passes the cached and the requested UIDs
   * as excluded and marks the prefetched ones.
   */
  method ClaimSet(candidates: set<Uid>, exclude: set<Uid>, marked: set<Uid>)
    returns (queued: set<Uid>, newMarked: set<Uid>)
    ensures queued == candidates - exclude - marked
    ensures newMarked == marked + queued
  {
    queued, newMarked := {}, marked;
    var rest := candidates;
    while rest != {}
      invariant rest <= candidates
      invariant queued == (candidates - rest) - exclude - marked
      invariant newMarked == marked + queued
      decreases |rest|
    {
      var uid := Min(rest);
      if uid !in exclude && uid !in newMarked {
        queued := queued + {uid};
        newMarked := newMarked + {uid};
      }
      rest := rest - {uid};
    }
  }

  /** How DrawMessageList treats a drawn row's body: the cursor's row, the rows next to it, and the others. */
  datatype RowKind = CursorRow | NextToCursor | OtherRow

  function KindOf(row: int, cur: int): RowKind
  {
    if row == cur then CursorRow
    else if row - cur == 1 || cur - row == 1 then NextToCursor
    else OtherRow
  }

  /** The prefetch level at which a row of this kind has its body fetched. */
  predicate BodyWanted(kind: RowKind, level: PrefetchLevel)
  {
    if kind == CursorRow then level.AtLeast(LevelCurrentMessage) else level.AtLeast(LevelCurrentView)
  }

  /**
   * The body part of DrawMessageList's row loop, as a function of the rows
   * walked so far (the first of them at list position first): the bodies
   * queued for the cursor's row (pri), for the rows next to it (sec), and
   * for prefetching (pre). A body already cached, requested (before or in
   * this walk) or, for a prefetch, prefetched is left alone.
   */
  function RowBodies(rows: seq<Uid>, first: int, cur: int, level: PrefetchLevel,
                     cached: set<Uid>, requested: set<Uid>, prefetched: set<Uid>): (set<Uid>, set<Uid>, set<Uid>)
  {
    if |rows| == 0 then ({}, {}, {})
    else
      var (pri, sec, pre) := RowBodies(rows[..|rows| - 1], first, cur, level, cached, requested, prefetched);
      var uid := rows[|rows| - 1];
      var unasked := uid !in cached && uid !in requested + pri + sec;
      match KindOf(first + |rows| - 1, cur)
      case CursorRow =>
        if unasked && level.AtLeast(LevelCurrentMessage) then (pri + {uid}, sec, pre) else (pri, sec, pre)
      case NextToCursor =>
        if unasked && level.AtLeast(LevelCurrentView) then (pri, sec + {uid}, pre) else (pri, sec, pre)
      case OtherRow =>
        if unasked && uid !in prefetched + pre && level.AtLeast(LevelCurrentView) then (pri, sec, pre + {uid})
        else (pri, sec, pre)
  }

  /** Row u of rows is at list position first + i and is of the kind. */
  predicate RowOfKind(rows: seq<Uid>, u: Uid, first: int, cur: int, kind: RowKind)
  {
    exists i :: 0 <= i < |rows| && rows[i] == u && KindOf(first + i, cur) == kind
  }

  /**
   * What DrawMessageList's body claims promise: nothing queued was cached
   * or asked for, nothing is prefetched twice, each body is fetched only at
   * the prefetch level its kind needs, and afterwards every row whose body
   * that level wants is cached, requested or prefetched.
   */
  lemma {:induction false} RowBodiesClaims(rows: seq<Uid>, first: int, cur: int, level: PrefetchLevel,
                                           cached: set<Uid>, requested: set<Uid>, prefetched: set<Uid>)
    ensures var (pri, sec, pre) := RowBodies(rows, first, cur, level, cached, requested, prefetched);
      && (pri + sec + pre) !! (cached + requested) && pre !! prefetched
      && (pri != {} ==> level.AtLeast(LevelCurrentMessage))
      && (sec + pre != {} ==> level.AtLeast(LevelCurrentView))
      && (forall i | 0 <= i < |rows| && rows[i] !in cached && BodyWanted(KindOf(first + i, cur), level) ::
            rows[i] in requested + pri + sec + prefetched + pre)
  {
    if |rows| > 0 {
      RowBodiesClaims(rows[..|rows| - 1], first, cur, level, cached, requested, prefetched);
    }
  }

  /** Each body the claims queue is a drawn row of the kind its set is for. */
  lemma {:induction false} RowBodiesKinds(rows: seq<Uid>, first: int, cur: int, level: PrefetchLevel,
                                          cached: set<Uid>, requested: set<Uid>, prefetched: set<Uid>)
    ensures var (pri, sec, pre) := RowBodies(rows, first, cur, level, cached, requested, prefetched);
      && (forall u | u in pri :: RowOfKind(rows, u, first, cur, CursorRow))
      && (forall u | u in sec :: RowOfKind(rows, u, first, cur, NextToCursor))
      && (forall u | u in pre :: RowOfKind(rows, u, first, cur, OtherRow))
  {
    if |rows| > 0 {
      var init := rows[..|rows| - 1];
      RowBodiesKinds(init, first, cur, level, cached, requested, prefetched);
      forall u, k | RowOfKind(init, u, first, cur, k)
        ensures RowOfKind(rows, u, first, cur, k)
      {
        var i :| 0 <= i < |init| && init[i] == u && KindOf(first + i, cur) == k;
        assert rows[i] == u;
      }
      assert RowOfKind(rows, rows[|rows| - 1], first, cur, KindOf(first + |rows| - 1, cur));
    }
  }

  /** The loop of DrawMessageList over the drawn rows, marking as it goes (RowBodies). */
  method ClaimRowBodies(rows: seq<Uid>, first: int, cur: int, level: PrefetchLevel,
                        cached: set<Uid>, requested: set<Uid>, prefetched: set<Uid>)
    returns (pri: set<Uid>, sec: set<Uid>, pre: set<Uid>, newRequested: set<Uid>, newPrefetched: set<Uid>)
    ensures (pri, sec, pre) == RowBodies(rows, first, cur, level, cached, requested, prefetched)
    ensures newRequested == requested + pri + sec
    ensures newPrefetched == prefetched + pre
  {
    pri, sec, pre := {}, {}, {};
    newRequested, newPrefetched := requested, prefetched;
    var j := 0;
    while j < |rows|
      invariant 0 <= j <= |rows|
      invariant (pri, sec, pre) == RowBodies(rows[..j], first, cur, level, cached, requested, prefetched)
      invariant newRequested == requested + pri + sec
      invariant newPrefetched == prefetched + pre
    {
      var uid := rows[j];
      var kind := KindOf(first + j, cur);
      assert rows[..j + 1][..j] == rows[..j];
      if kind == CursorRow {
        if uid !in cached && uid !in newRequested && level.AtLeast(LevelCurrentMessage) {
          newRequested := newRequested + {uid};
          pri := pri + {uid};
        }
      } else if kind == NextToCursor {
        if uid !in cached && uid !in newRequested && level.AtLeast(LevelCurrentView) {
          newRequested := newRequested + {uid};
          sec := sec + {uid};
        }
      } else {
        if uid !in cached && uid !in newPrefetched && uid !in newRequested && level.AtLeast(LevelCurrentView) {
          newPrefetched := newPrefetched + {uid};
          pre := pre + {uid};
        }
      }
      j := j + 1;
    }
    assert rows[..j] == rows;
  }

  /** Every element of a is below every element of b. */
  predicate AllBelow(a: set<Uid>, b: set<Uid>)
  {
    forall x, y | x in a && y in b :: x < y
  }

  function UnionOf(chunks: seq<set<Uid>>): set<Uid>
  {
    if |chunks| == 0 then {} else UnionOf(chunks[..|chunks| - 1]) + chunks[|chunks| - 1]
  }

  /** The shape of a batching: non-empty batches of at most max, all full but the last, in ascending order. */
  predicate Batched(chunks: seq<set<Uid>>, max: nat)
  {
    && (forall i :: 0 <= i < |chunks| ==> 0 < |chunks[i]| <= max)
    && (forall i :: 0 <= i < |chunks| - 1 ==> |chunks[i]| == max)
    && (forall i, j :: 0 <= i < j < |chunks| ==> AllBelow(chunks[i], chunks[j]))
  }

  /** Every batch holds exactly max UIDs. */
  predicate AllFull(chunks: seq<set<Uid>>, max: nat)
  {
    forall i :: 0 <= i < |chunks| ==> |chunks[i]| == max
  }

  /** Every batch lies below every UID of t. */
  predicate EachBelow(chunks: seq<set<Uid>>, t: set<Uid>)
  {
    forall i :: 0 <= i < |chunks| ==> AllBelow(chunks[i], t)
  }

  lemma UnionBelow(chunks: seq<set<Uid>>, s: set<Uid>)
    requires EachBelow(chunks, s)
    ensures AllBelow(UnionOf(chunks), s)
  {
    if |chunks| > 0 {
      UnionBelow(chunks[..|chunks| - 1], s);
    }
  }

  /** Sending one more batch: the batches so far were full and below it and below what is left. */
  lemma Emit(chunks: seq<set<Uid>>, subset: set<Uid>, rest: set<Uid>, max: nat)
    requires Batched(chunks, max) && 0 < |subset| <= max
    requires AllFull(chunks, max)
    requires EachBelow(chunks, subset + rest)
    requires AllBelow(subset, rest)
    ensures Batched(chunks + [subset], max)
    ensures UnionOf(chunks + [subset]) == UnionOf(chunks) + subset
    ensures EachBelow(chunks + [subset], rest)
    ensures |subset| == max ==> AllFull(chunks + [subset], max)
  {
    var c := chunks + [subset];
    assert c[..|c| - 1] == chunks;
    forall i, j | 0 <= i < j < |c|
      ensures AllBelow(c[i], c[j])
    {
      if j == |chunks| {
        assert AllBelow(chunks[i], subset + rest);
      }
    }
    forall i | 0 <= i < |c|
      ensures AllBelow(c[i], rest)
    {
      if i < |chunks| {
        assert AllBelow(chunks[i], subset + rest);
      }
    }
  }

  /** The state of the batching loop: what is sent, what is being gathered and what is left. */
  ghost predicate BatchState(queued: set<Uid>, max: nat, chunks: seq<set<Uid>>, subset: set<Uid>, rest: set<Uid>)
  {
    && UnionOf(chunks) + subset + rest == queued
    && |subset| < max
    && Batched(chunks, max)
    && (rest != {} ==> AllFull(chunks, max))
    && EachBelow(chunks, subset + rest)
    && AllBelow(subset, rest)
    && (subset != {} ==> rest != {})
  }

  lemma MoveOne(subset: set<Uid>, rest: set<Uid>, uid: Uid)
    requires uid in rest && IsLowerBound(uid, rest) && AllBelow(subset, rest)
    ensures (subset + {uid}) + (rest - {uid}) == subset + rest
    ensures AllBelow(subset + {uid}, rest - {uid})
  {
  }

  lemma BelowAll(chunks: seq<set<Uid>>, s: set<Uid>, t: set<Uid>)
    requires EachBelow(chunks, s)
    requires t <= s
    ensures EachBelow(chunks, t)
  {
  }

  /** Gathering the smallest UID left, and sending the batch if it is full or nothing is left, keeps the state. */
  lemma Gather(queued: set<Uid>, max: nat, chunks: seq<set<Uid>>, subset: set<Uid>, rest: set<Uid>, uid: Uid)
    requires BatchState(queued, max, chunks, subset, rest)
    requires uid in rest && IsLowerBound(uid, rest)
    ensures var s, r := subset + {uid}, rest - {uid};
      if |s| == max || r == {} then BatchState(queued, max, chunks + [s], {}, r)
      else BatchState(queued, max, chunks, s, r)
  {
    var s, r := subset + {uid}, rest - {uid};
    MoveOne(subset, rest, uid);
    BelowAll(chunks, subset + rest, s + r);
    if |s| == max || r == {} {
      GatherEmit(queued, max, chunks, s, r);
    } else {
      GatherKeep(queued, max, chunks, s, r);
    }
  }

  /** The gathered batch is sent. */
  lemma GatherEmit(queued: set<Uid>, max: nat, chunks: seq<set<Uid>>, s: set<Uid>, r: set<Uid>)
    requires UnionOf(chunks) + (s + r) == queued
    requires Batched(chunks, max) && 0 < |s| <= max
    requires AllFull(chunks, max)
    requires EachBelow(chunks, s + r)
    requires AllBelow(s, r)
    requires |s| == max || r == {}
    ensures BatchState(queued, max, chunks + [s], {}, r)
  {
    Emit(chunks, s, r, max);
    assert {} + r == r;
    assert UnionOf(chunks + [s]) + {} + r == queued;
  }

  /** The gathered batch is kept open. */
  lemma GatherKeep(queued: set<Uid>, max: nat, chunks: seq<set<Uid>>, s: set<Uid>, r: set<Uid>)
    requires UnionOf(chunks) + (s + r) == queued
    requires Batched(chunks, max) && |s| < max && r != {}
    requires AllFull(chunks, max)
    requires EachBelow(chunks, s + r)
    requires AllBelow(s, r)
    ensures BatchState(queued, max, chunks, s, r)
  {
    assert UnionOf(chunks) + s + r == UnionOf(chunks) + (s + r);
  }

  lemma {:induction false} UnionHolds(chunks: seq<set<Uid>>, i: int)
    requires 0 <= i < |chunks|
    ensures chunks[i] <= UnionOf(chunks)
  {
    if i < |chunks| - 1 {
      UnionHolds(chunks[..|chunks| - 1], i);
    }
  }

  /**
   * The batching loop: add the queued UIDs in ascending order to a batch,
   * and send the batch when it holds max UIDs or the last UID has been
   * added. The source uses max 25 for headers, 1000 for flags and 1 for
   * full-sync bodies.
   */
  method Batches(queued: set<Uid>, max: nat) returns (chunks: seq<set<Uid>>)
    requires max >= 1
    ensures UnionOf(chunks) == queued
    ensures Batched(chunks, max)
    ensures |chunks| == 0 <==> queued == {}
    ensures chunks == Batching(queued, max)
  {
    chunks := [];
    var subset: set<Uid> := {};
    var rest := queued;
    while rest != {}
      invariant BatchState(queued, max, chunks, subset, rest)
      decreases |rest|
    {
      var uid := Min(rest);
      Gather(queued, max, chunks, subset, rest, uid);
      subset, rest := subset + {uid}, rest - {uid};
      if |subset| == max || rest == {} {
        chunks, subset := chunks + [subset], {};
      }
    }
    if |chunks| > 0 {
      UnionHolds(chunks, 0);
    }
    BatchingUnique(chunks, queued, max);
  }

  /** The n smallest UIDs of s, or all of s when it holds fewer. */
  function Lowest(s: set<Uid>, n: nat): (r: set<Uid>)
    ensures r <= s
    ensures |r| == if n < |s| then n else |s|
    ensures AllBelow(r, s - r)
    decreases n
  {
    if n == 0 || s == {} then {}
    else
      var m := Min(s);
      var rest := Lowest(s - {m}, n - 1);
      AddMin(s, m, rest);
      {m} + rest
  }

  /** The smallest UID in front of a set of the smallest UIDs of the rest. */
  lemma AddMin(s: set<Uid>, m: Uid, rest: set<Uid>)
    requires m in s && IsLowerBound(m, s)
    requires rest <= s - {m} && AllBelow(rest, (s - {m}) - rest)
    ensures |{m} + rest| == |rest| + 1 && |s - {m}| == |s| - 1
    ensures AllBelow({m} + rest, s - ({m} + rest))
  {
    assert s - ({m} + rest) == (s - {m}) - rest;
  }

  /** The batches the batching loop sends for s: the max smallest UIDs, then the batches of the rest. */
  function Batching(s: set<Uid>, max: nat): (r: seq<set<Uid>>)
    requires max >= 1
    decreases |s|
  {
    if s == {} then []
    else
      var b := Lowest(s, max);
      SubsetSize(s, b);
      [b] + Batching(s - b, max)
  }

  /** Taking a subset away leaves the difference of the sizes. */
  lemma SubsetSize(s: set<Uid>, b: set<Uid>)
    requires b <= s
    ensures |s - b| == |s| - |b|
  {
    assert s == (s - b) + b;
  }

  /** The union of batches, taken from the front. */
  lemma {:induction false} UnionFront(b: set<Uid>, rest: seq<set<Uid>>)
    ensures UnionOf([b] + rest) == b + UnionOf(rest)
    decreases |rest|
  {
    if |rest| > 0 {
      var c := [b] + rest;
      assert c[..|c| - 1] == [b] + rest[..|rest| - 1];
      UnionFront(b, rest[..|rest| - 1]);
    }
  }

  /** A set below every batch is below their union. */
  lemma {:induction false} BelowUnion(b: set<Uid>, chunks: seq<set<Uid>>)
    requires forall j :: 0 <= j < |chunks| ==> AllBelow(b, chunks[j])
    ensures AllBelow(b, UnionOf(chunks))
    decreases |chunks|
  {
    if |chunks| > 0 {
      BelowUnion(b, chunks[..|chunks| - 1]);
    }
  }

  /** A batch below a batching, full unless alone, makes a batching in front of it. */
  lemma BatchedFront(b: set<Uid>, rest: seq<set<Uid>>, max: nat)
    requires Batched(rest, max) && 0 < |b| <= max && (|rest| > 0 ==> |b| == max)
    requires forall j :: 0 <= j < |rest| ==> AllBelow(b, rest[j])
    ensures Batched([b] + rest, max)
  {
    var c := [b] + rest;
    assert forall i :: 1 <= i < |c| ==> c[i] == rest[i - 1];
    forall i, j | 0 <= i < j < |c|
      ensures AllBelow(c[i], c[j])
    {
      if i > 0 {
        assert AllBelow(rest[i - 1], rest[j - 1]);
      }
    }
  }

  /** What follows the first batch of a batching is a batching, above the first batch. */
  lemma BatchedTail(chunks: seq<set<Uid>>, max: nat)
    requires Batched(chunks, max) && |chunks| > 0
    ensures Batched(chunks[1..], max)
    ensures forall j :: 0 <= j < |chunks| - 1 ==> AllBelow(chunks[0], chunks[1..][j])
  {
    var rest := chunks[1..];
    assert forall i :: 0 <= i < |rest| ==> rest[i] == chunks[i + 1];
    forall i, j | 0 <= i < j < |rest|
      ensures AllBelow(rest[i], rest[j])
    {
      assert AllBelow(chunks[i + 1], chunks[j + 1]);
    }
    forall j | 0 <= j < |rest|
      ensures AllBelow(chunks[0], rest[j])
    {
      assert AllBelow(chunks[0], chunks[j + 1]);
    }
  }

  /** The smallest UID of s is in any non-empty part of s that lies below the rest of s. */
  lemma MinInLowPart(s: set<Uid>, b: set<Uid>)
    requires b <= s && b != {} && AllBelow(b, s - b)
    ensures Min(s) in b
  {
    var m := Min(s);
    var x :| x in b;
    assert m <= x;
    assert m !in s - b;
  }

  /** Taking one UID of b out of both b and s. */
  lemma DropMin(s: set<Uid>, b: set<Uid>, m: Uid)
    requires m in b && b <= s
    ensures |b - {m}| == |b| - 1 && |s - {m}| == |s| - 1
    ensures (s - {m}) - (b - {m}) == s - b && b == {m} + (b - {m})
  {
  }

  /** Lowest is the only way to pick min(n, |s|) UIDs of s that lie below the others. */
  lemma {:induction false} LowestUnique(s: set<Uid>, b: set<Uid>, n: nat)
    requires b <= s && |b| == (if n < |s| then n else |s|) && AllBelow(b, s - b)
    ensures b == Lowest(s, n)
    decreases n
  {
    if n == 0 || s == {} {
      assert |b| == 0;
    } else {
      var m := Min(s);
      MinInLowPart(s, b);
      var b' := b - {m};
      DropMin(s, b, m);
      assert |b'| == (if n - 1 < |s - {m}| then n - 1 else |s - {m}|);
      LowestUnique(s - {m}, b', n - 1);
      assert Lowest(s, n) == {m} + Lowest(s - {m}, n - 1);
    }
  }

  /** The batches Batching gives have the shape of a batching and hold exactly s. */
  lemma {:induction false} BatchingShape(s: set<Uid>, max: nat)
    requires max >= 1
    ensures Batched(Batching(s, max), max)
    ensures UnionOf(Batching(s, max)) == s
    ensures |Batching(s, max)| == 0 <==> s == {}
    decreases |s|
  {
    if s != {} {
      var b := Lowest(s, max);
      SubsetSize(s, b);
      var rest := Batching(s - b, max);
      BatchingShape(s - b, max);
      assert Batching(s, max) == [b] + rest;
      UnionFront(b, rest);
      assert |rest| > 0 ==> |b| == max;
      BelowBatches(b, rest, s - b);
      BatchedFront(b, rest, max);
    }
  }

  /** A set below a set is below each batch of it. */
  lemma BelowBatches(b: set<Uid>, chunks: seq<set<Uid>>, t: set<Uid>)
    requires AllBelow(b, t) && UnionOf(chunks) == t
    ensures forall j :: 0 <= j < |chunks| ==> AllBelow(b, chunks[j])
  {
    forall j | 0 <= j < |chunks|
      ensures AllBelow(b, chunks[j])
    {
      UnionHolds(chunks, j);
    }
  }

  /** Any batching of s is the one Batching gives: the batching loop's result is determined by s and max. */
  lemma {:induction false} BatchingUnique(chunks: seq<set<Uid>>, s: set<Uid>, max: nat)
    requires max >= 1 && Batched(chunks, max) && UnionOf(chunks) == s
    ensures chunks == Batching(s, max)
    decreases |chunks|
  {
    if |chunks| > 0 {
      var b, rest := chunks[0], chunks[1..];
      assert chunks == [b] + rest;
      UnionFront(b, rest);
      BatchedTail(chunks, max);
      BelowUnion(b, rest);
      assert s - b == UnionOf(rest);
      if |rest| == 0 {
        assert s == b;
      }
      LowestUnique(s, b, max);
      BatchingUnique(rest, s - b, max);
    }
  }
}
