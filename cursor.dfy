/**
 * The message-list cursor: an index into the list read newest first and
 * the UID at that index, both kept per folder in int32_t maps.
 */
module Cursor {
  import opened MailTypes
  import opened Util
  import opened DisplayIndex

  /** Two to the 32, the number of uint32_t values. */
  const Two32: int := 0x1_0000_0000

  /** A uint32_t UID stored into an int32_t (two's complement). */
  function AsInt32(u: Uid): (r: int)
    ensures -0x8000_0000 <= r < 0x8000_0000
    ensures r == u || r == u - Two32
  {
    if u < 0x8000_0000 then u else u - Two32
  }

  /** An int32_t converted back to uint32_t, as std::set<uint32_t>::find and insert do with an int argument. */
  function AsUint32(x: int): (u: Uid)
    ensures 0 <= x < Two32 ==> u == x
    ensures -Two32 <= x < 0 ==> u == x + Two32
  {
    x % Two32
  }

  /** No two UIDs share an int32_t value, and the conversion back recovers the UID. */
  lemma Int32RoundTrip(u: Uid, v: Uid)
    ensures AsUint32(AsInt32(u)) == u
    ensures AsInt32(u) == AsInt32(v) ==> u == v
  {
  }

  /** The index Ui::UpdateUidFromIndex clamps to: 0..n-1, and 0 for an empty list. */
  function ClampIndex(idx: int, n: nat): (r: int)
    ensures n > 0 ==> 0 <= r < n
    ensures n == 0 ==> r == 0
    ensures 0 <= idx < n ==> r == idx
    ensures n > 0 && idx >= n ==> r == n - 1
    ensures idx < 0 ==> r == 0
  {
    Bound(0, idx, n - 1)
  }

  /** The current UID after Ui::UpdateUidFromIndex: the entry at the clamped index, or -1 when there is none. */
  function UidAt(list: seq<Uid>, idx: int): (r: int)
    ensures |list| > 0 ==> r == AsInt32(list[ClampIndex(idx, |list|)])
    ensures |list| == 0 ==> r == -1
  {
    if |list| > 0 then AsInt32(list[ClampIndex(idx, |list|)]) else -1
  }

  /** The position of the first entry whose int32_t value is current, or |list| when there is none. */
  function FirstMatch(list: seq<Uid>, current: int): (r: nat)
    ensures r <= |list|
    ensures r < |list| ==> AsInt32(list[r]) == current
    ensures forall j :: 0 <= j < r ==> AsInt32(list[j]) != current
  {
    if |list| == 0 then 0
    else if AsInt32(list[0]) == current then 0
    else 1 + FirstMatch(list[1..], current)
  }

  /**
   * The search loop of Ui::UpdateIndexFromUid: walk the list newest first
   * and stop at the first entry whose int32_t value is the current UID.
   */
  method FindIndex(list: seq<Uid>, current: int) returns (found: bool, idx: int)
    ensures found <==> FirstMatch(list, current) < |list|
    ensures found ==> idx == FirstMatch(list, current)
  {
    found, idx := false, 0;
    var i := 0;
    while i < |list|
      invariant 0 <= i <= |list|
      invariant forall j :: 0 <= j < i ==> AsInt32(list[j]) != current
    {
      if AsInt32(list[i]) == current {
        found, idx := true, i;
        return;
      }
      i := i + 1;
    }
  }

  /**
   * Picking the UID at an index and then looking that UID up again finds
   * the same index, when the list holds each UID once: the cursor survives
   * a round trip through its UID.
   */
  lemma PickThenFind(list: seq<Uid>, idx: int)
    requires NoDuplicates(list) && 0 <= idx < |list|
    ensures AsInt32(list[idx]) == UidAt(list, idx)
    ensures forall j :: 0 <= j < |list| && AsInt32(list[j]) == UidAt(list, idx) ==> j == idx
  {
    forall j | 0 <= j < |list| && AsInt32(list[j]) == UidAt(list, idx)
      ensures j == idx
    {
      Int32RoundTrip(list[j], list[idx]);
    }
  }

  /**
   * A UID that stays listed is found again after the list changed around
   * it: the index follows the message, not the position.
   */
  lemma FollowsMessage(before: seq<Uid>, after: seq<Uid>, idx: int, newIdx: int)
    requires NoDuplicates(after) && 0 <= idx < |before|
    requires 0 <= newIdx < |after| && after[newIdx] == before[idx]
    ensures forall j :: 0 <= j < |after| && AsInt32(after[j]) == UidAt(before, idx) ==> j == newIdx
  {
    forall j | 0 <= j < |after| && AsInt32(after[j]) == UidAt(before, idx)
      ensures j == newIdx
    {
      Int32RoundTrip(after[j], before[idx]);
    }
  }

  /** C++ integer division, which truncates toward zero. */
  function CDiv(a: int, b: int): (q: int)
    requires b > 0
    ensures a >= 0 ==> q == a / b
    ensures a < 0 ==> q == -((-a) / b)
  {
    if a >= 0 then a / b else -((-a) / b)
  }

  /** The first row shown: the cursor near the middle of the window, kept inside the list. */
  function WindowStart(cur: int, height: int, n: nat): int
  {
    Bound(0, cur - CDiv(height - 1, 2), if n - height > 0 then n - height else 0)
  }

  /** One past the last row drawn (DrawMessageList, DrawMessageListSearch). */
  function DrawWindowEnd(cur: int, height: int, n: nat): int
  {
    WindowStart(cur, height, n) + (if height < n then height else n)
  }

  /** One past the last row whose header and flags are fetched: the view and the page after it. */
  function FetchWindowEnd(cur: int, height: int, n: nat): int
  {
    var e := WindowStart(cur, height, n) + 2 * height;
    if e < n then e else n
  }

  /**
   * With a cursor inside the list and a window at least one row high, the
   * drawn rows lie inside the list and include the cursor's row, and the
   * fetched rows include every drawn row.
   */
  lemma WindowHoldsCursor(cur: int, height: int, n: nat)
    requires 0 <= cur < n && height >= 1
    ensures 0 <= WindowStart(cur, height, n) <= cur < DrawWindowEnd(cur, height, n) <= n
    ensures DrawWindowEnd(cur, height, n) <= FetchWindowEnd(cur, height, n) <= n
  {
    var half := CDiv(height - 1, 2);
    assert 0 <= half < height;
  }

  /** Whatever the stored cursor, a window of any height lies inside the list, the fetched rows starting where the drawn ones do. */
  lemma WindowInList(cur: int, height: int, n: nat)
    requires height >= 0
    ensures 0 <= WindowStart(cur, height, n) <= DrawWindowEnd(cur, height, n) <= n
    ensures WindowStart(cur, height, n) <= FetchWindowEnd(cur, height, n) <= n
  {
  }
}
