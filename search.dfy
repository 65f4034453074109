/**
 * Server-side search results as the message list shows them: two parallel
 * vectors (the headers, and the folder and UID of each hit) filled page by
 * page, and the removal of moved or deleted messages from them.
 */
module SearchResults {
  import opened MailTypes

  type FolderUid = (Folder, Uid)

  /** The two vectors after Ui::SearchHandler: offset 0 replaces them, a later offset appends. */
  function MergePage(headers: seq<Header>, folderUids: seq<FolderUid>, offset: nat, page: SearchResult)
    : (r: (seq<Header>, seq<FolderUid>))
  {
    if offset == 0 then (page.headers, page.folderUids)
    else (headers + page.headers, folderUids + page.folderUids)
  }

  /**
   * Pages kept in step stay in step, and a later page extends the results
   * without touching what is already listed; a first page discards it.
   */
  lemma MergeKeepsParallel(headers: seq<Header>, folderUids: seq<FolderUid>, offset: nat, page: SearchResult)
    requires |headers| == |folderUids| && |page.headers| == |page.folderUids|
    ensures var r := MergePage(headers, folderUids, offset, page);
      && |r.0| == |r.1|
      && (offset > 0 ==> r.0[..|headers|] == headers && r.1[..|folderUids|] == folderUids)
      && |r.1| == (if offset == 0 then 0 else |folderUids|) + |page.folderUids|
  {
  }

  /** Three pages in a row, the first at offset 0, leave the three pages' hits in order, whatever was listed before. */
  lemma PagesAccumulate(headers: seq<Header>, folderUids: seq<FolderUid>, p1: SearchResult, o2: nat, p2: SearchResult, o3: nat, p3: SearchResult)
    requires o2 > 0 && o3 > 0
    ensures var a := MergePage(headers, folderUids, 0, p1);
      var b := MergePage(a.0, a.1, o2, p2);
      var c := MergePage(b.0, b.1, o3, p3);
      c == (p1.headers + p2.headers + p3.headers, p1.folderUids + p2.folderUids + p3.folderUids)
  {
  }

  /** Whether Ui::UpdateUidFromIndex asks for the next page: more exist and the cursor is within a screen of the end. */
  predicate NextPageDue(hasMore: bool, index: int, height: int, count: nat)
  {
    hasMore && index + height >= count
  }

  /** A search hit that names one of the moved or deleted messages. */
  predicate Removed(fu: FolderUid, folder: Folder, uids: set<Uid>)
  {
    fu.0 == folder && fu.1 in uids
  }

  /**
   * The erase loop of Ui::MoveMessages and Ui::DeleteMessages as written,
   * from position i on: a matching hit is erased from both vectors and the
   * loop still moves on to i + 1, so the hit that slid into position i is
   * never looked at.
   */
  function EraseLoop(headers: seq<Header>, folderUids: seq<FolderUid>, folder: Folder, uids: set<Uid>, i: nat)
    : (r: (seq<Header>, seq<FolderUid>))
    requires |headers| == |folderUids|
    ensures |r.0| == |r.1|
    decreases |folderUids| - i
  {
    if i >= |folderUids| then (headers, folderUids)
    else if Removed(folderUids[i], folder, uids) then
      EraseLoop(headers[..i] + headers[i + 1..], folderUids[..i] + folderUids[i + 1..], folder, uids, i + 1)
    else EraseLoop(headers, folderUids, folder, uids, i + 1)
  }

  /** The loop itself, with resultCount shrinking on each erase. */
  method EraseAsWritten(headers: seq<Header>, folderUids: seq<FolderUid>, folder: Folder, uids: set<Uid>)
    returns (h: seq<Header>, f: seq<FolderUid>)
    requires |headers| == |folderUids|
    ensures (h, f) == EraseLoop(headers, folderUids, folder, uids, 0)
  {
    h, f := headers, folderUids;
    var resultCount := |h|;
    var i := 0;
    while i < resultCount
      invariant |h| == |f| == resultCount && 0 <= i
      invariant EraseLoop(h, f, folder, uids, i) == EraseLoop(headers, folderUids, folder, uids, 0)
      decreases resultCount - i
    {
      if Removed(f[i], folder, uids) {
        f := f[..i] + f[i + 1..];
        h := h[..i] + h[i + 1..];
        resultCount := resultCount - 1;
      }
      i := i + 1;
    }
  }

  /** Two adjacent hits on moved messages: the second one stays listed. */
  lemma AdjacentHitSurvives(h1: Header, h2: Header, folder: Folder, u1: Uid, u2: Uid)
    ensures var r := EraseLoop([h1, h2], [(folder, u1), (folder, u2)], folder, {u1, u2}, 0);
      r == ([h2], [(folder, u2)]) && Removed(r.1[0], folder, {u1, u2})
  {
    var hs, fs := [h1, h2], [(folder, u1), (folder, u2)];
    assert hs[..0] + hs[1..] == [h2];
    assert fs[..0] + fs[1..] == [(folder, u2)];
  }

  /** The hits that stay: every hit that does not name a removed message, in order, with its header. */
  function KeepUnmatched(headers: seq<Header>, folderUids: seq<FolderUid>, folder: Folder, uids: set<Uid>)
    : (r: (seq<Header>, seq<FolderUid>))
    requires |headers| == |folderUids|
    ensures |r.0| == |r.1| <= |folderUids|
    ensures forall k :: 0 <= k < |r.1| ==> !Removed(r.1[k], folder, uids)
    ensures forall k :: 0 <= k < |folderUids| && !Removed(folderUids[k], folder, uids) ==> folderUids[k] in r.1
    ensures forall k :: 0 <= k < |r.1| ==> r.1[k] in folderUids
  {
    if |folderUids| == 0 then ([], [])
    else
      var rest := KeepUnmatched(headers[1..], folderUids[1..], folder, uids);
      assert forall k :: 1 <= k < |folderUids| ==> folderUids[k] == folderUids[1..][k - 1];
      if Removed(folderUids[0], folder, uids) then rest
      else ([headers[0]] + rest.0, [folderUids[0]] + rest.1)
  }

  /** Erasing in two steps is erasing once: what stays after a first removal, filtered again, is what one removal of both leaves. */
  lemma {:induction false} KeepUnmatchedTwice(headers: seq<Header>, folderUids: seq<FolderUid>, folder: Folder, us: set<Uid>, vs: set<Uid>)
    requires |headers| == |folderUids|
    ensures var a := KeepUnmatched(headers, folderUids, folder, us);
      KeepUnmatched(a.0, a.1, folder, vs) == KeepUnmatched(headers, folderUids, folder, us + vs)
  {
    if |folderUids| > 0 {
      KeepUnmatchedTwice(headers[1..], folderUids[1..], folder, us, vs);
      var a := KeepUnmatched(headers, folderUids, folder, us);
      var rest := KeepUnmatched(headers[1..], folderUids[1..], folder, us);
      if !Removed(folderUids[0], folder, us) {
        assert a.0[1..] == rest.0 && a.1[1..] == rest.1;
      }
    }
  }

  /** Filtering a list that names no removed message leaves it as it is. */
  lemma {:induction false} KeepUnmatchedNothing(headers: seq<Header>, folderUids: seq<FolderUid>, folder: Folder, uids: set<Uid>)
    requires |headers| == |folderUids|
    requires forall k :: 0 <= k < |folderUids| ==> !Removed(folderUids[k], folder, uids)
    ensures KeepUnmatched(headers, folderUids, folder, uids) == (headers, folderUids)
  {
    if |folderUids| > 0 {
      KeepUnmatchedNothing(headers[1..], folderUids[1..], folder, uids);
      assert [headers[0]] + headers[1..] == headers;
      assert [folderUids[0]] + folderUids[1..] == folderUids;
    }
  }

  /** Erasing one hit that names a removed message does not change what the filter keeps. */
  lemma {:induction false} KeepUnmatchedErase(headers: seq<Header>, folderUids: seq<FolderUid>, folder: Folder, uids: set<Uid>, i: nat)
    requires |headers| == |folderUids| && i < |folderUids|
    requires Removed(folderUids[i], folder, uids)
    ensures KeepUnmatched(headers[..i] + headers[i + 1..], folderUids[..i] + folderUids[i + 1..], folder, uids)
         == KeepUnmatched(headers, folderUids, folder, uids)
  {
    var h2, f2 := headers[..i] + headers[i + 1..], folderUids[..i] + folderUids[i + 1..];
    if i == 0 {
      assert h2 == headers[1..] && f2 == folderUids[1..];
    } else {
      KeepUnmatchedErase(headers[1..], folderUids[1..], folder, uids, i - 1);
      assert h2[1..] == headers[1..][..i - 1] + headers[1..][i..];
      assert f2[1..] == folderUids[1..][..i - 1] + folderUids[1..][i..];
      assert h2[0] == headers[0] && f2[0] == folderUids[0];
    }
  }

  /**
   * The corrected loop: after an erase the same position is looked at
   * again, so every hit is examined once.
   */
  method EraseSearchHits(headers: seq<Header>, folderUids: seq<FolderUid>, folder: Folder, uids: set<Uid>)
    returns (h: seq<Header>, f: seq<FolderUid>)
    requires |headers| == |folderUids|
    ensures (h, f) == KeepUnmatched(headers, folderUids, folder, uids)
  {
    h, f := headers, folderUids;
    var i := 0;
    while i < |f|
      invariant |h| == |f| && 0 <= i <= |f|
      invariant forall k :: 0 <= k < i ==> !Removed(f[k], folder, uids)
      invariant KeepUnmatched(h, f, folder, uids) == KeepUnmatched(headers, folderUids, folder, uids)
      decreases |f| - i
    {
      if Removed(f[i], folder, uids) {
        KeepUnmatchedErase(h, f, folder, uids, i);
        f := f[..i] + f[i + 1..];
        h := h[..i] + h[i + 1..];
      } else {
        i := i + 1;
      }
    }
    KeepUnmatchedNothing(h, f, folder, uids);
  }
}
