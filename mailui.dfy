/**
 * The Ui object's mail cache and view bookkeeping (src/ui.h, src/ui.cpp):
 * the per-folder UIDs, headers, flags and bodies the IMAP side delivered,
 * the display index of every folder and sort/filter mode with its version
 * counter, the sets of UIDs already asked for, the search results and the
 * message-list cursor. What the object hands to the IMAP and SMTP managers,
 * the offline queue and its own wake-up pipe is appended to logs.
 */
module MailUi {
  import opened ByteStrings
  import opened MailTypes
  import opened Util
  import opened DisplayKeys
  import opened DisplayIndex
  import opened Fetch
  import opened SearchResults
  import opened Cursor
  import opened SortModes
  import opened Selection
  import opened UiStates
  import opened ComposeHeader

  /** The key of m_DisplayUids and m_DisplayUidsVersion: a folder and one of its sort/filter modes. */
  type FolderMode = (Folder, SortFilter)

  /** What each part of a fetch request asks for. */
  datatype FetchKind = FetchHeaders | FetchFlags | FetchBodys

  /** A request for one batch of UIDs of one kind. */
  function BatchRequest(level: PrefetchLevel, folder: Folder, kind: FetchKind, batch: set<Uid>, processHtml: bool): (r: Request)
    ensures r.folder == folder && r.prefetchLevel == level && !r.getFolders && !r.getUids
    ensures r.getHeaders == (if kind == FetchHeaders then batch else {})
    ensures r.getFlags == (if kind == FetchFlags then batch else {})
    ensures r.getBodys == (if kind == FetchBodys then batch else {})
  {
    var r := EmptyRequest(folder).(prefetchLevel := level, processHtml := processHtml);
    match kind
    case FetchHeaders => r.(getHeaders := batch)
    case FetchFlags => r.(getFlags := batch)
    case FetchBodys => r.(getBodys := batch)
  }

  /** One request per batch, in batch order. */
  function BatchRequests(level: PrefetchLevel, folder: Folder, kind: FetchKind, batches: seq<set<Uid>>, processHtml: bool): (r: seq<Request>)
    ensures |r| == |batches|
    ensures forall i :: 0 <= i < |r| ==> r[i] == BatchRequest(level, folder, kind, batches[i], processHtml)
  {
    if |batches| == 0 then []
    else
      var last := BatchRequest(level, folder, kind, batches[|batches| - 1], processHtml);
      BatchRequests(level, folder, kind, batches[..|batches| - 1], processHtml) + [last]
  }


  /**
   * The warning ResponseHandler shows for a failed response: the first
   * failed part in the order folders, bodies, headers, UIDs, flags, login.
   */
  function ResponseErrorMessage(status: bv32): (r: Option<string>)
    ensures r.None? <==> status & 63 == 0
    ensures status & GetFoldersFailed != 0 ==> r == Some("Get folders failed")
    ensures status & GetFoldersFailed == 0 && status & GetBodysFailed != 0 ==> r == Some("Get message body failed")
  {
    if status == ResponseStatusOk then None
    else if status & GetFoldersFailed != 0 then Some("Get folders failed")
    else if status & GetBodysFailed != 0 then Some("Get message body failed")
    else if status & GetHeadersFailed != 0 then Some("Get message headers failed")
    else if status & GetUidsFailed != 0 then Some("Get message ids failed")
    else if status & GetFlagsFailed != 0 then Some("Get message flags failed")
    else if status & LoginFailed != 0 then Some("Login failed")
    else None
  }

  /** SmtpManager::Action, with the message text the compose screen produced. */
  datatype SmtpAction = SmtpAction(
    fields: Fields,             // From, To, Cc, Bcc, Att, Subject
    createdMsg: Bytes,          // a message built earlier, for m_IsSendCreatedMessage
    isSendMessage: bool,
    isCreateMessage: bool,
    isSendCreatedMessage: bool,
    composeDraftUid: Uid)

  /** The flags of a folder after the seen bit of each of us is set to seen; a missing flag word reads as 0. */
  function WithSeen(fl: map<Uid, FlagWord>, us: set<Uid>, seen: bool): (r: map<Uid, FlagWord>)
  {
    map u | u in fl.Keys + us :: if u in us then SetSeenBit(Get(fl, u, NoFlags), seen) else fl[u]
  }

  /**
   * Every UID of us reads as seen or unseen as asked, keeping its other
   * bits; every other UID keeps its flags; doing it twice is doing it once.
   */
  lemma WithSeenSpec(fl: map<Uid, FlagWord>, us: set<Uid>, seen: bool)
    ensures forall u | u in us ::
      && u in WithSeen(fl, us, seen)
      && WithSeen(fl, us, seen)[u].seen == seen
      && WithSeen(fl, us, seen)[u].otherBits == Get(fl, u, NoFlags).otherBits
    ensures forall u | u !in us ::
      && (u in WithSeen(fl, us, seen) <==> u in fl)
      && (u in fl ==> WithSeen(fl, us, seen)[u] == fl[u])
    ensures WithSeen(WithSeen(fl, us, seen), us, seen) == WithSeen(fl, us, seen)
  {
    var once := WithSeen(fl, us, seen);
    var twice := WithSeen(once, us, seen);
    assert twice.Keys == once.Keys;
    forall u | u in once
      ensures twice[u] == once[u]
    {
      if u in us {
        assert Get(once, u, NoFlags) == once[u];
      }
    }
  }

  /**
   * The SMTP action HandleConnected starts for one queued message: the
   * message is sent as it was created, with From, To, Cc and Bcc read back
   * from its header (headerFields, Header::SetData and its getters, whose
   * bodies are not part of this model).
   */
  function SendQueuedAction(msg: Bytes, headerFields: Bytes -> Fields): SmtpAction
  {
    var h := headerFields(msg);
    SmtpAction(Fields(h.from, h.to, h.cc, h.bcc, [], []), msg, false, false, true, 0)
  }

  /**
   * The rows of a list, newest first, whose headers and flags
   * DrawMessageList asks for: the drawn view and the page after it.
   */
  function FetchRows(list: seq<Uid>, cur: int, height: nat): seq<Uid>
  {
    WindowInList(cur, height, |list|);
    list[WindowStart(cur, height, |list|)..FetchWindowEnd(cur, height, |list|)]
  }

  /** The rows DrawMessageList draws, the first of them at list position WindowStart. */
  function DrawnRows(list: seq<Uid>, cur: int, height: nat): seq<Uid>
  {
    WindowInList(cur, height, |list|);
    list[WindowStart(cur, height, |list|)..DrawWindowEnd(cur, height, |list|)]
  }

  /**
   * The drawn rows are at most a screen of the list and the fetch rows at
   * most two; both hold the cursor's row when the cursor is in the list,
   * and the drawn rows are among the fetch rows.
   */
  lemma WindowRows(list: seq<Uid>, cur: int, height: nat)
    ensures |DrawnRows(list, cur, height)| <= height && |FetchRows(list, cur, height)| <= 2 * height
    ensures DrawnRows(list, cur, height) <= FetchRows(list, cur, height)
    ensures forall u | u in FetchRows(list, cur, height) :: u in list
    ensures 0 <= cur < |list| && height >= 1 ==>
      var at := cur - WindowStart(cur, height, |list|);
      && 0 <= at < |DrawnRows(list, cur, height)|
      && DrawnRows(list, cur, height)[at] == list[cur] && FetchRows(list, cur, height)[at] == list[cur]
  {
    WindowInList(cur, height, |list|);
    if 0 <= cur < |list| && height >= 1 {
      WindowHoldsCursor(cur, height, |list|);
    }
  }

  /**
   * The messages DrawMessage asks bodies for besides the one viewed: the
   * rows just after and just before the list cursor, each clamped into the
   * list.
   */
  function ViewNeighbours(list: seq<Uid>, cur: int): (r: set<Uid>)
    ensures r == {} <==> |list| == 0
    ensures forall u | u in r :: u in list
    ensures 0 < cur < |list| - 1 ==> r == {list[cur - 1], list[cur + 1]}
    ensures cur == 0 && |list| > 1 ==> r == {list[0], list[1]}
    ensures cur == |list| - 1 > 0 ==> r == {list[cur - 1], list[cur]}
  {
    if |list| == 0 then {}
    else {list[Bound(0, cur + 1, |list| - 1)], list[Bound(0, cur - 1, |list| - 1)]}
  }

  /** The headers or flags DrawMessageList asks for: none when all headers are prefetched. */
  function ListWanted(prefetchAll: bool, rows: seq<Uid>, cached: set<Uid>, requested: set<Uid>): set<Uid>
  {
    if prefetchAll then {} else Wanted(rows, cached, requested)
  }

  /**
   * The requests DrawMessageList sends in folder f once its claims are made,
   * in the order it sends them: the folder's UIDs unless already asked for,
   * the cursor's body, the next row's body, then headers in batches of 25
   * and flags in batches of 1000.
   */
  function ListRequests(f: Folder, uidsAsked: bool, hs: set<Uid>, fs: set<Uid>, pri: set<Uid>, sec: set<Uid>, plaintext: bool): seq<Request>
  {
    (if uidsAsked then [] else [UidsRequest(LevelNone, f)])
    + BatchedRequests(LevelNone, f, FetchBodys, pri, 1, !plaintext)
    + BatchedRequests(LevelNone, f, FetchBodys, sec, 1, !plaintext)
    + BatchedRequests(LevelNone, f, FetchHeaders, hs, 25, false)
    + BatchedRequests(LevelNone, f, FetchFlags, fs, 1000, false)
  }

  /** Builds DrawMessageList's requests and its prefetch requests, one batch at a time. */
  method SendListRequests(f: Folder, uidsAsked: bool, hs: set<Uid>, fs: set<Uid>, pri: set<Uid>, sec: set<Uid>, pre: set<Uid>, plaintext: bool)
    returns (reqs: seq<Request>, preReqs: seq<Request>)
    ensures reqs == ListRequests(f, uidsAsked, hs, fs, pri, sec, plaintext)
    ensures preReqs == BatchedRequests(LevelCurrentView, f, FetchBodys, pre, 1, false)
  {
    var bodyReqs := SendBatches(LevelNone, f, FetchBodys, pri, 1, !plaintext);
    var secReqs := SendBatches(LevelNone, f, FetchBodys, sec, 1, !plaintext);
    preReqs := SendBatches(LevelCurrentView, f, FetchBodys, pre, 1, false);
    var headerReqs := SendBatches(LevelNone, f, FetchHeaders, hs, 25, false);
    var flagReqs := SendBatches(LevelNone, f, FetchFlags, fs, 1000, false);
    reqs := (if uidsAsked then [] else [UidsRequest(LevelNone, f)]) + bodyReqs + secReqs + headerReqs + flagReqs;
  }

  /** The record of what was asked for after DrawMessageList's claims in folder f. */
  function ListAsked(a: Asked, f: Folder, hs: set<Uid>, fs: set<Uid>, pri: set<Uid>, sec: set<Uid>, pre: set<Uid>): Asked
  {
    a.(hasRequestedUids := a.hasRequestedUids[f := true],
       requestedHeaders := a.requestedHeaders[f := a.RequestedHeadersOf(f) + hs],
       requestedFlags := a.requestedFlags[f := a.RequestedFlagsOf(f) + fs],
       requestedBodys := a.requestedBodys[f := a.RequestedBodysOf(f) + pri + sec],
       prefetchedBodys := a.prefetchedBodys[f := a.PrefetchedBodysOf(f) + pre])
  }

  /**
   * Everything DrawMessageList asks for in folder f, whose shown list is
   * list with the cursor at cur in a window height rows tall: the headers
   * and flags of the view and the page after it (none when all headers are
   * prefetched), the bodies of the drawn rows the prefetch level wants
   * (RowBodies), the record of those claims, and the requests sent for them.
   */
  function ListFetch(a: Asked, calls: Calls, c: Cache, f: Folder, list: seq<Uid>, cur: int, height: nat,
                     prefetchAll: bool, level: PrefetchLevel, plaintext: bool): (Asked, Calls)
  {
    var rows := FetchRows(list, cur, height);
    var hs := ListWanted(prefetchAll, rows, c.HeadersOf(f).Keys, a.RequestedHeadersOf(f));
    var fs := ListWanted(prefetchAll, rows, c.FlagsOf(f).Keys, a.RequestedFlagsOf(f));
    var b := RowBodies(DrawnRows(list, cur, height), WindowStart(cur, height, |list|), cur, level,
                       c.BodysOf(f).Keys, a.RequestedBodysOf(f), a.PrefetchedBodysOf(f));
    (ListAsked(a, f, hs, fs, b.0, b.1, b.2),
     calls.(requests := calls.requests + ListRequests(f, Get(a.hasRequestedUids, f, false), hs, fs, b.0, b.1, plaintext),
            prefetches := calls.prefetches + BatchedRequests(LevelCurrentView, f, FetchBodys, b.2, 1, false)))
  }

  /** DrawMessageList's claims and requests, made one kind at a time as the loops in Ui::DrawMessageList make them. */
  method FetchList(a: Asked, calls: Calls, c: Cache, f: Folder, list: seq<Uid>, cur: int, height: nat,
                   prefetchAll: bool, level: PrefetchLevel, plaintext: bool)
    returns (a': Asked, calls': Calls)
    ensures (a', calls') == ListFetch(a, calls, c, f, list, cur, height, prefetchAll, level, plaintext)
  {
    var hs, fs := {}, {};
    if !prefetchAll {
      var rows := FetchRows(list, cur, height);
      var marked;
      hs, marked := Claim(rows, c.HeadersOf(f).Keys, a.RequestedHeadersOf(f));
      fs, marked := Claim(rows, c.FlagsOf(f).Keys, a.RequestedFlagsOf(f));
    }
    var pri, sec, pre, requested, prefetched := ClaimRowBodies(DrawnRows(list, cur, height), WindowStart(cur, height, |list|), cur, level,
                                                             c.BodysOf(f).Keys, a.RequestedBodysOf(f), a.PrefetchedBodysOf(f));
    var reqs, preReqs := SendListRequests(f, Get(a.hasRequestedUids, f, false), hs, fs, pri, sec, pre, plaintext);
    a' := ListAsked(a, f, hs, fs, pri, sec, pre);
    calls' := calls.(requests := calls.requests + reqs, prefetches := calls.prefetches + preReqs);
  }

  /**
   * After DrawMessageList's claims every header and flag of the fetch rows
   * is cached or requested, so drawing the same rows again asks for none
   * of them; and every drawn row whose body the prefetch level wants is
   * cached, requested or prefetched.
   */
  lemma ListFetchCovers(c: Cache, a: Asked, f: Folder, rows: seq<Uid>, drawn: seq<Uid>, first: int, cur: int,
                        level: PrefetchLevel, prefetchAll: bool)
    ensures var hs := ListWanted(prefetchAll, rows, c.HeadersOf(f).Keys, a.RequestedHeadersOf(f));
      var fs := ListWanted(prefetchAll, rows, c.FlagsOf(f).Keys, a.RequestedFlagsOf(f));
      var (pri, sec, pre) := RowBodies(drawn, first, cur, level, c.BodysOf(f).Keys, a.RequestedBodysOf(f), a.PrefetchedBodysOf(f));
      var after := ListAsked(a, f, hs, fs, pri, sec, pre);
      && (!prefetchAll ==> forall u | u in rows ::
            && (u in c.HeadersOf(f) || u in after.RequestedHeadersOf(f))
            && (u in c.FlagsOf(f) || u in after.RequestedFlagsOf(f)))
      && ListWanted(prefetchAll, rows, c.HeadersOf(f).Keys, after.RequestedHeadersOf(f)) == {}
      && ListWanted(prefetchAll, rows, c.FlagsOf(f).Keys, after.RequestedFlagsOf(f)) == {}
      && (forall i | 0 <= i < |drawn| && drawn[i] !in c.BodysOf(f) && BodyWanted(KindOf(first + i, cur), level) ::
            drawn[i] in after.RequestedBodysOf(f) + after.PrefetchedBodysOf(f))
  {
    CoveredByClaim(rows, c.HeadersOf(f).Keys, a.RequestedHeadersOf(f));
    CoveredByClaim(rows, c.FlagsOf(f).Keys, a.RequestedFlagsOf(f));
    ClaimOnce(rows, c.HeadersOf(f).Keys, a.RequestedHeadersOf(f));
    ClaimOnce(rows, c.FlagsOf(f).Keys, a.RequestedFlagsOf(f));
    RowBodiesClaims(drawn, first, cur, level, c.BodysOf(f).Keys, a.RequestedBodysOf(f), a.PrefetchedBodysOf(f));
  }


  /**
   * What DrawMessage claims for the viewed message uid of folder: its
   * header, its body (both only for a real message, uid != -1), and the
   * neighbours' bodies at the prefetch level CurrentView; each only when
   * neither cached nor requested.
   */
  function ViewWanted(c: Cache, a: Asked, folder: Folder, uid: int, neighbours: set<Uid>, level: PrefetchLevel)
    : (r: (set<Uid>, set<Uid>, set<Uid>))
    ensures r.0 <= {AsUint32(uid)} && r.1 <= {AsUint32(uid)} && r.2 <= neighbours
    ensures r.0 !! (c.HeadersOf(folder).Keys + a.RequestedHeadersOf(folder))
    ensures (r.1 + r.2) !! (c.BodysOf(folder).Keys + a.RequestedBodysOf(folder)) && r.1 !! r.2
  {
    var u := AsUint32(uid);
    var hs := if uid != -1 && u !in c.HeadersOf(folder) && u !in a.RequestedHeadersOf(folder) then {u} else {};
    var pri := if uid != -1 && u !in c.BodysOf(folder) && u !in a.RequestedBodysOf(folder) then {u} else {};
    var sec := if level.AtLeast(LevelCurrentView) then neighbours - c.BodysOf(folder).Keys - (a.RequestedBodysOf(folder) + pri) else {};
    (hs, pri, sec)
  }

  /** The record of what was asked for after DrawMessage's claims in folder. */
  function ViewAsked(a: Asked, folder: Folder, w: (set<Uid>, set<Uid>, set<Uid>)): Asked
  {
    a.(requestedHeaders := a.requestedHeaders[folder := a.RequestedHeadersOf(folder) + w.0],
       requestedBodys := a.requestedBodys[folder := a.RequestedBodysOf(folder) + w.1 + w.2])
  }

  /**
   * After DrawMessage's claims the viewed message's header and body, and
   * the wanted neighbours' bodies, are cached or requested: drawing the
   * same message again asks for nothing.
   */
  lemma ViewFetchOnce(c: Cache, a: Asked, folder: Folder, uid: int, neighbours: set<Uid>, level: PrefetchLevel)
    ensures var after := ViewAsked(a, folder, ViewWanted(c, a, folder, uid, neighbours, level));
      && (uid != -1 ==> (AsUint32(uid) in c.HeadersOf(folder) || AsUint32(uid) in after.RequestedHeadersOf(folder)))
      && (uid != -1 ==> (AsUint32(uid) in c.BodysOf(folder) || AsUint32(uid) in after.RequestedBodysOf(folder)))
      && (level.AtLeast(LevelCurrentView) ==> forall n | n in neighbours ::
            n in c.BodysOf(folder) || n in after.RequestedBodysOf(folder))
      && ViewWanted(c, after, folder, uid, neighbours, level) == ({}, {}, {})
  {
    var after := ViewAsked(a, folder, ViewWanted(c, a, folder, uid, neighbours, level));
    var again := ViewWanted(c, after, folder, uid, neighbours, level);
    assert again.2 == {} by {
      forall n | n in again.2
        ensures false
      {
      }
    }
  }

  /** DrawMessage's requests: one for a kind, when anything of that kind is wanted. */
  function RequestIfAny(f: Folder, kind: FetchKind, us: set<Uid>, processHtml: bool): (r: seq<Request>)
    ensures |r| <= 1 && (r == [] <==> us == {})
    ensures forall i :: 0 <= i < |r| ==> r[i].folder == f && AskedOf(r[i], kind) == us
  {
    if us == {} then [] else [BatchRequest(LevelNone, f, kind, us, processHtml)]
  }

  /** The SMTP actions HandleConnected starts: each queued message, in queue order, is sent as it was created. */
  function SendQueued(msgs: seq<Bytes>, headerFields: Bytes -> Fields): (r: seq<SmtpAction>)
    ensures |r| == |msgs|
    ensures forall i :: 0 <= i < |r| ==>
      && r[i].createdMsg == msgs[i] && r[i].isSendCreatedMessage && !r[i].isSendMessage && !r[i].isCreateMessage
      && r[i].fields.to == headerFields(msgs[i]).to && r[i].fields.bcc == headerFields(msgs[i]).bcc
  {
    if |msgs| == 0 then []
    else SendQueued(msgs[..|msgs| - 1], headerFields) + [SendQueuedAction(msgs[|msgs| - 1], headerFields)]
  }

  /** The upload actions HandleConnected starts: each queued draft goes to the drafts folder. */
  function UploadQueued(msgs: seq<Bytes>, drafts: Folder): (r: seq<Action>)
    ensures |r| == |msgs|
    ensures forall i :: 0 <= i < |r| ==> r[i].uploadDraft && r[i].folder == drafts && r[i].msg == msgs[i]
  {
    if |msgs| == 0 then []
    else
      var last := EmptyAction(drafts, {}).(uploadDraft := true, msg := msgs[|msgs| - 1]);
      UploadQueued(msgs[..|msgs| - 1], drafts) + [last]
  }

  /** HandleConnected's loop over the outbox: one send of a created message per queued message, in order. */
  method QueueSends(msgs: seq<Bytes>, headerFields: Bytes -> Fields) returns (sends: seq<SmtpAction>)
    ensures sends == SendQueued(msgs, headerFields)
  {
    sends := [];
    var i := 0;
    while i < |msgs|
      invariant i <= |msgs| && sends == SendQueued(msgs[..i], headerFields)
    {
      assert msgs[..i + 1][..i] == msgs[..i];
      sends := sends + [SendQueuedAction(msgs[i], headerFields)];
      i := i + 1;
    }
    assert msgs[..i] == msgs;
  }

  /** HandleConnected's loop over the draft queue: one upload to the drafts folder per queued draft, in order. */
  method QueueUploads(msgs: seq<Bytes>, drafts: Folder) returns (uploads: seq<Action>)
    ensures uploads == UploadQueued(msgs, drafts)
  {
    uploads := [];
    var i := 0;
    while i < |msgs|
      invariant i <= |msgs| && uploads == UploadQueued(msgs[..i], drafts)
    {
      assert msgs[..i + 1][..i] == msgs[..i];
      uploads := uploads + [EmptyAction(drafts, {}).(uploadDraft := true, msg := msgs[i])];
      i := i + 1;
    }
    assert msgs[..i] == msgs;
  }

  /**
   * The index Ui::UpdateDisplayUids leaves for one folder and mode: when
   * the index is stale it is first rebuilt from the folder's UIDs hu; then
   * the removed UIDs are dropped and the added ones inserted.
   */
  function Patched(keyOf: Uid -> Bytes, idx: Index, rebuild: bool, hu: set<Uid>, removed: set<Uid>, added: set<Uid>): Index
  {
    var start := if rebuild then InsertAll(keyOf, [], hu) else idx;
    InsertAll(keyOf, EraseUids(start, removed), added)
  }

  /**
   * The patched index is sorted and holds the entries of the added UIDs
   * together with those of the starting index (the rebuilt one, when it
   * was stale) that do not list a removed UID; when the starting index
   * listed only UIDs of hu, the patched one lists only UIDs of the patched
   * set, and none that was removed and not added back.
   */
  lemma PatchedSpec(keyOf: Uid -> Bytes, idx: Index, rebuild: bool, hu: set<Uid>, removed: set<Uid>, added: set<Uid>)
    requires Injective(keyOf) && Sorted(idx)
    ensures var r := Patched(keyOf, idx, rebuild, hu, removed, added);
      && Sorted(r)
      && MapOf(r) == KeyedUids(keyOf, added) + DropValues(if rebuild then KeyedUids(keyOf, hu) else MapOf(idx), removed)
      && (rebuild || Listed(MapOf(idx), hu) ==>
            Listed(MapOf(r), (hu - removed) + added) && forall k | k in MapOf(r) :: MapOf(r)[k] !in removed - added)
  {
    var start := if rebuild then InsertAll(keyOf, [], hu) else idx;
    assert Sorted(start) && MapOf(start) == (if rebuild then KeyedUids(keyOf, hu) else MapOf(idx)) by {
      if rebuild {
        MapOfEmpty([]);
        InsertAllSpec(keyOf, [], hu);
      }
    }
    var mid := EraseUids(start, removed);
    assert Sorted(mid) && MapOf(mid) == DropValues(MapOf(start), removed) by {
      EraseUidsSpec(start, removed);
    }
    InsertAllSpec(keyOf, mid, added);
    if rebuild || Listed(MapOf(idx), hu) {
      assert Listed(MapOf(start), hu) by {
        if rebuild {
          KeyedUidsContents(keyOf, hu);
        }
      }
      PatchListed(keyOf, MapOf(start), hu, removed, added);
    }
  }

  /**
   * The index Ui::UpdateDisplayUids leaves as written: its erase loop
   * recomputes each removed UID's key from the current header and flags
   * and erases that key (EraseByRecomputedKey), where Patched erases every
   * entry listing a removed UID.
   */
  function PatchedAsWritten(keyOf: Uid -> Bytes, idx: Index, rebuild: bool, hu: set<Uid>, removed: set<Uid>, added: set<Uid>): Index
  {
    var start := if rebuild then InsertAll(keyOf, [], hu) else idx;
    InsertAll(keyOf, EraseKeys(start, RemovalKeys(keyOf, removed)), added)
  }

  /**
   * The two patches agree whenever no key of the starting index has gone
   * stale, in particular right after a rebuild; they part only where an
   * entry was filed under a key its message no longer has.
   */
  lemma PatchedAgreesWhenFresh(keyOf: Uid -> Bytes, idx: Index, rebuild: bool, hu: set<Uid>, removed: set<Uid>, added: set<Uid>)
    requires Injective(keyOf) && (rebuild || Fresh(keyOf, idx))
    ensures PatchedAsWritten(keyOf, idx, rebuild, hu, removed, added) == Patched(keyOf, idx, rebuild, hu, removed, added)
  {
    var start := if rebuild then InsertAll(keyOf, [], hu) else idx;
    if rebuild {
      InsertAllFresh(keyOf, [], hu);
    }
    FreshEraseAgrees(keyOf, start, removed);
  }

  /**
   * The index work of Ui::UpdateDisplayUids with the corrected erase
   * (EraseRemovedUids): the rebuild and the insert loop are the source's,
   * the erase drops every entry listing a removed UID.
   */
  method PatchIndex(keyOf: Uid -> Bytes, idx: Index, rebuild: bool, hu: set<Uid>, removed: set<Uid>, added: set<Uid>)
    returns (r: Index)
    requires Injective(keyOf) && Sorted(idx)
    ensures r == Patched(keyOf, idx, rebuild, hu, removed, added)
  {
    r := idx;
    if rebuild {
      r := InsertKeyed(keyOf, [], hu);
      MapOfEmpty([]);
    }
    ghost var start := r;
    assert Sorted(start) by {
      InsertAllSpec(keyOf, [], hu);
    }
    if removed != {} {
      r := EraseRemovedUids(r, removed);
    } else {
      EraseNothing(r);
    }
    if added != {} {
      r := InsertKeyed(keyOf, r, added);
    }
  }

  /**
   * The members of Ui that hold the display indexes: m_HeaderUids (the
   * UIDs of each folder with a cached header), m_HeaderUidsVersion (a
   * counter bumped on every change to them), m_DisplayUids (the index of
   * each folder and mode) and m_DisplayUidsVersion (the header version
   * each index was last brought up to).
   */
  datatype Display = Display(
    headerUids: map<Folder, set<Uid>>,
    headerUidsVersion: map<Folder, nat>,
    displayUids: map<FolderMode, Index>,
    displayUidsVersion: map<FolderMode, nat>)
  {
    function HeaderUidsOf(f: Folder): set<Uid> { Get(headerUids, f, {}) }
    function VersionOf(f: Folder): nat { Get(headerUidsVersion, f, 0) }
    function IndexOf(f: Folder, m: SortFilter): Index { Get(displayUids, (f, m), []) }
    function IndexVersionOf(f: Folder, m: SortFilter): nat { Get(displayUidsVersion, (f, m), 0) }

    /** The index of mode m was built or patched since the folder's UIDs last changed. */
    predicate IsCurrent(f: Folder, m: SortFilter)
    {
      IndexVersionOf(f, m) == VersionOf(f)
    }

    /**
     * The indexes agree with the folders' UIDs: each index is sorted, no
     * index is newer than its folder's UIDs, and an index built or patched
     * since they last changed lists only UIDs of the folder.
     */
    ghost predicate Ok()
    {
      && (forall fm | fm in displayUids :: Sorted(displayUids[fm]))
      && (forall fm | fm in displayUidsVersion :: displayUidsVersion[fm] <= VersionOf(fm.0))
      && (forall fm | fm in displayUids && IsCurrent(fm.0, fm.1) :: Listed(MapOf(displayUids[fm]), HeaderUidsOf(fm.0)))
    }

    /** Every folder, except perhaps one, shows a mode whose index is up to date. */
    ghost predicate ShownCurrent(sf: map<Folder, SortFilter>, except: Option<Folder>)
    {
      forall g: Folder | except != Some(g) :: IsCurrent(g, Get(sf, g, SortDefault))
    }

    /** The indexes agree with the folders' UIDs and every folder shows an up-to-date mode. */
    ghost predicate Consistent(sf: map<Folder, SortFilter>)
    {
      Ok() && ShownCurrent(sf, None)
    }
  }

  /**
   * Replacing one folder's index by one that lists only the folder's new
   * UIDs, and bumping the folder's version (or keeping it, when the UIDs
   * did not change), keeps the indexes in agreement; the patched index is
   * up to date, so when it is the mode the folder shows, every folder's
   * shown mode is.
   */
  lemma IndexesPatched(d: Display, sf: map<Folder, SortFilter>, folder: Folder, idx: Index, newHu: set<Uid>, nv: nat)
    requires d.Ok() && d.ShownCurrent(sf, Some(folder))
    requires Sorted(idx) && Listed(MapOf(idx), newHu)
    requires d.VersionOf(folder) <= nv && (nv == d.VersionOf(folder) ==> newHu == d.HeaderUidsOf(folder))
    ensures var fm := (folder, Get(sf, folder, SortDefault));
      var d' := Display(d.headerUids[folder := newHu], d.headerUidsVersion[folder := nv],
        d.displayUids[fm := idx], d.displayUidsVersion[fm := nv]);
      d'.Ok() && d'.ShownCurrent(sf, None)
  {
    var fm0 := (folder, Get(sf, folder, SortDefault));
    var d' := Display(d.headerUids[folder := newHu], d.headerUidsVersion[folder := nv],
      d.displayUids[fm0 := idx], d.displayUidsVersion[fm0 := nv]);
    forall fm | fm in d'.displayUids
      ensures Sorted(d'.displayUids[fm])
    {
      if fm != fm0 {
        assert d'.displayUids[fm] == d.displayUids[fm];
      }
    }
    PatchedVersions(d, d', fm0, nv);
    PatchedListed(d, d', fm0, idx, newHu, nv);
    forall g: Folder
      ensures d'.IsCurrent(g, Get(sf, g, SortDefault))
    {
      if g != folder {
        assert d'.IndexVersionOf(g, Get(sf, g, SortDefault)) == d.IndexVersionOf(g, Get(sf, g, SortDefault));
      }
    }
  }

  /** No index is newer than its folder's UIDs once one folder's version is raised to the one its index gets. */
  lemma PatchedVersions(d: Display, d': Display, fm0: FolderMode, nv: nat)
    requires forall fm | fm in d.displayUidsVersion :: d.displayUidsVersion[fm] <= d.VersionOf(fm.0)
    requires d.VersionOf(fm0.0) <= nv
    requires d'.headerUidsVersion == d.headerUidsVersion[fm0.0 := nv]
    requires d'.displayUidsVersion == d.displayUidsVersion[fm0 := nv]
    ensures forall fm | fm in d'.displayUidsVersion :: d'.displayUidsVersion[fm] <= d'.VersionOf(fm.0)
  {
    forall fm | fm in d'.displayUidsVersion
      ensures d'.displayUidsVersion[fm] <= d'.VersionOf(fm.0)
    {
      if fm != fm0 {
        assert d'.displayUidsVersion[fm] == d.displayUidsVersion[fm];
      }
    }
  }

  /**
   * An index up to date after the patch lists only its folder's UIDs: the
   * patched one by its own contract, the others because they were up to
   * date before and their folder's UIDs did not change.
   */
  lemma PatchedListed(d: Display, d': Display, fm0: FolderMode, idx: Index, newHu: set<Uid>, nv: nat)
    requires d.Ok()
    requires Listed(MapOf(idx), newHu)
    requires d.VersionOf(fm0.0) <= nv && (nv == d.VersionOf(fm0.0) ==> newHu == d.HeaderUidsOf(fm0.0))
    requires d' == Display(d.headerUids[fm0.0 := newHu], d.headerUidsVersion[fm0.0 := nv],
        d.displayUids[fm0 := idx], d.displayUidsVersion[fm0 := nv])
    ensures forall fm | fm in d'.displayUids && d'.IsCurrent(fm.0, fm.1) :: Listed(MapOf(d'.displayUids[fm]), d'.HeaderUidsOf(fm.0))
  {
    forall fm | fm in d'.displayUids && d'.IsCurrent(fm.0, fm.1)
      ensures Listed(MapOf(d'.displayUids[fm]), d'.HeaderUidsOf(fm.0))
    {
      if fm != fm0 {
        assert d'.displayUids[fm] == d.displayUids[fm] && d'.IndexVersionOf(fm.0, fm.1) == d.IndexVersionOf(fm.0, fm.1);
        if fm.0 == fm0.0 {
          assert d.IndexVersionOf(fm.0, fm.1) <= d.VersionOf(fm0.0) by {
            if fm in d.displayUidsVersion {
              assert d.displayUidsVersion[fm] <= d.VersionOf(fm.0);
            }
          }
        }
      }
    }
  }

  /**
   * Ui::UpdateDisplayUids on the members it changes: the index of the
   * mode the folder shows is brought up to date and patched (Patched), the
   * folder's UIDs lose the removed ones and gain the added ones, and each
   * non-empty patch is one more version, which the patched index records.
   */
  function PatchedDisplay(keyOf: Uid -> Bytes, d: Display, sf: map<Folder, SortFilter>,
                          folder: Folder, removed: set<Uid>, added: set<Uid>): Display
  {
    var m := Get(sf, folder, SortDefault);
    var nv := d.VersionOf(folder) + Bump(removed) + Bump(added);
    var idx := Patched(keyOf, d.IndexOf(folder, m), !d.IsCurrent(folder, m), d.HeaderUidsOf(folder), removed, added);
    Display(d.headerUids[folder := (d.HeaderUidsOf(folder) - removed) + added], d.headerUidsVersion[folder := nv],
      d.displayUids[(folder, m) := idx], d.displayUidsVersion[(folder, m) := nv])
  }

  /** Under Ok, the index of any folder and mode is sorted, and an up-to-date one lists exactly the folder's UIDs. */
  lemma IndexOk(d: Display, f: Folder, m: SortFilter)
    requires d.Ok()
    ensures Sorted(d.IndexOf(f, m))
    ensures d.IsCurrent(f, m) ==> Listed(MapOf(d.IndexOf(f, m)), d.HeaderUidsOf(f))
  {
    if (f, m) in d.displayUids {
      assert Sorted(d.displayUids[(f, m)]);
      if d.IsCurrent(f, m) {
        assert Listed(MapOf(d.displayUids[(f, m)]), d.HeaderUidsOf(f));
      }
    } else {
      MapOfEmpty([]);
    }
  }

  /**
   * Patching keeps the indexes in agreement with the folders' UIDs and
   * leaves every folder showing an up-to-date mode, when only the patched
   * folder's shown mode was stale before.
   */
  lemma PatchedDisplayOk(keyOf: Uid -> Bytes, d: Display, sf: map<Folder, SortFilter>,
                         folder: Folder, removed: set<Uid>, added: set<Uid>)
    requires Injective(keyOf) && d.Ok() && d.ShownCurrent(sf, Some(folder))
    ensures PatchedDisplay(keyOf, d, sf, folder, removed, added).Ok()
    ensures PatchedDisplay(keyOf, d, sf, folder, removed, added).ShownCurrent(sf, None)
  {
    var fm := (folder, Get(sf, folder, SortDefault));
    var idx := d.IndexOf(fm.0, fm.1);
    var current := d.IsCurrent(fm.0, fm.1);
    var us := d.HeaderUidsOf(folder);
    IndexOk(d, fm.0, fm.1);
    PatchedSpec(keyOf, idx, !current, us, removed, added);
    var nv := d.VersionOf(folder) + Bump(removed) + Bump(added);
    var patched := Patched(keyOf, idx, !current, us, removed, added);
    assert PatchedDisplay(keyOf, d, sf, folder, removed, added) ==
      Display(d.headerUids[folder := (us - removed) + added], d.headerUidsVersion[folder := nv],
        d.displayUids[fm := patched], d.displayUidsVersion[fm := nv]);
    IndexesPatched(d, sf, folder, patched, (us - removed) + added, nv);
  }

  /** Patching changes the listed UIDs of the patched folder only: it loses the removed ones and gains the added ones. */
  lemma PatchedDisplayUids(keyOf: Uid -> Bytes, d: Display, sf: map<Folder, SortFilter>,
                           folder: Folder, removed: set<Uid>, added: set<Uid>)
    ensures PatchedDisplay(keyOf, d, sf, folder, removed, added).HeaderUidsOf(folder) == (d.HeaderUidsOf(folder) - removed) + added
    ensures forall g | g != folder :: PatchedDisplay(keyOf, d, sf, folder, removed, added).HeaderUidsOf(g) == d.HeaderUidsOf(g)
  {
    var d' := PatchedDisplay(keyOf, d, sf, folder, removed, added);
    assert d'.headerUids == d.headerUids[folder := (d.HeaderUidsOf(folder) - removed) + added];
  }

  /** The index work of Ui::UpdateDisplayUids on the display members (PatchedDisplay). */
  method PatchFolder(keyOf: Uid -> Bytes, d: Display, sf: map<Folder, SortFilter>,
                     folder: Folder, removed: set<Uid>, added: set<Uid>)
    returns (d': Display)
    requires Injective(keyOf) && d.Ok()
    ensures d' == PatchedDisplay(keyOf, d, sf, folder, removed, added)
  {
    var m := Get(sf, folder, SortDefault);
    var idx := d.IndexOf(folder, m);
    assert Sorted(idx) by {
      if (folder, m) in d.displayUids {
        assert Sorted(d.displayUids[(folder, m)]);
      }
    }
    var nv := d.VersionOf(folder) + Bump(removed) + Bump(added);
    idx := PatchIndex(keyOf, idx, !d.IsCurrent(folder, m), d.HeaderUidsOf(folder), removed, added);
    d' := Display(d.headerUids[folder := (d.HeaderUidsOf(folder) - removed) + added], d.headerUidsVersion[folder := nv],
      d.displayUids[(folder, m) := idx], d.displayUidsVersion[(folder, m) := nv]);
  }

  /** The list folder f shows: the index of its mode read back to front, newest first (Ui::GetDisplayUids). */
  function Shown(d: Display, sf: map<Folder, SortFilter>, f: Folder): seq<Uid>
  {
    NewestFirst(d.IndexOf(f, Get(sf, f, SortDefault)))
  }

  /** One more version when the set is not empty. */
  function Bump(us: set<Uid>): nat
  {
    if us == {} then 0 else 1
  }

  /** The UIDs a request asks for of one kind. */
  function AskedOf(r: Request, kind: FetchKind): set<Uid>
  {
    match kind
    case FetchHeaders => r.getHeaders
    case FetchFlags => r.getFlags
    case FetchBodys => r.getBodys
  }

  /** The UIDs a sequence of requests asks for of one kind. */
  function AllAsked(reqs: seq<Request>, kind: FetchKind): set<Uid>
  {
    if |reqs| == 0 then {} else AllAsked(reqs[..|reqs| - 1], kind) + AskedOf(reqs[|reqs| - 1], kind)
  }

  /** The requests for a batching ask, together, for the union of the batches, and for nothing of another kind. */
  lemma {:induction false} BatchRequestsAsk(level: PrefetchLevel, folder: Folder, kind: FetchKind, batches: seq<set<Uid>>,
                                            processHtml: bool, other: FetchKind)
    ensures AllAsked(BatchRequests(level, folder, kind, batches, processHtml), kind) == UnionOf(batches)
    ensures other != kind ==> AllAsked(BatchRequests(level, folder, kind, batches, processHtml), other) == {}
    decreases |batches|
  {
    if |batches| > 0 {
      var rs := BatchRequests(level, folder, kind, batches, processHtml);
      var front := batches[..|batches| - 1];
      assert rs[..|rs| - 1] == BatchRequests(level, folder, kind, front, processHtml);
      BatchRequestsAsk(level, folder, kind, front, processHtml, other);
    }
  }

  /**
   * Request i of reqs asks for one batch of the kind at the level: a
   * non-empty one of at most max UIDs, and of exactly max unless it is the
   * last.
   */
  predicate BatchAt(reqs: seq<Request>, i: int, level: PrefetchLevel, folder: Folder, kind: FetchKind,
                    max: nat, processHtml: bool)
    requires 0 <= i < |reqs|
  {
    && reqs[i] == BatchRequest(level, folder, kind, AskedOf(reqs[i], kind), processHtml)
    && 0 < |AskedOf(reqs[i], kind)| <= max
    && (i < |reqs| - 1 ==> |AskedOf(reqs[i], kind)| == max)
  }

  /** Every UID request i asks for of the kind lies below every UID request j asks for. */
  predicate AskedBelow(reqs: seq<Request>, i: int, j: int, kind: FetchKind)
    requires 0 <= i < |reqs| && 0 <= j < |reqs|
  {
    AllBelow(AskedOf(reqs[i], kind), AskedOf(reqs[j], kind))
  }

  /**
   * The requests ask, one batch each, for exactly the UIDs us of the kind
   * at the level, in ascending batches.
   */
  ghost predicate SentInBatches(reqs: seq<Request>, level: PrefetchLevel, folder: Folder, kind: FetchKind,
                                us: set<Uid>, max: nat, processHtml: bool)
  {
    && AllAsked(reqs, kind) == us
    && (forall i | 0 <= i < |reqs| :: BatchAt(reqs, i, level, folder, kind, max, processHtml))
    && (forall i, j | 0 <= i < j < |reqs| :: AskedBelow(reqs, i, j, kind))
  }

  /** The requests that send the UIDs us of one kind in ascending batches of at most max (Batching). */
  function BatchedRequests(level: PrefetchLevel, folder: Folder, kind: FetchKind, us: set<Uid>, max: nat,
                           processHtml: bool): seq<Request>
    requires max >= 1
  {
    BatchRequests(level, folder, kind, Batching(us, max), processHtml)
  }

  /**
   * The batched requests ask, one batch each, for exactly the UIDs us of
   * the kind in ascending batches of at most max; they ask for nothing of
   * another kind, and there are none exactly when us is empty.
   */
  lemma BatchedRequestsSpec(level: PrefetchLevel, folder: Folder, kind: FetchKind, us: set<Uid>, max: nat,
                            processHtml: bool, other: FetchKind)
    requires max >= 1
    ensures var reqs := BatchedRequests(level, folder, kind, us, max, processHtml);
      && SentInBatches(reqs, level, folder, kind, us, max, processHtml)
      && (other != kind ==> AllAsked(reqs, other) == {})
      && (|reqs| == 0 <==> us == {})
  {
    var chunks := Batching(us, max);
    BatchingShape(us, max);
    BatchesSent(level, folder, kind, chunks, max, processHtml);
    BatchRequestsAsk(level, folder, kind, chunks, processHtml, other);
  }

  /** One request per batch of a batching asks for the batches' union, batch by batch. */
  lemma BatchesSent(level: PrefetchLevel, folder: Folder, kind: FetchKind, chunks: seq<set<Uid>>, max: nat, processHtml: bool)
    requires Batched(chunks, max)
    ensures SentInBatches(BatchRequests(level, folder, kind, chunks, processHtml), level, folder, kind, UnionOf(chunks), max, processHtml)
  {
    var reqs := BatchRequests(level, folder, kind, chunks, processHtml);
    BatchRequestsAsk(level, folder, kind, chunks, processHtml, kind);
    BatchesAsked(level, folder, kind, chunks, processHtml);
    forall i | 0 <= i < |reqs|
      ensures BatchAt(reqs, i, level, folder, kind, max, processHtml)
    {
      assert reqs[i] == BatchRequest(level, folder, kind, chunks[i], processHtml);
    }
    forall i, j | 0 <= i < j < |reqs|
      ensures AskedBelow(reqs, i, j, kind)
    {
      assert AllBelow(chunks[i], chunks[j]);
    }
  }

  /** Request i of a batching's requests asks for batch i and is the request for it. */
  lemma BatchesAsked(level: PrefetchLevel, folder: Folder, kind: FetchKind, chunks: seq<set<Uid>>, processHtml: bool)
    ensures var reqs := BatchRequests(level, folder, kind, chunks, processHtml);
      forall i :: 0 <= i < |reqs| ==> AskedOf(reqs[i], kind) == chunks[i]
  {
    var reqs := BatchRequests(level, folder, kind, chunks, processHtml);
    forall i | 0 <= i < |reqs|
      ensures AskedOf(reqs[i], kind) == chunks[i]
    {
      assert reqs[i] == BatchRequest(level, folder, kind, chunks[i], processHtml);
    }
  }

  /**
   * The batching loops of ResponseHandler and the draw functions: the UIDs
   * us go out in ascending batches of at most max, one request per batch
   * (BatchedRequests).
   */
  method SendBatches(level: PrefetchLevel, folder: Folder, kind: FetchKind, us: set<Uid>, max: nat, processHtml: bool)
    returns (reqs: seq<Request>)
    requires max >= 1
    ensures reqs == BatchedRequests(level, folder, kind, us, max, processHtml)
  {
    var chunks := Batches(us, max);
    reqs := BatchRequests(level, folder, kind, chunks, processHtml);
  }

  /**
   * std::map::insert of every entry of extra into m: a key already in m
   * keeps its value, a key only in extra takes extra's.
   */
  function InsertMissing<V>(m: map<Uid, V>, extra: map<Uid, V>): (r: map<Uid, V>)
    ensures r.Keys == m.Keys + extra.Keys
    ensures forall u | u in m :: r[u] == m[u]
    ensures forall u | u in extra && u !in m :: r[u] == extra[u]
  {
    map u | u in m.Keys + extra.Keys :: if u in m then m[u] else extra[u]
  }

  /** A request for the UIDs of a folder at a level. */
  function UidsRequest(level: PrefetchLevel, folder: Folder): (r: Request)
    ensures r.getUids && r.folder == folder && r.prefetchLevel == level
    ensures !r.getFolders && r.getHeaders == {} && r.getFlags == {} && r.getBodys == {}
  {
    EmptyRequest(folder).(prefetchLevel := level, getUids := true)
  }

  /**
   * One kind of the full-sync UIDs part of ResponseHandler: the UIDs of us
   * that are neither cached, asked for nor prefetched yet are marked as
   * prefetched and prefetched in ascending batches of max. The source
   * handles the three kinds in one loop over us; each UID's three conditions are
   * independent, so one pass per kind claims the same UIDs.
   */
  method PrefetchKind(f: Folder, kind: FetchKind, us: set<Uid>, cached: set<Uid>, requested: set<Uid>,
                      prefetched: set<Uid>, max: nat)
    returns (reqs: seq<Request>, marked: set<Uid>)
    requires max >= 1
    ensures marked == prefetched + (us - (cached + requested) - prefetched)
    ensures reqs == BatchedRequests(LevelFullSync, f, kind, us - (cached + requested) - prefetched, max, false)
  {
    var q;
    q, marked := ClaimSet(us, cached + requested, prefetched);
    reqs := SendBatches(LevelFullSync, f, kind, q, max, false);
  }

  /** Some request of reqs is for folder g. */
  predicate SentTo(reqs: seq<Request>, g: Folder)
  {
    exists i :: 0 <= i < |reqs| && reqs[i].folder == g
  }

  /** A request of a + b is for g exactly when one of a or one of b is. */
  lemma SentToConcat(a: seq<Request>, b: seq<Request>, g: Folder)
    ensures SentTo(a + b, g) <==> SentTo(a, g) || SentTo(b, g)
  {
    var ab := a + b;
    if i :| 0 <= i < |a| && a[i].folder == g {
      assert ab[i].folder == g;
    }
    if i :| 0 <= i < |b| && b[i].folder == g {
      assert ab[|a| + i].folder == g;
    }
    if i :| 0 <= i < |ab| && ab[i].folder == g {
      if i < |a| {
        assert a[i].folder == g;
      } else {
        assert b[i - |a|].folder == g;
      }
    }
  }

  /**
   * The requests of the folders loop of ResponseHandler at the full-sync
   * level, the folders taken in ascending name order as std::set keeps
   * them: a folder not yet marked as prefetch-requested gets one full-sync
   * UIDs request and is marked.
   */
  function FolderUidsRequests(fs: set<Folder>, marks: map<Folder, bool>): seq<Request>
    decreases |fs|
  {
    if fs == {} then []
    else
      var g := FirstFolder(fs);
      if Get(marks, g, false) then FolderUidsRequests(fs - {g}, marks)
      else [UidsRequest(LevelFullSync, g)] + FolderUidsRequests(fs - {g}, marks[g := true])
  }

  /** The prefetch-requested marks the folders loop leaves. */
  function FolderUidsMarked(fs: set<Folder>, marks: map<Folder, bool>): map<Folder, bool>
    decreases |fs|
  {
    if fs == {} then marks
    else
      var g := FirstFolder(fs);
      FolderUidsMarked(fs - {g}, if Get(marks, g, false) then marks else marks[g := true])
  }

  /** After the folders loop exactly the folders marked before and those of fs are marked. */
  lemma {:induction false} FolderUidsMarkedSpec(fs: set<Folder>, marks: map<Folder, bool>)
    ensures forall g :: Get(FolderUidsMarked(fs, marks), g, false) <==> Get(marks, g, false) || g in fs
    decreases |fs|
  {
    if fs != {} {
      var g := FirstFolder(fs);
      var next := if Get(marks, g, false) then marks else marks[g := true];
      FolderUidsMarkedSpec(fs - {g}, next);
      assert FolderUidsMarked(fs, marks) == FolderUidsMarked(fs - {g}, next);
      assert forall x :: Get(next, x, false) <==> Get(marks, x, false) || x == g;
    }
  }

  /** Every request of the folders loop is a full-sync UIDs request. */
  lemma {:induction false} FolderUidsRequestsShape(fs: set<Folder>, marks: map<Folder, bool>)
    ensures forall i :: 0 <= i < |FolderUidsRequests(fs, marks)| ==>
      FolderUidsRequests(fs, marks)[i] == UidsRequest(LevelFullSync, FolderUidsRequests(fs, marks)[i].folder)
    decreases |fs|
  {
    if fs != {} {
      var g := FirstFolder(fs);
      if Get(marks, g, false) {
        FolderUidsRequestsShape(fs - {g}, marks);
      } else {
        FolderUidsRequestsShape(fs - {g}, marks[g := true]);
      }
    }
  }

  /**
   * The folders loop asks for the UIDs of exactly the folders of fs not
   * yet marked as prefetch-requested.
   */
  lemma {:induction false} FolderUidsRequestsSent(fs: set<Folder>, marks: map<Folder, bool>)
    ensures forall g :: SentTo(FolderUidsRequests(fs, marks), g) <==> g in fs && !Get(marks, g, false)
    decreases |fs|
  {
    if fs != {} {
      var g := FirstFolder(fs);
      if Get(marks, g, false) {
        FolderUidsRequestsSent(fs - {g}, marks);
      } else {
        var head := [UidsRequest(LevelFullSync, g)];
        var rest := FolderUidsRequests(fs - {g}, marks[g := true]);
        FolderUidsRequestsSent(fs - {g}, marks[g := true]);
        assert FolderUidsRequests(fs, marks) == head + rest;
        forall h
          ensures SentTo(head + rest, h) <==> h in fs && !Get(marks, h, false)
        {
          SentToConcat(head, rest, h);
          if h == g {
            assert head[0].folder == h;
          }
        }
      }
    }
  }

  /** The folders loop asks in strictly ascending folder order, so for each folder at most once. */
  lemma {:induction false} FolderUidsRequestsAscending(fs: set<Folder>, marks: map<Folder, bool>)
    ensures forall i, j :: 0 <= i < j < |FolderUidsRequests(fs, marks)| ==>
      FolderBelow(FolderUidsRequests(fs, marks)[i].folder, FolderUidsRequests(fs, marks)[j].folder)
    decreases |fs|
  {
    if fs != {} {
      var g := FirstFolder(fs);
      if Get(marks, g, false) {
        FolderUidsRequestsAscending(fs - {g}, marks);
      } else {
        var rest := FolderUidsRequests(fs - {g}, marks[g := true]);
        FolderUidsRequestsAscending(fs - {g}, marks[g := true]);
        FolderUidsRequestsSent(fs - {g}, marks[g := true]);
        var r := [UidsRequest(LevelFullSync, g)] + rest;
        assert FolderUidsRequests(fs, marks) == r;
        forall i, j | 0 <= i < j < |r|
          ensures FolderBelow(r[i].folder, r[j].folder)
        {
          assert r[j] == rest[j - 1];
          if i >= 1 {
            assert r[i] == rest[i - 1];
            assert FolderBelow(rest[i - 1].folder, rest[j - 1].folder);
          } else {
            var x := r[j].folder;
            assert rest[j - 1].folder == x;
            assert x in fs - {g} && r[i].folder == g;
            assert IsFirstFolder(g, fs);
          }
        }
      }
    }
  }

  /**
   * The folders loop of ResponseHandler at the full-sync level, step by
   * step: each folder whose UIDs were not prefetch-requested yet gets one
   * full-sync UIDs request and is marked (FolderUidsRequests,
   * FolderUidsMarked).
   */
  method RequestFolderUids(fs: set<Folder>, requested: map<Folder, bool>)
    returns (reqs: seq<Request>, newRequested: map<Folder, bool>)
    ensures reqs == FolderUidsRequests(fs, requested)
    ensures newRequested == FolderUidsMarked(fs, requested)
  {
    reqs, newRequested := [], requested;
    var rest := fs;
    while rest != {}
      invariant reqs + FolderUidsRequests(rest, newRequested) == FolderUidsRequests(fs, requested)
      invariant FolderUidsMarked(rest, newRequested) == FolderUidsMarked(fs, requested)
      decreases |rest|
    {
      var g := FirstFolder(rest);
      if !Get(newRequested, g, false) {
        assert FolderUidsRequests(rest, newRequested)
          == [UidsRequest(LevelFullSync, g)] + FolderUidsRequests(rest - {g}, newRequested[g := true]);
        reqs := reqs + [UidsRequest(LevelFullSync, g)];
        newRequested := newRequested[g := true];
      }
      rest := rest - {g};
    }
  }

  /**
   * The display indexes after the UIDs merge: the UIDs gone leave the
   * folder's index (keyed as before) and, unless all headers are
   * prefetched, the new UIDs join it (keyed as after).
   */
  function UidsPatched(keyBefore: Uid -> Bytes, keyAfter: Uid -> Bytes, d: Display, sf: map<Folder, SortFilter>,
                       f: Folder, known: set<Uid>, us: set<Uid>, prefetchAll: bool): Display
  {
    var added, removed := us - known, known - us;
    var d1 := if removed != {} then PatchedDisplay(keyBefore, d, sf, f, removed, {}) else d;
    if !prefetchAll && added != {} then PatchedDisplay(keyAfter, d1, sf, f, {}, added) else d1
  }

  /**
   * After the UIDs merge the display indexes still agree with the
   * folders' UIDs and every folder shows an up-to-date mode; the folder
   * lists none of the UIDs gone and, unless all headers are prefetched,
   * every new one; no other folder changes.
   */
  lemma UidsPatchedSpec(keyBefore: Uid -> Bytes, keyAfter: Uid -> Bytes, d: Display, sf: map<Folder, SortFilter>,
                        f: Folder, known: set<Uid>, us: set<Uid>, prefetchAll: bool)
    requires Injective(keyBefore) && Injective(keyAfter) && d.Consistent(sf)
    ensures UidsPatched(keyBefore, keyAfter, d, sf, f, known, us, prefetchAll).Consistent(sf)
    ensures UidsPatched(keyBefore, keyAfter, d, sf, f, known, us, prefetchAll).HeaderUidsOf(f)
      == (d.HeaderUidsOf(f) - (known - us)) + (if prefetchAll then {} else us - known)
    ensures forall g | g != f :: UidsPatched(keyBefore, keyAfter, d, sf, f, known, us, prefetchAll).HeaderUidsOf(g) == d.HeaderUidsOf(g)
  {
    var added, removed := us - known, known - us;
    var d1 := if removed != {} then PatchedDisplay(keyBefore, d, sf, f, removed, {}) else d;
    assert d1.Consistent(sf) && d1.HeaderUidsOf(f) == d.HeaderUidsOf(f) - removed
      && forall g | g != f :: d1.HeaderUidsOf(g) == d.HeaderUidsOf(g)
    by {
      if removed != {} {
        PatchedDisplayOk(keyBefore, d, sf, f, removed, {});
        PatchedDisplayUids(keyBefore, d, sf, f, removed, {});
      }
    }
    if !prefetchAll && added != {} {
      PatchedDisplayOk(keyAfter, d1, sf, f, {}, added);
      PatchedDisplayUids(keyAfter, d1, sf, f, {}, added);
    }
  }

  /** What the UIDs part of ResponseHandler leaves for one folder's display and asked-for sets. */
  datatype UidsMerge = UidsMerge(display: Display, requestedHeaders: set<Uid>, requestedFlags: set<Uid>,
                                 fetchHeaders: set<Uid>, fetchFlags: set<Uid>)

  /**
   * The UIDs part of ResponseHandler below the full-sync level, for
   * folder f whose UIDs were known and are now us: the UIDs gone leave the
   * display index (keyed as before); unless all headers are prefetched
   * the new UIDs join the index (keyed with the headers left, whose UIDs
   * are headerKeys); when they are, the headers of the new UIDs and the
   * flags of all UIDs that are neither cached nor asked for yet are
   * claimed and marked as asked for.
   */
  function MergedUids(keyBefore: Uid -> Bytes, keyAfter: Uid -> Bytes, d: Display, sf: map<Folder, SortFilter>,
                      f: Folder, known: set<Uid>, us: set<Uid>, headerKeys: set<Uid>, flagKeys: set<Uid>,
                      reqH: set<Uid>, reqF: set<Uid>, prefetchAll: bool): UidsMerge
  {
    var d2 := UidsPatched(keyBefore, keyAfter, d, sf, f, known, us, prefetchAll);
    if prefetchAll then
      var fh, ff := (us - known) - headerKeys - reqH, us - flagKeys - reqF;
      UidsMerge(d2, reqH + fh, reqF + ff, fh, ff)
    else
      UidsMerge(d2, reqH, reqF, {}, {})
  }

  /**
   * What the UIDs merge claims: when all headers are prefetched the new
   * UIDs whose header is neither cached nor asked for and the UIDs whose
   * flags are neither cached nor asked for, which join the asked-for
   * sets; otherwise nothing.
   */
  lemma MergedUidsClaims(keyBefore: Uid -> Bytes, keyAfter: Uid -> Bytes, d: Display, sf: map<Folder, SortFilter>,
                         f: Folder, known: set<Uid>, us: set<Uid>, headerKeys: set<Uid>, flagKeys: set<Uid>,
                         reqH: set<Uid>, reqF: set<Uid>, prefetchAll: bool)
    ensures var r := MergedUids(keyBefore, keyAfter, d, sf, f, known, us, headerKeys, flagKeys, reqH, reqF, prefetchAll);
      && r.fetchHeaders == (if prefetchAll then (us - known) - headerKeys - reqH else {})
      && r.fetchFlags == (if prefetchAll then us - flagKeys - reqF else {})
      && r.requestedHeaders == reqH + r.fetchHeaders
      && r.requestedFlags == reqF + r.fetchFlags
  {
  }

  /**
   * After the UIDs merge the display indexes still agree with the
   * folders' UIDs and every folder shows an up-to-date mode; the folder
   * lists none of the UIDs gone and, unless all headers are prefetched,
   * every new one; no other folder changes; and what is claimed was
   * neither cached nor asked for, while every new UID's missing header and
   * every UID's missing flags end up asked for when all headers are
   * prefetched.
   */
  lemma MergedUidsSpec(keyBefore: Uid -> Bytes, keyAfter: Uid -> Bytes, d: Display, sf: map<Folder, SortFilter>,
                       f: Folder, known: set<Uid>, us: set<Uid>, headerKeys: set<Uid>, flagKeys: set<Uid>,
                       reqH: set<Uid>, reqF: set<Uid>, prefetchAll: bool)
    requires Injective(keyBefore) && Injective(keyAfter) && d.Consistent(sf)
    ensures var r := MergedUids(keyBefore, keyAfter, d, sf, f, known, us, headerKeys, flagKeys, reqH, reqF, prefetchAll);
      && r.display.Consistent(sf)
      && r.display.HeaderUidsOf(f) == (d.HeaderUidsOf(f) - (known - us)) + (if prefetchAll then {} else us - known)
      && (forall g | g != f :: r.display.HeaderUidsOf(g) == d.HeaderUidsOf(g))
      && r.fetchHeaders !! headerKeys + reqH && r.fetchFlags !! flagKeys + reqF
      && (prefetchAll ==> us - known <= headerKeys + r.requestedHeaders && us <= flagKeys + r.requestedFlags)
  {
    UidsPatchedSpec(keyBefore, keyAfter, d, sf, f, known, us, prefetchAll);
    MergedUidsClaims(keyBefore, keyAfter, d, sf, f, known, us, headerKeys, flagKeys, reqH, reqF, prefetchAll);
  }

  /** The response carries folders: they were asked for and did not fail. */
  predicate FoldersArrived(req: Request, resp: Response) { req.getFolders && resp.status & GetFoldersFailed == 0 }
  /** The response carries the folder's UIDs. */
  predicate UidsArrived(req: Request, resp: Response) { req.getUids && resp.status & GetUidsFailed == 0 }
  /** The response carries headers. */
  predicate HeadersArrived(req: Request, resp: Response) { req.getHeaders != {} && resp.status & GetHeadersFailed == 0 }
  /** The response carries flags. */
  predicate FlagsArrived(req: Request, resp: Response) { req.getFlags != {} && resp.status & GetFlagsFailed == 0 }
  /** The response carries bodies. */
  predicate BodysArrived(req: Request, resp: Response) { req.getBodys != {} && resp.status & GetBodysFailed == 0 }

  /**
   * The message-list cursor: m_MessageListCurrentIndex,
   * m_MessageListCurrentUid and m_MessageListUidSet per folder (int32_t
   * values; an absent entry reads as 0 or false, as operator[] does),
   * m_CurrentFolderUid (-1 is no message), the static lastUid of
   * Ui::UpdateUidFromIndex and m_MessageViewToggledSeen.
   */
  datatype CursorState = CursorState(index: map<Folder, int>, uid: map<Folder, int>, uidSet: map<Folder, bool>,
                                     folderUid: (Folder, int), lastUid: int, toggledSeen: bool)
  {
    function IndexIn(f: Folder): int { Get(index, f, 0) }
    function UidIn(f: Folder): int { Get(uid, f, 0) }
    predicate UidSetIn(f: Folder) { Get(uidSet, f, false) }

    /**
     * The cursor of f names the message at its index in list, and
     * m_CurrentFolderUid names the same message; an empty list has the
     * cursor at -1.
     */
    predicate At(f: Folder, list: seq<Uid>)
    {
      && folderUid == (f, UidIn(f))
      && (if |list| == 0 then UidIn(f) == -1 else 0 <= IndexIn(f) < |list| && AsInt32(list[IndexIn(f)]) == UidIn(f))
    }

    /** The cursors of the folders other than f are those of c. */
    ghost predicate SameElsewhere(c: CursorState, f: Folder)
    {
      forall g | g != f :: IndexIn(g) == c.IndexIn(g) && UidIn(g) == c.UidIn(g) && UidSetIn(g) == c.UidSetIn(g)
    }
  }

  /**
   * The message-list half of Ui::UpdateUidFromIndex on folder f showing
   * list: clamp the index to the list and take the UID there (or -1), which
   * the cursor then names; the message view's toggled-seen mark survives
   * only when the UID is the one picked last time.
   */
  function PickUid(c: CursorState, f: Folder, list: seq<Uid>, userTriggered: bool): (r: CursorState)
    ensures r.At(f, list)
    ensures r.IndexIn(f) == ClampIndex(c.IndexIn(f), |list|)
    ensures r.UidSetIn(f) == userTriggered && r.SameElsewhere(c, f)
    ensures r.lastUid == r.UidIn(f)
    ensures r.toggledSeen <==> c.toggledSeen && c.lastUid == r.UidIn(f)
  {
    var i := ClampIndex(c.IndexIn(f), |list|);
    var u := UidAt(list, i);
    CursorState(c.index[f := i], c.uid[f := u], c.uidSet[f := userTriggered], (f, u), u,
      c.toggledSeen && c.lastUid == u)
  }

  /** The user placed the cursor of f, and its UID is still in list. */
  predicate Refound(c: CursorState, f: Folder, list: seq<Uid>)
  {
    c.UidSetIn(f) && FirstMatch(list, c.UidIn(f)) < |list|
  }

  /**
   * Ui::UpdateIndexFromUid outside search mode: when the user placed the
   * cursor of f, find its UID again in list and move the index to the first
   * entry holding it; when it is no longer listed, or the cursor was not the
   * user's, pick the UID at the index instead.
   */
  function Refind(c: CursorState, f: Folder, list: seq<Uid>): (r: CursorState)
    ensures r.At(f, list) && r.SameElsewhere(c, f)
    ensures Refound(c, f, list) ==>
      && r.UidIn(f) == c.UidIn(f) && r.UidSetIn(f)
      && r.IndexIn(f) == FirstMatch(list, c.UidIn(f))
      && r.lastUid == c.lastUid && r.toggledSeen == c.toggledSeen
    ensures !Refound(c, f, list) ==> r == PickUid(c, f, list, false)
  {
    if Refound(c, f, list) then c.(index := c.index[f := FirstMatch(list, c.UidIn(f))], folderUid := (f, c.UidIn(f)))
    else PickUid(c, f, list, false)
  }

  /**
   * A cursor the user placed survives a refind when the list is unchanged
   * and holds each UID once: picking and finding again are inverse.
   */
  lemma PickThenRefind(c: CursorState, f: Folder, list: seq<Uid>)
    requires NoDuplicates(list) && |list| > 0
    ensures Refind(PickUid(c, f, list, true), f, list) == PickUid(c, f, list, true)
  {
    var p := PickUid(c, f, list, true);
    var i := p.IndexIn(f);
    PickThenFind(list, i);
    assert FirstMatch(list, p.UidIn(f)) == i;
    assert p.index[f := i] == p.index;
  }

  /**
   * When the list changes around the message the user placed the cursor
   * on and the message is still listed once, the refound index is its new
   * position: the cursor follows the message, not the row.
   */
  lemma RefindFollows(c: CursorState, f: Folder, before: seq<Uid>, after: seq<Uid>, newIdx: int)
    requires c.At(f, before) && c.UidSetIn(f) && |before| > 0
    requires NoDuplicates(after) && 0 <= newIdx < |after| && after[newIdx] == before[c.IndexIn(f)]
    ensures Refind(c, f, after).IndexIn(f) == newIdx
    ensures Refind(c, f, after).UidIn(f) == c.UidIn(f)
  {
    FollowsMessage(before, after, c.IndexIn(f), newIdx);
    assert FirstMatch(after, c.UidIn(f)) <= newIdx;
  }

  /**
   * Under the display invariant a cursor placed on the list a folder shows
   * names a message of that folder (its UID converted back to uint32_t).
   */
  lemma CursorListed(d: Display, sf: map<Folder, SortFilter>, f: Folder, c: CursorState)
    requires d.Ok() && d.ShownCurrent(sf, None)
    requires c.At(f, Shown(d, sf, f))
    ensures |Shown(d, sf, f)| > 0 ==> AsUint32(c.UidIn(f)) in d.HeaderUidsOf(f)
  {
    var list := Shown(d, sf, f);
    if |list| > 0 {
      var i := c.IndexIn(f);
      ShownListed(d, sf, f);
      Int32RoundTrip(list[i], list[i]);
      assert list[i] in list;
    }
  }

  /** Under the display invariant the list a folder shows holds only UIDs of the folder, and never UID 0. */
  lemma ShownListed(d: Display, sf: map<Folder, SortFilter>, f: Folder)
    requires d.Ok() && d.ShownCurrent(sf, None)
    ensures forall u | u in Shown(d, sf, f) :: u != 0 && u in d.HeaderUidsOf(f)
  {
    var fm := (f, Get(sf, f, SortDefault));
    assert d.IsCurrent(f, fm.1);
    if fm in d.displayUids {
      assert Sorted(d.displayUids[fm]) && Listed(MapOf(d.displayUids[fm]), d.HeaderUidsOf(f));
      ListedShown(d.IndexOf(f, fm.1), d.HeaderUidsOf(f));
    }
  }

  /**
   * The search state: m_MessageListSearch, the query, the offset and size
   * of the last page asked for, whether the server has more, and the
   * results gathered so far (m_MessageListSearchResultHeaders and
   * m_MessageListSearchResultFolderUids).
   */
  datatype SearchState = SearchState(on: bool, query: string, offset: nat, max: nat, hasMore: bool,
                                     headers: seq<Header>, folderUids: seq<FolderUid>)
  {
    /** The two result vectors are in step. */
    predicate InStep() { |headers| == |folderUids| }
  }

  /**
   * The search half of Ui::UpdateUidFromIndex, the search list being kept
   * under folder f: clamp the index to the results and point
   * m_CurrentFolderUid at the hit there; when the server has more and the
   * cursor is within a screen of the end, the next page is due, one screen
   * long and starting right after the pages already asked for. The query
   * for it comes back alongside the new states.
   */
  function SearchPick(c: CursorState, s: SearchState, f: Folder, height: nat): (r: (CursorState, SearchState, seq<SearchQuery>))
    ensures var (c', s', asked) := r;
      && c'.IndexIn(f) == ClampIndex(c.IndexIn(f), |s.headers|)
      && c'.uid == c.uid && c'.uidSet == c.uidSet && c'.lastUid == c.lastUid && c'.toggledSeen == c.toggledSeen
      && c'.SameElsewhere(c, f)
      && (s.InStep() && |s.headers| > 0 ==> (c'.folderUid.0, AsUint32(c'.folderUid.1)) == s.folderUids[c'.IndexIn(f)])
      && (|s.folderUids| == 0 ==> c'.folderUid == c.folderUid)
      && s'.(offset := s.offset, max := s.max, hasMore := s.hasMore) == s
      && (asked != [] <==> NextPageDue(s.hasMore, c'.IndexIn(f), height, |s.headers|))
      && (asked == [] ==> s' == s)
      && (asked != [] ==> asked == [SearchQuery(s.query, s.offset + s.max, height)]
                          && s'.offset == s.offset + s.max && s'.max == height && !s'.hasMore)
  {
    var i := ClampIndex(c.IndexIn(f), |s.headers|);
    var fu := if 0 <= i < |s.folderUids| then (s.folderUids[i].0, AsInt32(s.folderUids[i].1)) else c.folderUid;
    var c' := c.(index := c.index[f := i], folderUid := fu);
    if NextPageDue(s.hasMore, i, height, |s.headers|) then
      var s' := s.(offset := s.offset + s.max, max := height, hasMore := false);
      (c', s', [SearchQuery(s.query, s'.offset, s'.max)])
    else (c', s, [])
  }

  /** Nothing placed yet: every index 0, m_CurrentFolderUid the empty folder and -1. */
  const NoCursor := CursorState(map[], map[], map[], ("", -1), 0, false)

  /** No search made yet. */
  const NoSearch := SearchState(false, "", 0, 0, false, [], [])

  /**
   * The mail cache: m_Folders, and per folder m_Uids, m_Headers, m_Flags
   * and m_Bodys; a folder without an entry reads as empty, as operator[]
   * makes it.
   */
  datatype Cache = Cache(folders: set<Folder>, uids: map<Folder, set<Uid>>, headers: map<Folder, map<Uid, Header>>,
                         flags: map<Folder, map<Uid, FlagWord>>, bodys: map<Folder, map<Uid, Body>>)
  {
    function UidsOf(f: Folder): set<Uid> { Get(uids, f, {}) }
    function HeadersOf(f: Folder): map<Uid, Header> { Get(headers, f, map[]) }
    function FlagsOf(f: Folder): map<Uid, FlagWord> { Get(flags, f, map[]) }
    function BodysOf(f: Folder): map<Uid, Body> { Get(bodys, f, map[]) }
  }

  /** Nothing cached. */
  const NoCache := Cache({}, map[], map[], map[], map[])

  /**
   * What has been asked for: m_HasRequestedUids and
   * m_HasPrefetchRequestedUids per folder, and per folder the UIDs whose
   * headers, flags and bodies were requested (m_Requested*) or prefetched
   * (m_Prefetched*).
   */
  datatype Asked = Asked(hasRequestedUids: map<Folder, bool>, hasPrefetchRequestedUids: map<Folder, bool>,
                         requestedHeaders: map<Folder, set<Uid>>, requestedFlags: map<Folder, set<Uid>>,
                         requestedBodys: map<Folder, set<Uid>>, prefetchedHeaders: map<Folder, set<Uid>>,
                         prefetchedFlags: map<Folder, set<Uid>>, prefetchedBodys: map<Folder, set<Uid>>)
  {
    function RequestedHeadersOf(f: Folder): set<Uid> { Get(requestedHeaders, f, {}) }
    function RequestedFlagsOf(f: Folder): set<Uid> { Get(requestedFlags, f, {}) }
    function RequestedBodysOf(f: Folder): set<Uid> { Get(requestedBodys, f, {}) }
    function PrefetchedHeadersOf(f: Folder): set<Uid> { Get(prefetchedHeaders, f, {}) }
    function PrefetchedFlagsOf(f: Folder): set<Uid> { Get(prefetchedFlags, f, {}) }
    function PrefetchedBodysOf(f: Folder): set<Uid> { Get(prefetchedBodys, f, {}) }
  }

  /** Nothing asked for. */
  const NothingAsked := Asked(map[], map[], map[], map[], map[], map[], map[], map[])

  /** The calls made to the IMAP and SMTP managers, in the order made. */
  datatype Calls = Calls(
    requests: seq<Request>,      // ImapManager::AsyncRequest
    prefetches: seq<Request>,    // ImapManager::PrefetchRequest
    actions: seq<Action>,        // ImapManager::AsyncAction
    searches: seq<SearchQuery>,  // ImapManager::AsyncSearch
    smtp: seq<SmtpAction>)       // SmtpManager::AsyncAction

  /** No call made yet. */
  const NoCalls := Calls([], [], [], [], [])

  /** What Ui::GetDisplayUidsKey reads besides the cache. */
  datatype Keying = Keying(fns: TextFns, filterCustomStr: Bytes, sentFolder: Folder, currentFolder: Folder,
                           sortFilter: map<Folder, SortFilter>)
  {
    /** The mode folder f shows; a folder without one shows the default (SortDefault is 0). */
    function Mode(f: Folder): SortFilter { Get(sortFilter, f, SortDefault) }

    function Env(c: Cache, f: Folder): KeyEnv
    {
      KeyEnv(c.HeadersOf(f), c.FlagsOf(f), filterCustomStr, f == sentFolder, currentFolder == sentFolder)
    }

    /** The key function of folder f's mode over the cache c. */
    function KeyIn(c: Cache, f: Folder): Uid -> Bytes { KeyFn(fns, Env(c, f), Mode(f)) }
  }

  /** Under the assumptions on the text helpers every folder's key function is injective. */
  lemma KeyInInjective(k: Keying, c: Cache, f: Folder)
    requires KeyFnsAssumed(k.fns)
    ensures Injective(k.KeyIn(c, f))
  {
    KeyFnInjective(k.fns, k.Env(c, f), k.Mode(f));
  }

  /**
   * What ResponseHandler leaves: the cache, display indexes and asked-for
   * sets, the requests and prefetch requests it sends, whether the screen
   * is redrawn and whether the cursor is found again.
   */
  datatype Handled = Handled(cache: Cache, display: Display, asked: Asked, requests: seq<Request>,
                             prefetches: seq<Request>, drawAll: bool, updateIndex: bool)

  /**
   * The UIDs part of ResponseHandler below the full-sync level for folder
   * f, whose UIDs become us (MergedUids): the headers of the UIDs gone are
   * dropped, and the headers and flags claimed are asked for in ascending
   * batches of 25 and 1000. The source sends those batches after the rest
   * of the response is taken in; nothing in between sends a request, so
   * they are appended here.
   */
  function UidsTaken(k: Keying, h: Handled, f: Folder, us: set<Uid>, prefetchAll: bool): Handled
  {
    var c := h.cache;
    var removed := c.UidsOf(f) - us;
    var c' := c.(headers := if removed == {} then c.headers else c.headers[f := c.HeadersOf(f) - removed],
                 uids := c.uids[f := us]);
    var a := h.asked;
    var m := MergedUids(k.KeyIn(c, f), k.KeyIn(c', f), h.display, k.sortFilter, f, c.UidsOf(f), us,
                        c'.HeadersOf(f).Keys, c.FlagsOf(f).Keys, a.RequestedHeadersOf(f), a.RequestedFlagsOf(f), prefetchAll);
    var a' := if prefetchAll
      then a.(requestedHeaders := a.requestedHeaders[f := m.requestedHeaders],
              requestedFlags := a.requestedFlags[f := m.requestedFlags])
      else a;
    h.(cache := c', display := m.display, asked := a',
       requests := h.requests + BatchedRequests(LevelNone, f, FetchHeaders, m.fetchHeaders, 25, false)
                              + BatchedRequests(LevelNone, f, FetchFlags, m.fetchFlags, 1000, false),
       drawAll := true, updateIndex := true)
  }

  /**
   * The headers part of ResponseHandler below the full-sync level: the
   * headers received join the folder's cache without replacing cached
   * ones, and when all headers are prefetched their UIDs join the display
   * index, keyed with the headers now cached.
   */
  function HeadersTaken(k: Keying, h: Handled, f: Folder, received: map<Uid, Header>, prefetchAll: bool): Handled
  {
    var c' := h.cache.(headers := h.cache.headers[f := InsertMissing(h.cache.HeadersOf(f), received)]);
    var d' := if prefetchAll then PatchedDisplay(k.KeyIn(c', f), h.display, k.sortFilter, f, {}, received.Keys) else h.display;
    h.(cache := c', display := d', drawAll := true, updateIndex := true)
  }

  /** The folders part of ResponseHandler below the full-sync level: the folder list is replaced. */
  function FoldersTaken(h: Handled, fs: set<Folder>): Handled
  {
    h.(cache := h.cache.(folders := fs), drawAll := true)
  }

  /**
   * The flags part of ResponseHandler below the full-sync level: the
   * received flags, filled up with the folder's cached ones, become the
   * folder's flags, so a received flag word replaces a cached one.
   */
  function FlagsTaken(h: Handled, f: Folder, received: map<Uid, FlagWord>): Handled
  {
    h.(cache := h.cache.(flags := h.cache.flags[f := InsertMissing(received, h.cache.FlagsOf(f))]), drawAll := true)
  }

  /** The bodies part of ResponseHandler below the full-sync level: received bodies join the folder's cache without replacing cached ones. */
  function BodysTaken(h: Handled, f: Folder, received: map<Uid, Body>): Handled
  {
    h.(cache := h.cache.(bodys := h.cache.bodys[f := InsertMissing(h.cache.BodysOf(f), received)]), drawAll := true)
  }

  /**
   * ResponseHandler below the full-sync level: each part that was asked
   * for and did not fail is taken in, in the order folders, UIDs,
   * headers, flags, bodies.
   */
  function MergedResponse(k: Keying, c: Cache, d: Display, a: Asked, req: Request, resp: Response, prefetchAll: bool): Handled
  {
    FlagsAndBodysTaken(TakenThroughHeaders(k, c, d, a, req, resp, prefetchAll), req, resp)
  }

  /** The flags and bodies parts of MergedResponse, which leave the display indexes alone. */
  function FlagsAndBodysTaken(h3: Handled, req: Request, resp: Response): Handled
  {
    var h4 := if FlagsArrived(req, resp) then FlagsTaken(h3, resp.folder, resp.flags) else h3;
    if BodysArrived(req, resp) then BodysTaken(h4, resp.folder, resp.bodys) else h4
  }

  /** The folders, UIDs and headers parts of MergedResponse, the ones that touch the display indexes. */
  function TakenThroughHeaders(k: Keying, c: Cache, d: Display, a: Asked, req: Request, resp: Response, prefetchAll: bool): Handled
  {
    var f := resp.folder;
    var h0 := Handled(c, d, a, [], [], false, false);
    var h1 := if FoldersArrived(req, resp) then FoldersTaken(h0, resp.folders) else h0;
    var h2 := if UidsArrived(req, resp) then UidsTaken(k, h1, f, resp.uids, prefetchAll) else h1;
    if HeadersArrived(req, resp) then HeadersTaken(k, h2, f, resp.headers, prefetchAll) else h2
  }

  /**
   * The folders part of ResponseHandler at the full-sync level: the UIDs
   * of every folder not yet prefetch-requested are prefetched, and every
   * folder is marked.
   */
  function FolderUidsPrefetched(h: Handled, fs: set<Folder>): Handled
  {
    var marks := h.asked.hasPrefetchRequestedUids;
    h.(asked := h.asked.(hasPrefetchRequestedUids := FolderUidsMarked(fs, marks)),
       prefetches := h.prefetches + FolderUidsRequests(fs, marks))
  }

  /**
   * The UIDs part of ResponseHandler at the full-sync level for folder f:
   * the UIDs of us whose header, flags or body is neither cached, asked
   * for nor prefetched yet are marked as prefetched and prefetched in
   * ascending batches of 25 headers, 1000 flags and single bodies.
   */
  function UidsPrefetched(h: Handled, f: Folder, us: set<Uid>): Handled
  {
    var c, a := h.cache, h.asked;
    var hs := us - (c.HeadersOf(f).Keys + a.RequestedHeadersOf(f)) - a.PrefetchedHeadersOf(f);
    var fs := us - (c.FlagsOf(f).Keys + a.RequestedFlagsOf(f)) - a.PrefetchedFlagsOf(f);
    var bs := us - (c.BodysOf(f).Keys + a.RequestedBodysOf(f)) - a.PrefetchedBodysOf(f);
    var a' := a.(prefetchedHeaders := a.prefetchedHeaders[f := a.PrefetchedHeadersOf(f) + hs],
                 prefetchedFlags := a.prefetchedFlags[f := a.PrefetchedFlagsOf(f) + fs],
                 prefetchedBodys := a.prefetchedBodys[f := a.PrefetchedBodysOf(f) + bs]);
    h.(asked := a',
       prefetches := h.prefetches + BatchedRequests(LevelFullSync, f, FetchHeaders, hs, 25, false)
                                  + BatchedRequests(LevelFullSync, f, FetchFlags, fs, 1000, false)
                                  + BatchedRequests(LevelFullSync, f, FetchBodys, bs, 1, false))
  }

  /** ResponseHandler at the full-sync level: nothing is cached, only prefetches go out. */
  function FullSynced(c: Cache, d: Display, a: Asked, req: Request, resp: Response): Handled
  {
    var h0 := Handled(c, d, a, [], [], false, false);
    var h1 := if FoldersArrived(req, resp) then FolderUidsPrefetched(h0, resp.folders) else h0;
    if UidsArrived(req, resp) then UidsPrefetched(h1, resp.folder, resp.uids) else h1
  }

  /** The cache and request work of Ui::ResponseHandler, by the level of the request answered. */
  function Handle(k: Keying, c: Cache, d: Display, a: Asked, req: Request, resp: Response, prefetchAll: bool): Handled
  {
    if req.prefetchLevel != LevelFullSync then MergedResponse(k, c, d, a, req, resp, prefetchAll)
    else FullSynced(c, d, a, req, resp)
  }

  /**
   * The UIDs part of ResponseHandler below the full-sync level, step by
   * step as the source takes it (UidsTaken): the UpdateDisplayUids patch
   * of the UIDs gone, the header removal, the new UIDs, the patch of the
   * new UIDs or the two claim loops, and the two batching loops.
   */
  method TakeUids(k: Keying, h: Handled, f: Folder, us: set<Uid>, prefetchAll: bool) returns (r: Handled)
    requires KeyFnsAssumed(k.fns) && h.display.Consistent(k.sortFilter)
    ensures r == UidsTaken(k, h, f, us, prefetchAll)
  {
    var c, d, a := h.cache, h.display, h.asked;
    var known := c.UidsOf(f);
    var added, removed := us - known, known - us;
    KeyInInjective(k, c, f);
    if removed != {} {
      d := PatchFolder(k.KeyIn(c, f), d, k.sortFilter, f, removed, {});
      PatchedDisplayOk(k.KeyIn(h.cache, f), h.display, k.sortFilter, f, removed, {});
      c := c.(headers := c.headers[f := c.HeadersOf(f) - removed]);
    }
    c := c.(uids := c.uids[f := us]);
    KeyInInjective(k, c, f);
    if !prefetchAll && added != {} {
      d := PatchFolder(k.KeyIn(c, f), d, k.sortFilter, f, {}, added);
    }
    var fh, ff := {}, {};
    if prefetchAll {
      var rh, rf;
      fh, rh := ClaimSet(added, c.HeadersOf(f).Keys, a.RequestedHeadersOf(f));
      ff, rf := ClaimSet(us, c.FlagsOf(f).Keys, a.RequestedFlagsOf(f));
      a := a.(requestedHeaders := a.requestedHeaders[f := rh], requestedFlags := a.requestedFlags[f := rf]);
    }
    var hr := SendBatches(LevelNone, f, FetchHeaders, fh, 25, false);
    var fr := SendBatches(LevelNone, f, FetchFlags, ff, 1000, false);
    r := h.(cache := c, display := d, asked := a, requests := h.requests + hr + fr, drawAll := true, updateIndex := true);
  }

  /** The headers part of ResponseHandler below the full-sync level, step by step (HeadersTaken). */
  method TakeHeaders(k: Keying, h: Handled, f: Folder, received: map<Uid, Header>, prefetchAll: bool) returns (r: Handled)
    requires KeyFnsAssumed(k.fns) && h.display.Consistent(k.sortFilter)
    ensures r == HeadersTaken(k, h, f, received, prefetchAll)
  {
    var c := h.cache.(headers := h.cache.headers[f := InsertMissing(h.cache.HeadersOf(f), received)]);
    var d := h.display;
    if prefetchAll {
      KeyInInjective(k, c, f);
      d := PatchFolder(k.KeyIn(c, f), d, k.sortFilter, f, {}, received.Keys);
    }
    r := h.(cache := c, display := d, drawAll := true, updateIndex := true);
  }

  /** ResponseHandler below the full-sync level, step by step (MergedResponse). */
  method MergeSteps(k: Keying, c: Cache, d: Display, a: Asked, req: Request, resp: Response, prefetchAll: bool)
    returns (h: Handled)
    requires KeyFnsAssumed(k.fns) && d.Consistent(k.sortFilter)
    ensures h == MergedResponse(k, c, d, a, req, resp, prefetchAll)
  {
    var f := resp.folder;
    h := Handled(c, d, a, [], [], false, false);
    if FoldersArrived(req, resp) {
      h := FoldersTaken(h, resp.folders);
    }
    if UidsArrived(req, resp) {
      UidsTakenConsistent(k, h, f, resp.uids, prefetchAll);
      h := TakeUids(k, h, f, resp.uids, prefetchAll);
    }
    if HeadersArrived(req, resp) {
      h := TakeHeaders(k, h, f, resp.headers, prefetchAll);
    }
    if FlagsArrived(req, resp) {
      h := FlagsTaken(h, f, resp.flags);
    }
    if BodysArrived(req, resp) {
      h := BodysTaken(h, f, resp.bodys);
    }
  }

  /** The full-sync UIDs part of ResponseHandler, step by step (UidsPrefetched). */
  method PrefetchUids(h: Handled, f: Folder, us: set<Uid>) returns (r: Handled)
    ensures r == UidsPrefetched(h, f, us)
  {
    var c, a := h.cache, h.asked;
    var hr, ph := PrefetchKind(f, FetchHeaders, us, c.HeadersOf(f).Keys, a.RequestedHeadersOf(f), a.PrefetchedHeadersOf(f), 25);
    var fr, pf := PrefetchKind(f, FetchFlags, us, c.FlagsOf(f).Keys, a.RequestedFlagsOf(f), a.PrefetchedFlagsOf(f), 1000);
    var br, pb := PrefetchKind(f, FetchBodys, us, c.BodysOf(f).Keys, a.RequestedBodysOf(f), a.PrefetchedBodysOf(f), 1);
    a := a.(prefetchedHeaders := a.prefetchedHeaders[f := ph], prefetchedFlags := a.prefetchedFlags[f := pf],
            prefetchedBodys := a.prefetchedBodys[f := pb]);
    r := h.(asked := a, prefetches := h.prefetches + hr + fr + br);
  }

  /** ResponseHandler at the full-sync level, step by step (FullSynced). */
  method FullSyncSteps(c: Cache, d: Display, a: Asked, req: Request, resp: Response) returns (h: Handled)
    ensures h == FullSynced(c, d, a, req, resp)
  {
    h := Handled(c, d, a, [], [], false, false);
    if FoldersArrived(req, resp) {
      var reqs, marks := RequestFolderUids(resp.folders, a.hasPrefetchRequestedUids);
      h := h.(asked := h.asked.(hasPrefetchRequestedUids := marks), prefetches := h.prefetches + reqs);
    }
    if UidsArrived(req, resp) {
      h := PrefetchUids(h, resp.folder, resp.uids);
    }
  }

  /** The cache and request work of Ui::ResponseHandler, step by step (Handle). */
  method HandleSteps(k: Keying, c: Cache, d: Display, a: Asked, req: Request, resp: Response, prefetchAll: bool)
    returns (h: Handled)
    requires KeyFnsAssumed(k.fns) && d.Consistent(k.sortFilter)
    ensures h == Handle(k, c, d, a, req, resp, prefetchAll)
  {
    if req.prefetchLevel != LevelFullSync {
      h := MergeSteps(k, c, d, a, req, resp, prefetchAll);
    } else {
      h := FullSyncSteps(c, d, a, req, resp);
    }
  }

  /**
   * The UIDs part keeps the display indexes consistent; the folder lists
   * none of the UIDs gone and, unless all headers are prefetched, every
   * new one, while other folders are untouched.
   */
  lemma UidsTakenConsistent(k: Keying, h: Handled, f: Folder, us: set<Uid>, prefetchAll: bool)
    requires KeyFnsAssumed(k.fns) && h.display.Consistent(k.sortFilter)
    ensures var r := UidsTaken(k, h, f, us, prefetchAll);
      && r.display.Consistent(k.sortFilter)
      && r.display.HeaderUidsOf(f) == (h.display.HeaderUidsOf(f) - (h.cache.UidsOf(f) - us))
                                      + (if prefetchAll then {} else us - h.cache.UidsOf(f))
      && (forall g | g != f :: r.display.HeaderUidsOf(g) == h.display.HeaderUidsOf(g))
  {
    var c := h.cache;
    var removed := c.UidsOf(f) - us;
    var c' := c.(headers := if removed == {} then c.headers else c.headers[f := c.HeadersOf(f) - removed],
                 uids := c.uids[f := us]);
    var a := h.asked;
    KeyInInjective(k, c, f);
    KeyInInjective(k, c', f);
    var m := MergedUids(k.KeyIn(c, f), k.KeyIn(c', f), h.display, k.sortFilter, f, c.UidsOf(f), us,
                        c'.HeadersOf(f).Keys, c.FlagsOf(f).Keys, a.RequestedHeadersOf(f), a.RequestedFlagsOf(f), prefetchAll);
    MergedUidsSpec(k.KeyIn(c, f), k.KeyIn(c', f), h.display, k.sortFilter, f, c.UidsOf(f), us,
                   c'.HeadersOf(f).Keys, c.FlagsOf(f).Keys, a.RequestedHeadersOf(f), a.RequestedFlagsOf(f), prefetchAll);
    assert UidsTaken(k, h, f, us, prefetchAll).display == m.display;
  }

  /**
   * The UIDs part leaves the folder's UIDs as received and keeps every
   * cached header but those of the UIDs gone; nothing else in the cache
   * changes.
   */
  lemma UidsTakenCache(k: Keying, h: Handled, f: Folder, us: set<Uid>, prefetchAll: bool)
    ensures var r := UidsTaken(k, h, f, us, prefetchAll).cache;
      && r.UidsOf(f) == us
      && r.HeadersOf(f) == h.cache.HeadersOf(f) - (h.cache.UidsOf(f) - us)
      && r.folders == h.cache.folders && r.flags == h.cache.flags && r.bodys == h.cache.bodys
      && (forall g | g != f :: r.UidsOf(g) == h.cache.UidsOf(g) && r.HeadersOf(g) == h.cache.HeadersOf(g))
  {
    var c := h.cache;
    var removed := c.UidsOf(f) - us;
    assert removed == {} ==> c.HeadersOf(f) - removed == c.HeadersOf(f);
  }

  /**
   * When all headers are prefetched, the UIDs part asks, in ascending
   * batches of 25 and 1000, for exactly the headers of the new UIDs and
   * the flags of all UIDs that were neither cached nor asked for, and
   * marks them as asked for; otherwise it asks for nothing.
   */
  lemma UidsTakenAsks(k: Keying, h: Handled, f: Folder, us: set<Uid>, prefetchAll: bool)
    ensures var r := UidsTaken(k, h, f, us, prefetchAll);
      var known := h.cache.UidsOf(f);
      var fh := if prefetchAll then (us - known) - (h.cache.HeadersOf(f) - (known - us)).Keys - h.asked.RequestedHeadersOf(f) else {};
      var ff := if prefetchAll then us - h.cache.FlagsOf(f).Keys - h.asked.RequestedFlagsOf(f) else {};
      && r.asked.RequestedHeadersOf(f) == h.asked.RequestedHeadersOf(f) + fh
      && r.asked.RequestedFlagsOf(f) == h.asked.RequestedFlagsOf(f) + ff
      && r.requests == h.requests + BatchedRequests(LevelNone, f, FetchHeaders, fh, 25, false)
                                  + BatchedRequests(LevelNone, f, FetchFlags, ff, 1000, false)
  {
    var c := h.cache;
    var removed := c.UidsOf(f) - us;
    var c' := c.(headers := if removed == {} then c.headers else c.headers[f := c.HeadersOf(f) - removed],
                 uids := c.uids[f := us]);
    assert c'.HeadersOf(f) == c.HeadersOf(f) - removed;
    var a := h.asked;
    var m := MergedUids(k.KeyIn(c, f), k.KeyIn(c', f), h.display, k.sortFilter, f, c.UidsOf(f), us,
                        c'.HeadersOf(f).Keys, c.FlagsOf(f).Keys, a.RequestedHeadersOf(f), a.RequestedFlagsOf(f), prefetchAll);
    MergedUidsClaims(k.KeyIn(c, f), k.KeyIn(c', f), h.display, k.sortFilter, f, c.UidsOf(f), us,
                     c'.HeadersOf(f).Keys, c.FlagsOf(f).Keys, a.RequestedHeadersOf(f), a.RequestedFlagsOf(f), prefetchAll);
    var a' := if prefetchAll
      then a.(requestedHeaders := a.requestedHeaders[f := m.requestedHeaders],
              requestedFlags := a.requestedFlags[f := m.requestedFlags])
      else a;
    assert UidsTaken(k, h, f, us, prefetchAll) == h.(cache := c', display := m.display, asked := a',
       requests := h.requests + BatchedRequests(LevelNone, f, FetchHeaders, m.fetchHeaders, 25, false)
                              + BatchedRequests(LevelNone, f, FetchFlags, m.fetchFlags, 1000, false),
       drawAll := true, updateIndex := true);
  }

  /** The headers part keeps the display indexes consistent; received headers join the index when all headers are prefetched. */
  lemma HeadersTakenConsistent(k: Keying, h: Handled, f: Folder, received: map<Uid, Header>, prefetchAll: bool)
    requires KeyFnsAssumed(k.fns) && h.display.Consistent(k.sortFilter)
    ensures var r := HeadersTaken(k, h, f, received, prefetchAll);
      && r.display.Consistent(k.sortFilter)
      && r.display.HeaderUidsOf(f) == h.display.HeaderUidsOf(f) + (if prefetchAll then received.Keys else {})
      && (forall g | g != f :: r.display.HeaderUidsOf(g) == h.display.HeaderUidsOf(g))
  {
    var c' := h.cache.(headers := h.cache.headers[f := InsertMissing(h.cache.HeadersOf(f), received)]);
    if prefetchAll {
      KeyInInjective(k, c', f);
      PatchedDisplayOk(k.KeyIn(c', f), h.display, k.sortFilter, f, {}, received.Keys);
      PatchedDisplayUids(k.KeyIn(c', f), h.display, k.sortFilter, f, {}, received.Keys);
    }
  }

  /** Handling a response keeps the display indexes consistent. */
  lemma HandleConsistent(k: Keying, c: Cache, d: Display, a: Asked, req: Request, resp: Response, prefetchAll: bool)
    requires KeyFnsAssumed(k.fns) && d.Consistent(k.sortFilter)
    ensures Handle(k, c, d, a, req, resp, prefetchAll).display.Consistent(k.sortFilter)
  {
    if req.prefetchLevel != LevelFullSync {
      MergedResponseConsistent(k, c, d, a, req, resp, prefetchAll);
    } else {
      FullSyncedCache(c, d, a, req, resp);
    }
  }

  /** Taking a response in below the full-sync level keeps the display indexes consistent. */
  lemma MergedResponseConsistent(k: Keying, c: Cache, d: Display, a: Asked, req: Request, resp: Response, prefetchAll: bool)
    requires KeyFnsAssumed(k.fns) && d.Consistent(k.sortFilter)
    ensures MergedResponse(k, c, d, a, req, resp, prefetchAll).display.Consistent(k.sortFilter)
  {
    MergedResponseDisplay(k, c, d, a, req, resp, prefetchAll);
    ThroughHeadersConsistent(k, c, d, a, req, resp, prefetchAll);
  }

  /** Only the folders, UIDs and headers parts touch the display indexes. */
  lemma MergedResponseDisplay(k: Keying, c: Cache, d: Display, a: Asked, req: Request, resp: Response, prefetchAll: bool)
    ensures MergedResponse(k, c, d, a, req, resp, prefetchAll).display == TakenThroughHeaders(k, c, d, a, req, resp, prefetchAll).display
  {
    FlagsAndBodysDisplay(TakenThroughHeaders(k, c, d, a, req, resp, prefetchAll), req, resp);
  }

  /** Taking in flags and bodies leaves the display indexes as they were. */
  lemma FlagsAndBodysDisplay(h: Handled, req: Request, resp: Response)
    ensures FlagsAndBodysTaken(h, req, resp).display == h.display
  {
  }

  /** The folders, UIDs and headers parts keep the display indexes consistent. */
  lemma ThroughHeadersConsistent(k: Keying, c: Cache, d: Display, a: Asked, req: Request, resp: Response, prefetchAll: bool)
    requires KeyFnsAssumed(k.fns) && d.Consistent(k.sortFilter)
    ensures TakenThroughHeaders(k, c, d, a, req, resp, prefetchAll).display.Consistent(k.sortFilter)
  {
    var f := resp.folder;
    var h0 := Handled(c, d, a, [], [], false, false);
    var h1 := if FoldersArrived(req, resp) then FoldersTaken(h0, resp.folders) else h0;
    var h2 := if UidsArrived(req, resp) then UidsTaken(k, h1, f, resp.uids, prefetchAll) else h1;
    if UidsArrived(req, resp) {
      UidsTakenConsistent(k, h1, f, resp.uids, prefetchAll);
    }
    if HeadersArrived(req, resp) {
      HeadersTakenConsistent(k, h2, f, resp.headers, prefetchAll);
    }
  }

  /**
   * At the full-sync level nothing is cached and the display indexes are
   * left alone: the response only leads to prefetch requests, and the
   * screen is neither redrawn nor the cursor moved.
   */
  lemma FullSyncedCache(c: Cache, d: Display, a: Asked, req: Request, resp: Response)
    ensures var h := FullSynced(c, d, a, req, resp);
      h.cache == c && h.display == d && h.requests == [] && !h.drawAll && !h.updateIndex
  {
    var h0 := Handled(c, d, a, [], [], false, false);
    var h1 := if FoldersArrived(req, resp) then FolderUidsPrefetched(h0, resp.folders) else h0;
    assert h1.cache == c && h1.display == d && h1.requests == [] && !h1.drawAll && !h1.updateIndex;
  }



  /**
   * What Ui::UpdateUidFromIndex does to the cursor and the search state of
   * folder f showing list: SearchPick in search mode, PickUid otherwise;
   * the queries it sends come third.
   */
  function Pick(c: CursorState, s: SearchState, f: Folder, list: seq<Uid>, height: nat, userTriggered: bool)
    : (r: (CursorState, SearchState, seq<SearchQuery>))
    ensures r.1.on == s.on && r.1.headers == s.headers && r.1.folderUids == s.folderUids
    ensures !s.on ==> r.0.At(f, list) && r.1 == s && r.2 == []
  {
    if s.on then SearchPick(c, s, f, height) else (PickUid(c, f, list, userTriggered), s, [])
  }

  /** What Ui::UpdateIndexFromUid does to the cursor of folder f showing list: nothing in search mode, Refind otherwise. */
  function Refocus(c: CursorState, s: SearchState, f: Folder, list: seq<Uid>): (r: CursorState)
    ensures !s.on ==> r.At(f, list)
    ensures s.on ==> r == c
  {
    if s.on then c else Refind(c, f, list)
  }

  /**
   * Removing UIDs from a folder whose other folders show up-to-date
   * indexes leaves the folder showing none of them, and the other folders
   * showing what they showed.
   */
  lemma RemovedNotShown(keyOf: Uid -> Bytes, d: Display, sf: map<Folder, SortFilter>, folder: Folder, removed: set<Uid>)
    requires Injective(keyOf) && d.Ok() && d.ShownCurrent(sf, Some(folder))
    ensures forall u | u in Shown(PatchedDisplay(keyOf, d, sf, folder, removed, {}), sf, folder) :: u !in removed
    ensures forall g | g != folder :: Shown(PatchedDisplay(keyOf, d, sf, folder, removed, {}), sf, g) == Shown(d, sf, g)
  {
    var d' := PatchedDisplay(keyOf, d, sf, folder, removed, {});
    PatchedDisplayOk(keyOf, d, sf, folder, removed, {});
    PatchedDisplayUids(keyOf, d, sf, folder, removed, {});
    ShownListed(d', sf, folder);
  }

  /**
   * What Ui::SortFilterPreUpdate does to the cursor of folder f showing
   * list: with m_PersistSelectionOnSortFilterChange the UID at the index
   * is picked as the user's, so that the cursor can follow it into the new
   * order; otherwise nothing.
   */
  function PrePicked(c: CursorState, s: SearchState, f: Folder, list: seq<Uid>, height: nat, persist: bool)
    : (r: (CursorState, SearchState, seq<SearchQuery>))
    ensures r.1.on == s.on && r.1.headers == s.headers && r.1.folderUids == s.folderUids
    ensures !persist ==> r == (c, s, [])
    ensures persist && !s.on ==> r.0.At(f, list) && r.0.UidSetIn(f) && r.1 == s && r.2 == []
  {
    if persist then Pick(c, s, f, list, height, true) else (c, s, [])
  }

  /** Queries logged in two steps are logged as one. */
  lemma QueriesAppended(log: seq<SearchQuery>, first: seq<SearchQuery>, second: seq<SearchQuery>)
    ensures log + first + second == log + (first + second)
  {
  }

  /**
   * What a sort or filter change does to the cursor of folder f, which
   * showed before and shows after: SortFilterPreUpdate on the old list,
   * then, in Ui::SortFilterUpdated, with persisted selection the UID is
   * found again in the new list (Refocus); without it the cursor goes back
   * to the top of the new list. The queries sent come third.
   */
  function Resorted(c: CursorState, s: SearchState, f: Folder, before: seq<Uid>, after: seq<Uid>, height: nat, persist: bool)
    : (r: (CursorState, SearchState, seq<SearchQuery>))
    ensures r.1.on == s.on && r.1.headers == s.headers && r.1.folderUids == s.folderUids
    ensures !s.on ==> r.0.At(f, after) && r.0.SameElsewhere(c, f) && r.1 == s && r.2 == []
  {
    var p := PrePicked(c, s, f, before, height, persist);
    var q := Settled(p.0, p.1, f, after, height, persist);
    (q.0, q.1, p.2 + q.2)
  }

  /**
   * The cursor half of Ui::SortFilterUpdated on folder f, which now shows
   * list: with persisted selection Refocus; without it the index goes to 0
   * and the UID there is picked as the user's.
   */
  function Settled(c: CursorState, s: SearchState, f: Folder, list: seq<Uid>, height: nat, persist: bool)
    : (r: (CursorState, SearchState, seq<SearchQuery>))
    ensures r.1.on == s.on && r.1.headers == s.headers && r.1.folderUids == s.folderUids
    ensures !s.on ==> r.0.At(f, list) && r.0.SameElsewhere(c, f) && r.1 == s && r.2 == []
    ensures persist ==> r == (Refocus(c, s, f, list), s, [])
  {
    if persist then (Refocus(c, s, f, list), s, [])
    else Pick(c.(index := c.index[f := 0]), s, f, list, height, true)
  }

  /**
   * With persisted selection the message under the cursor stays under it
   * across a sort or filter change: when it is still listed (once), the
   * cursor moves to its new row and keeps its UID.
   */
  lemma ResortFollowsMessage(c: CursorState, s: SearchState, f: Folder, before: seq<Uid>, after: seq<Uid>,
                             height: nat, newIdx: int)
    requires !s.on && |before| > 0
    requires NoDuplicates(after) && 0 <= newIdx < |after| && after[newIdx] == before[ClampIndex(c.IndexIn(f), |before|)]
    ensures Resorted(c, s, f, before, after, height, true).0.IndexIn(f) == newIdx
    ensures Resorted(c, s, f, before, after, height, true).0.UidIn(f) == AsInt32(after[newIdx])
  {
    var p := PickUid(c, f, before, true);
    assert PrePicked(c, s, f, before, height, true).0 == p;
    RefindFollows(p, f, before, after, newIdx);
  }

  /**
   * Without persisted selection a sort or filter change puts the cursor on
   * the first row of the new list, as the user's choice.
   */
  lemma ResortGoesToTop(c: CursorState, s: SearchState, f: Folder, before: seq<Uid>, after: seq<Uid>, height: nat)
    requires !s.on
    ensures Resorted(c, s, f, before, after, height, false).0.IndexIn(f) == 0
    ensures Resorted(c, s, f, before, after, height, false).0.UidSetIn(f)
    ensures |after| > 0 ==> Resorted(c, s, f, before, after, height, false).0.UidIn(f) == AsInt32(after[0])
  {
  }

  /**
   * Switching one folder to another mode keeps the indexes in agreement;
   * only that folder's shown mode may now be stale.
   */
  lemma ModeSwitched(d: Display, sf: map<Folder, SortFilter>, f: Folder, m: SortFilter)
    requires d.Consistent(sf)
    ensures d.Ok() && d.ShownCurrent(sf[f := m], Some(f))
  {
    forall g: Folder | Some(f) != Some(g)
      ensures d.IsCurrent(g, Get(sf[f := m], g, SortDefault))
    {
      assert Get(sf[f := m], g, SortDefault) == Get(sf, g, SortDefault);
    }
  }

  /**
   * The custom filters are not cached (Ui::ToggleFilter): the index of the
   * folder's mode m is emptied and marked as built at version 0.
   */
  function ClearedIndex(d: Display, f: Folder, m: SortFilter): (r: Display)
    ensures r.IndexOf(f, m) == [] && r.IndexVersionOf(f, m) == 0
    ensures r.headerUids == d.headerUids && r.headerUidsVersion == d.headerUidsVersion
    ensures forall fm | fm != (f, m) ::
      r.IndexOf(fm.0, fm.1) == d.IndexOf(fm.0, fm.1) && r.IndexVersionOf(fm.0, fm.1) == d.IndexVersionOf(fm.0, fm.1)
  {
    d.(displayUids := d.displayUids[(f, m) := []], displayUidsVersion := d.displayUidsVersion[(f, m) := 0])
  }

  /**
   * Emptying an index keeps the indexes in agreement, and unless the folder
   * never had a UID it makes the index stale, so that it is rebuilt
   * before it is shown.
   */
  lemma ClearedIndexOk(d: Display, sf: map<Folder, SortFilter>, f: Folder, m: SortFilter)
    requires d.Ok() && d.ShownCurrent(sf, Some(f))
    ensures ClearedIndex(d, f, m).Ok() && ClearedIndex(d, f, m).ShownCurrent(sf, Some(f))
    ensures d.ShownCurrent(sf, None) && m != Get(sf, f, SortDefault) ==> ClearedIndex(d, f, m).ShownCurrent(sf, None)
    ensures d.VersionOf(f) > 0 ==> !ClearedIndex(d, f, m).IsCurrent(f, m)
  {
    var d' := ClearedIndex(d, f, m);
    MapOfEmpty([]);
    forall fm | fm in d'.displayUids
      ensures Sorted(d'.displayUids[fm])
    {
      if fm != (f, m) {
        assert d'.displayUids[fm] == d.displayUids[fm];
      }
    }
    forall fm | fm in d'.displayUidsVersion
      ensures d'.displayUidsVersion[fm] <= d'.VersionOf(fm.0)
    {
      if fm != (f, m) {
        assert d'.displayUidsVersion[fm] == d.displayUidsVersion[fm];
      }
    }
    forall fm | fm in d'.displayUids && d'.IsCurrent(fm.0, fm.1)
      ensures Listed(MapOf(d'.displayUids[fm]), d'.HeaderUidsOf(fm.0))
    {
      if fm != (f, m) {
        assert d'.displayUids[fm] == d.displayUids[fm];
      }
    }
  }

  /**
   * Ui::UpdateDisplayUids with nothing removed or added, as a sort or
   * filter change calls it: the index of the mode f shows is rebuilt from
   * the folder's UIDs when it is stale, and is then up to date.
   */
  function Reshown(keyOf: Uid -> Bytes, d: Display, sf: map<Folder, SortFilter>, f: Folder): Display
  {
    var m := Get(sf, f, SortDefault);
    var idx := if d.IsCurrent(f, m) then d.IndexOf(f, m) else InsertAll(keyOf, [], d.HeaderUidsOf(f));
    Display(d.headerUids[f := d.HeaderUidsOf(f)], d.headerUidsVersion[f := d.VersionOf(f)],
      d.displayUids[(f, m) := idx], d.displayUidsVersion[(f, m) := d.VersionOf(f)])
  }

  /** Patching with nothing removed or added is Reshown. */
  lemma ReshownIsPatched(keyOf: Uid -> Bytes, d: Display, sf: map<Folder, SortFilter>, f: Folder)
    ensures PatchedDisplay(keyOf, d, sf, f, {}, {}) == Reshown(keyOf, d, sf, f)
  {
    var m := Get(sf, f, SortDefault);
    var start := if d.IsCurrent(f, m) then d.IndexOf(f, m) else InsertAll(keyOf, [], d.HeaderUidsOf(f));
    EraseNothing(start);
    assert InsertAll(keyOf, start, {}) == start;
    assert Bump({}) == 0;
    assert (d.HeaderUidsOf(f) - {}) + {} == d.HeaderUidsOf(f);
  }

  /**
   * A mode whose index is stale is rebuilt when the folder is next shown:
   * it then lists, once each, exactly the folder's UIDs whose key in that
   * mode is not empty.
   */
  lemma RebuiltShows(keyOf: Uid -> Bytes, d: Display, sf: map<Folder, SortFilter>, f: Folder)
    requires Injective(keyOf) && !d.IsCurrent(f, Get(sf, f, SortDefault))
    ensures forall u :: u in Shown(Reshown(keyOf, d, sf, f), sf, f) <==> u in d.HeaderUidsOf(f) && Keyed(keyOf, u)
    ensures NoDuplicates(Shown(Reshown(keyOf, d, sf, f), sf, f))
  {
    var m := Get(sf, f, SortDefault);
    var hu := d.HeaderUidsOf(f);
    var idx := InsertAll(keyOf, [], hu);
    MapOfEmpty([]);
    InsertAllSpec(keyOf, [], hu);
    assert MapOf(idx) == KeyedUids(keyOf, hu);
    BuiltIndexListing(keyOf, hu, idx);
    assert Reshown(keyOf, d, sf, f).IndexOf(f, m) == idx;
  }

  class Ui {
    // Settings, fixed once the object is set up.
    const fns: TextFns
    const inbox: Folder
    const sentFolder: Folder
    const draftsFolder: Folder
    const trashFolder: Folder
    const prefetchAllHeaders: bool    // m_PrefetchAllHeaders
    const prefetchLevel: PrefetchLevel
    const persistSelection: bool      // m_PersistSelectionOnSortFilterChange
    const plaintext: bool             // m_Plaintext
    const mainWinHeight: nat          // m_MainWinHeight

    var cache: Cache
    var sortFilter: map<Folder, SortFilter>   // m_SortFilter
    var display: Display
    var filterCustomStr: Bytes                // m_FilterCustomStr
    var asked: Asked

    // The message list cursor and search.
    var currentFolder: Folder
    var previousFolder: Folder
    var cursor: CursorState
    var search: SearchState

    // Selection and screen state.
    var selectedUids: Selected
    var allSelected: bool
    var trail: StateTrail
    var dialog: string                   // m_DialogMessage

    var calls: Calls
    var outbox: seq<Bytes>               // OfflineQueue outbox messages
    var draftQueue: seq<Bytes>           // OfflineQueue draft messages
    var composeSlots: Slots              // m_ComposeHeaderStr
    var showRichHeader: bool             // m_ShowRichHeader
    var composeDraftUid: Uid             // m_ComposeDraftUid
    var pipe: seq<bv8>                   // AsyncUiRequest bytes not yet read

    /** What Ui::GetDisplayUidsKey reads besides the cache. */
    function Keys(): Keying
      reads this`filterCustomStr, this`currentFolder, this`sortFilter
    {
      Keying(fns, filterCustomStr, sentFolder, currentFolder, sortFilter)
    }

    /** The key function of folder f's current mode. */
    function KeyOf(f: Folder): Uid -> Bytes
      reads this`cache, this`filterCustomStr, this`currentFolder, this`sortFilter
    {
      Keys().KeyIn(cache, f)
    }

    /** Everything but the shown indexes being up to date. */
    ghost predicate Coherent()
      reads this`display, this`search
    {
      && KeyFnsAssumed(fns)
      && display.Ok()
      && search.InStep()
    }

    /** Every folder other than f shows an index that is up to date. */
    ghost predicate CurrentElsewhere(f: Folder)
      reads this`display, this`sortFilter
    {
      display.ShownCurrent(sortFilter, Some(f))
    }

    /**
     * The object's invariant: indexes are sorted, an up-to-date index lists
     * only the folder's messages, the mode each folder shows is up to date,
     * and the two search vectors are in step.
     */
    ghost predicate Valid()
      reads this`display, this`sortFilter, this`search
    {
      && KeyFnsAssumed(fns)
      && search.InStep()
      && display.Consistent(sortFilter)
    }

    /**
     * The initial state: the message list of the inbox folder is shown,
     * the cursor names no message, nothing is cached or asked for.
     */
    constructor (fns: TextFns, inbox: Folder, sentFolder: Folder, draftsFolder: Folder, trashFolder: Folder,
                 prefetchAllHeaders: bool, prefetchLevel: PrefetchLevel, persistSelection: bool,
                 plaintext: bool, mainWinHeight: nat)
      requires KeyFnsAssumed(fns)
      ensures Valid()
      ensures this.fns == fns && this.inbox == inbox && this.sentFolder == sentFolder
      ensures this.draftsFolder == draftsFolder && this.trashFolder == trashFolder
      ensures this.prefetchAllHeaders == prefetchAllHeaders && this.prefetchLevel == prefetchLevel
      ensures this.persistSelection == persistSelection && this.plaintext == plaintext
      ensures this.mainWinHeight == mainWinHeight
      ensures trail == InitialTrail && currentFolder == "INBOX" && cursor == NoCursor
      ensures cache == NoCache && asked == NothingAsked && calls == NoCalls
      ensures display == Display(map[], map[], map[], map[]) && search == NoSearch && selectedUids == map[]
    {
      this.fns := fns;
      this.inbox := inbox;
      this.sentFolder := sentFolder;
      this.draftsFolder := draftsFolder;
      this.trashFolder := trashFolder;
      this.prefetchAllHeaders := prefetchAllHeaders;
      this.prefetchLevel := prefetchLevel;
      this.persistSelection := persistSelection;
      this.plaintext := plaintext;
      this.mainWinHeight := mainWinHeight;
      cache, asked, calls := NoCache, NothingAsked, NoCalls;
      sortFilter, display, filterCustomStr := map[], Display(map[], map[], map[], map[]), [];
      currentFolder, previousFolder := "INBOX", "";
      cursor, search := NoCursor, NoSearch;
      selectedUids, allSelected := map[], false;
      trail, dialog := InitialTrail, "";
      outbox, draftQueue, pipe := [], [], [];
      composeSlots, showRichHeader, composeDraftUid := map[], false, 0;
    }

    /**
     * Ui::UpdateDisplayUids: bring the index of the folder's current mode
     * up to date (rebuilding it from the folder's UIDs if they changed since
     * it was built), then drop the removed UIDs and add the added ones, each
     * non-empty patch counting as one more version of the folder's UIDs.
     * The removal drops every entry that lists a removed UID, whatever key
     * it was filed under (see EraseRemovedUids).
     */
    method UpdateDisplayUids(folder: Folder, removed: set<Uid>, added: set<Uid>)
      requires Coherent() && CurrentElsewhere(folder)
      modifies this`display
      ensures display == PatchedDisplay(KeyOf(folder), old(display), sortFilter, folder, removed, added)
      ensures Valid()
    {
      var keyOf := KeyOf(folder);
      KeyInInjective(Keys(), cache, folder);
      PatchedDisplayOk(keyOf, display, sortFilter, folder, removed, added);
      display := PatchFolder(keyOf, display, sortFilter, folder, removed, added);
    }

    /**
     * Ui::UpdateUidFromIndex: in search mode SearchPick, logging the page
     * it asks for; otherwise PickUid on the list the current folder shows
     * (Pick).
     */
    method UpdateUidFromIndex(userTriggered: bool)
      modifies this`cursor, this`search, this`calls
      ensures var r := Pick(old(cursor), old(search), currentFolder, Shown(display, sortFilter, currentFolder), mainWinHeight, userTriggered);
        cursor == r.0 && search == r.1 && calls == old(calls).(searches := old(calls.searches) + r.2)
      ensures old(Valid()) ==> Valid()
    {
      if search.on {
        var r := SearchPick(cursor, search, currentFolder, mainWinHeight);
        cursor, search := r.0, r.1;
        calls := calls.(searches := calls.searches + r.2);
      } else {
        cursor := PickUid(cursor, currentFolder, Shown(display, sortFilter, currentFolder), userTriggered);
      }
    }

    /**
     * Ui::UpdateIndexFromUid: nothing in search mode; otherwise Refind on
     * the list the current folder shows, searched by FindIndex.
     */
    method UpdateIndexFromUid()
      modifies this`cursor, this`search, this`calls
      ensures search == old(search) && calls == old(calls)
      ensures cursor == Refocus(old(cursor), search, currentFolder, Shown(display, sortFilter, currentFolder))
      ensures old(Valid()) ==> Valid()
    {
      if search.on {
        return;
      }
      var list := Shown(display, sortFilter, currentFolder);
      var found, idx := false, 0;
      if cursor.UidSetIn(currentFolder) {
        found, idx := FindIndex(list, cursor.UidIn(currentFolder));
      }
      if !found {
        UpdateUidFromIndex(false);
      } else {
        cursor := cursor.(index := cursor.index[currentFolder := idx], folderUid := (currentFolder, cursor.UidIn(currentFolder)));
      }
    }

    /** What ResponseHandler does to the cache, the indexes and the asked-for sets, read from the current state (Handle). */
    ghost function HandledOf(req: Request, resp: Response): Handled
      reads this`cache, this`display, this`asked, this`filterCustomStr, this`currentFolder, this`sortFilter
    {
      Handle(Keys(), cache, display, asked, req, resp, prefetchAllHeaders)
    }

    /**
     * The cache, index and request work of Ui::ResponseHandler: the cache,
     * indexes and asked-for sets become what Handle says, and its requests
     * and prefetch requests go out.
     */
    method TakeResponse(req: Request, resp: Response) returns (h: Handled)
      requires Valid()
      modifies this`cache, this`display, this`asked, this`calls
      ensures h == old(HandledOf(req, resp))
      ensures cache == h.cache && display == h.display && asked == h.asked
      ensures calls == old(calls).(requests := old(calls.requests) + h.requests, prefetches := old(calls.prefetches) + h.prefetches)
      ensures Valid()
    {
      HandleConsistent(Keys(), cache, display, asked, req, resp, prefetchAllHeaders);
      h := HandleSteps(Keys(), cache, display, asked, req, resp, prefetchAllHeaders);
      cache, display, asked := h.cache, h.display, h.asked;
      calls := calls.(requests := calls.requests + h.requests, prefetches := calls.prefetches + h.prefetches);
    }

    /**
     * Ui::ResponseHandler: TakeResponse; then a failure is shown as a
     * warning, the cursor is found again when the UIDs or headers changed,
     * and the wake-up byte goes to the pipe, asking for a redraw when
     * anything was taken in.
     */
    method ResponseHandler(req: Request, resp: Response)
      requires Valid()
      modifies this`cache, this`display, this`asked, this`calls, this`dialog, this`cursor, this`search, this`pipe
      ensures Valid()
      ensures var h := old(HandledOf(req, resp));
        && cache == h.cache && display == h.display && asked == h.asked
        && calls == old(calls).(requests := old(calls.requests) + h.requests, prefetches := old(calls.prefetches) + h.prefetches)
        && pipe == old(pipe) + [if h.drawAll then UiRequestDrawAll else UiRequestNone]
        && cursor == if h.updateIndex then Refocus(old(cursor), search, currentFolder, Shown(display, sortFilter, currentFolder))
                     else old(cursor)
      ensures search == old(search)
      ensures dialog == match ResponseErrorMessage(resp.status) case Some(m) => m case None => old(dialog)
    {
      var h := TakeResponse(req, resp);
      var warning := ResponseErrorMessage(resp.status);
      if warning.Some? {
        dialog := warning.value;
      }
      if h.updateIndex {
        UpdateIndexFromUid();
      }
      pipe := pipe + [if h.drawAll then UiRequestDrawAll else UiRequestNone];
    }

    /**
     * The local part Ui::MoveMessages and Ui::DeleteMessages share: the
     * messages leave the folder's display index and its m_Uids and
     * m_Headers (their flags and bodies stay cached), the search hits that
     * name them are erased (EraseSearchHits), and the cursor is found
     * again.
     */
    method DropMessages(uids: set<Uid>, folder: Folder)
      requires Valid()
      modifies this`display, this`cache, this`search, this`cursor, this`calls
      ensures display == PatchedDisplay(old(KeyOf(folder)), old(display), sortFilter, folder, uids, {})
      ensures cache == old(cache).(uids := old(cache.uids)[folder := old(cache.UidsOf(folder)) - uids],
                                   headers := old(cache.headers)[folder := old(cache.HeadersOf(folder)) - uids])
      ensures search == if old(search.on) then
                          var kept := KeepUnmatched(old(search.headers), old(search.folderUids), folder, uids);
                          old(search).(headers := kept.0, folderUids := kept.1)
                        else old(search)
      ensures cursor == Refocus(old(cursor), search, currentFolder, Shown(display, sortFilter, currentFolder))
      ensures calls == old(calls)
      ensures forall u | u in Shown(display, sortFilter, folder) :: u !in uids
      ensures Valid()
    {
      ForgetMessages(uids, folder);
      EraseHits(uids, folder);
      UpdateIndexFromUid();
    }

    /** The cache and index half of DropMessages. */
    method ForgetMessages(uids: set<Uid>, folder: Folder)
      requires Valid()
      modifies this`display, this`cache
      ensures display == PatchedDisplay(old(KeyOf(folder)), old(display), sortFilter, folder, uids, {})
      ensures cache == old(cache).(uids := old(cache.uids)[folder := old(cache.UidsOf(folder)) - uids],
                                   headers := old(cache.headers)[folder := old(cache.HeadersOf(folder)) - uids])
      ensures forall u | u in Shown(display, sortFilter, folder) :: u !in uids
      ensures Valid()
    {
      KeyInInjective(Keys(), cache, folder);
      RemovedNotShown(KeyOf(folder), display, sortFilter, folder, uids);
      UpdateDisplayUids(folder, uids, {});
      cache := cache.(uids := cache.uids[folder := cache.UidsOf(folder) - uids],
                      headers := cache.headers[folder := cache.HeadersOf(folder) - uids]);
    }

    /** The search half of DropMessages: in search mode the hits that name the messages are erased, by the corrected loop EraseSearchHits. */
    method EraseHits(uids: set<Uid>, folder: Folder)
      requires Valid()
      modifies this`search
      ensures search == if old(search.on) then
                          var kept := KeepUnmatched(old(search.headers), old(search.folderUids), folder, uids);
                          old(search).(headers := kept.0, folderUids := kept.1)
                        else old(search)
      ensures Valid()
    {
      if search.on {
        var h, f := EraseSearchHits(search.headers, search.folderUids, folder, uids);
        search := search.(headers := h, folderUids := f);
      }
    }

    /**
     * Ui::MoveMessages: ask the IMAP side to move the messages, drop them
     * locally (DropMessages) and have the UIDs of both folders asked for
     * again.
     */
    method MoveMessages(uids: set<Uid>, from: Folder, to: Folder)
      requires Valid()
      modifies this`display, this`cache, this`asked, this`search, this`cursor, this`calls
      ensures calls == old(calls).(actions := old(calls.actions) + [EmptyAction(from, uids).(moveDestination := to)])
      ensures display == PatchedDisplay(old(KeyOf(from)), old(display), sortFilter, from, uids, {})
      ensures cache == old(cache).(uids := old(cache.uids)[from := old(cache.UidsOf(from)) - uids],
                                   headers := old(cache.headers)[from := old(cache.HeadersOf(from)) - uids])
      ensures asked == old(asked).(hasRequestedUids := old(asked.hasRequestedUids)[from := false][to := false])
      ensures search == if old(search.on) then
                          var kept := KeepUnmatched(old(search.headers), old(search.folderUids), from, uids);
                          old(search).(headers := kept.0, folderUids := kept.1)
                        else old(search)
      ensures cursor == Refocus(old(cursor), search, currentFolder, Shown(display, sortFilter, currentFolder))
      ensures forall u | u in Shown(display, sortFilter, from) :: u !in uids
      ensures Valid()
    {
      var action := EmptyAction(from, uids).(moveDestination := to);
      calls := calls.(actions := calls.actions + [action]);
      DropMessages(uids, from);
      asked := asked.(hasRequestedUids := asked.hasRequestedUids[from := false][to := false]);
    }

    /**
     * Ui::DeleteMessages: ask the IMAP side to delete the messages, drop
     * them locally (DropMessages) and have the folder's UIDs asked for
     * again.
     */
    method DeleteMessages(uids: set<Uid>, folder: Folder)
      requires Valid()
      modifies this`display, this`cache, this`asked, this`search, this`cursor, this`calls
      ensures calls == old(calls).(actions := old(calls.actions) + [EmptyAction(folder, uids).(deleteMessages := true)])
      ensures display == PatchedDisplay(old(KeyOf(folder)), old(display), sortFilter, folder, uids, {})
      ensures cache == old(cache).(uids := old(cache.uids)[folder := old(cache.UidsOf(folder)) - uids],
                                   headers := old(cache.headers)[folder := old(cache.HeadersOf(folder)) - uids])
      ensures asked == old(asked).(hasRequestedUids := old(asked.hasRequestedUids)[folder := false])
      ensures search == if old(search.on) then
                          var kept := KeepUnmatched(old(search.headers), old(search.folderUids), folder, uids);
                          old(search).(headers := kept.0, folderUids := kept.1)
                        else old(search)
      ensures cursor == Refocus(old(cursor), search, currentFolder, Shown(display, sortFilter, currentFolder))
      ensures forall u | u in Shown(display, sortFilter, folder) :: u !in uids
      ensures Valid()
    {
      var action := EmptyAction(folder, uids).(deleteMessages := true);
      calls := calls.(actions := calls.actions + [action]);
      DropMessages(uids, folder);
      asked := asked.(hasRequestedUids := asked.hasRequestedUids[folder := false]);
    }

    /**
     * Ui::SetSeen: ask the IMAP side to set or clear the seen flag of the
     * messages, and set it in the cached flags at once (WithSeen).
     */
    method SetSeen(folder: Folder, uids: set<Uid>, seen: bool)
      modifies this`cache, this`calls
      ensures calls == old(calls).(actions := old(calls.actions) + [EmptyAction(folder, uids).(setSeen := seen, setUnseen := !seen)])
      ensures cache == old(cache).(flags := old(cache.flags)[folder := WithSeen(old(cache.FlagsOf(folder)), uids, seen)])
    {
      var action := EmptyAction(folder, uids).(setSeen := seen, setUnseen := !seen);
      calls := calls.(actions := calls.actions + [action]);
      cache := cache.(flags := cache.flags[folder := WithSeen(cache.FlagsOf(folder), uids, seen)]);
    }

    /**
     * Ui::MarkSeen: the message m_CurrentFolderUid names is marked seen,
     * unless its cached flags already say so.
     */
    method MarkSeen()
      modifies this`cache, this`calls
      ensures var (folder, u) := (cursor.folderUid.0, AsUint32(cursor.folderUid.1));
        var fl := old(cache.FlagsOf(folder));
        if u in fl && fl[u].seen then cache == old(cache) && calls == old(calls)
        else && calls == old(calls).(actions := old(calls.actions) + [EmptyAction(folder, {u}).(setSeen := true)])
             && cache == old(cache).(flags := old(cache.flags)[folder := WithSeen(fl, {u}, true)])
    {
      var folder := cursor.folderUid.0;
      var u := AsUint32(cursor.folderUid.1);
      var fl := cache.FlagsOf(folder);
      if u in fl && fl[u].seen {
        return;
      }
      SetSeen(folder, {u}, true);
    }

    /**
     * Ui::InvalidateUiCache: the folder's UIDs are to be asked for again,
     * and its cached flags and the record of flags asked for are cleared.
     */
    method InvalidateUiCache(folder: Folder)
      modifies this`cache, this`asked
      ensures cache == old(cache).(flags := old(cache.flags)[folder := map[]])
      ensures asked == old(asked).(hasRequestedUids := old(asked.hasRequestedUids)[folder := false],
                                   requestedFlags := old(asked.requestedFlags)[folder := {}])
    {
      asked := asked.(hasRequestedUids := asked.hasRequestedUids[folder := false],
                      requestedFlags := asked.requestedFlags[folder := {}]);
      cache := cache.(flags := cache.flags[folder := map[]]);
    }

    /**
     * Ui::SearchHandler: a page of results at offset 0 replaces the results,
     * a later one is appended (MergePage); the server's has-more mark is
     * kept, a redraw is asked for and the cursor is placed on the results.
     * The IMAP side builds a page's two vectors together, so they are in
     * step.
     */
    method SearchHandler(query: SearchQuery, page: SearchResult)
      requires Valid() && |page.headers| == |page.folderUids|
      modifies this`search, this`cursor, this`calls, this`pipe
      ensures var m := MergePage(old(search.headers), old(search.folderUids), query.offset, page);
        var s := old(search).(headers := m.0, folderUids := m.1, hasMore := page.hasMore);
        var r := Pick(old(cursor), s, currentFolder, Shown(display, sortFilter, currentFolder), mainWinHeight, false);
        && cursor == r.0 && search == r.1 && calls == old(calls).(searches := old(calls.searches) + r.2)
      ensures pipe == old(pipe) + [UiRequestDrawAll]
      ensures Valid()
    {
      MergeKeepsParallel(search.headers, search.folderUids, query.offset, page);
      var m := MergePage(search.headers, search.folderUids, query.offset, page);
      search := search.(headers := m.0, folderUids := m.1, hasMore := page.hasMore);
      pipe := pipe + [UiRequestDrawAll];
      UpdateUidFromIndex(false);
    }

    /** Ui::ClearSelection */
    method ClearSelection()
      modifies this`selectedUids, this`allSelected
      ensures selectedUids == map[] && !allSelected
    {
      selectedUids, allSelected := map[], false;
    }

    /**
     * Ui::SearchMessage with the query given or typed at the prompt: a
     * non-empty query starts a search (StartSearch), an empty one ends it
     * (EndSearch). Either way the selection is cleared.
     */
    method SearchMessage(query: string)
      requires Valid()
      modifies this`search, this`currentFolder, this`previousFolder, this`cursor, this`selectedUids,
               this`allSelected, this`calls
      ensures selectedUids == map[] && !allSelected
      ensures query != [] ==>
        && search == SearchState(true, query, 0, 2 * mainWinHeight, false, [], [])
        && (if old(currentFolder) != "" then currentFolder == "" && previousFolder == old(currentFolder)
            else currentFolder == old(currentFolder) && previousFolder == old(previousFolder))
        && cursor == old(cursor).(index := old(cursor.index)[currentFolder := 0])
        && calls == old(calls).(searches := old(calls.searches) + [SearchQuery(query, 0, 2 * mainWinHeight)])
      ensures query == [] ==>
        && search == old(search).(on := false)
        && (if old(previousFolder) != "" then currentFolder == old(previousFolder) && previousFolder == ""
            else currentFolder == old(currentFolder) && previousFolder == old(previousFolder))
        && cursor == Refocus(old(cursor), search, currentFolder, Shown(display, sortFilter, currentFolder))
        && calls == old(calls)
      ensures Valid()
    {
      if query != [] {
        StartSearch(query);
      } else {
        EndSearch();
      }
    }

    /**
     * A non-empty query: search mode on, in the search list (the folder
     * ""), remembering the folder left; the cursor starts at the top and
     * the first two screens of results are asked for.
     */
    method StartSearch(query: string)
      requires Valid()
      modifies this`search, this`currentFolder, this`previousFolder, this`cursor, this`selectedUids,
               this`allSelected, this`calls
      ensures selectedUids == map[] && !allSelected
      ensures search == SearchState(true, query, 0, 2 * mainWinHeight, false, [], [])
      ensures if old(currentFolder) != "" then currentFolder == "" && previousFolder == old(currentFolder)
              else currentFolder == old(currentFolder) && previousFolder == old(previousFolder)
      ensures cursor == old(cursor).(index := old(cursor.index)[currentFolder := 0])
      ensures calls == old(calls).(searches := old(calls.searches) + [SearchQuery(query, 0, 2 * mainWinHeight)])
      ensures Valid()
    {
      if currentFolder != "" {
        previousFolder, currentFolder := currentFolder, "";
      }
      cursor := cursor.(index := cursor.index[currentFolder := 0]);
      ClearSelection();
      search := SearchState(true, query, 0, mainWinHeight + mainWinHeight, false, [], []);
      calls := calls.(searches := calls.searches + [SearchQuery(query, 0, 2 * mainWinHeight)]);
    }

    /** An empty query: search mode off, back in the folder left, the cursor found again there. */
    method EndSearch()
      requires Valid()
      modifies this`search, this`currentFolder, this`previousFolder, this`cursor, this`selectedUids,
               this`allSelected, this`calls
      ensures selectedUids == map[] && !allSelected
      ensures search == old(search).(on := false)
      ensures if old(previousFolder) != "" then currentFolder == old(previousFolder) && previousFolder == ""
              else currentFolder == old(currentFolder) && previousFolder == old(previousFolder)
      ensures cursor == Refocus(old(cursor), search, currentFolder, Shown(display, sortFilter, currentFolder))
      ensures calls == old(calls)
      ensures Valid()
    {
      LeaveSearch();
      UpdateIndexFromUid();
    }

    /** EndSearch before the cursor is found again: search mode off, no selection, back in the folder left. */
    method LeaveSearch()
      requires Valid()
      modifies this`search, this`currentFolder, this`previousFolder, this`selectedUids, this`allSelected
      ensures selectedUids == map[] && !allSelected
      ensures search == old(search).(on := false)
      ensures if old(previousFolder) != "" then currentFolder == old(previousFolder) && previousFolder == ""
              else currentFolder == old(currentFolder) && previousFolder == old(previousFolder)
      ensures Valid()
    {
      search := search.(on := false);
      ClearSelection();
      if previousFolder != "" {
        currentFolder, previousFolder := previousFolder, "";
      }
    }

    /** The mode the current folder shows (m_SortFilter[m_CurrentFolder], SortDefault when absent). */
    function CurrentMode(): SortFilter
      reads this`sortFilter, this`currentFolder
    {
      Get(sortFilter, currentFolder, SortDefault)
    }

    /** Ui::SortFilterPreUpdate (PrePicked). */
    method SortFilterPreUpdate()
      requires Valid()
      modifies this`cursor, this`search, this`calls
      ensures var p := PrePicked(old(cursor), old(search), currentFolder, Shown(display, sortFilter, currentFolder),
                                 mainWinHeight, persistSelection);
        cursor == p.0 && search == p.1 && calls == old(calls).(searches := old(calls.searches) + p.2)
      ensures Valid()
    {
      if persistSelection {
        UpdateUidFromIndex(true);
      }
    }

    /**
     * Ui::SortFilterUpdated, once the current folder's mode has changed:
     * the index of the new mode is brought up to date, then with persisted
     * selection the cursor's UID is found again, and without it the cursor
     * goes to the top. Its p_FilterUpdated argument is unused by the source.
     */
    method SortFilterUpdated()
      requires Coherent() && CurrentElsewhere(currentFolder)
      modifies this`display, this`cursor, this`search, this`calls
      ensures display == Reshown(KeyOf(currentFolder), old(display), sortFilter, currentFolder)
      ensures var q := Settled(old(cursor), old(search), currentFolder, Shown(display, sortFilter, currentFolder),
                               mainWinHeight, persistSelection);
        cursor == q.0 && search == q.1 && calls == old(calls).(searches := old(calls.searches) + q.2)
      ensures Valid()
    {
      Reshow();
      Settle();
    }

    /** The index half of Ui::SortFilterUpdated: UpdateDisplayUids with nothing removed or added (Reshown). */
    method Reshow()
      requires Coherent() && CurrentElsewhere(currentFolder)
      modifies this`display
      ensures display == Reshown(KeyOf(currentFolder), old(display), sortFilter, currentFolder)
      ensures Valid()
    {
      ReshownIsPatched(KeyOf(currentFolder), display, sortFilter, currentFolder);
      UpdateDisplayUids(currentFolder, {}, {});
    }

    /** The cursor half of Ui::SortFilterUpdated (Settled), on the list the current folder now shows. */
    method Settle()
      requires Valid()
      modifies this`cursor, this`search, this`calls
      ensures var q := Settled(old(cursor), old(search), currentFolder, Shown(display, sortFilter, currentFolder),
                               mainWinHeight, persistSelection);
        cursor == q.0 && search == q.1 && calls == old(calls).(searches := old(calls.searches) + q.2)
      ensures Valid()
    {
      if persistSelection {
        UpdateIndexFromUid();
      } else {
        cursor := cursor.(index := cursor.index[currentFolder := 0]);
        UpdateUidFromIndex(true);
      }
    }

    /**
     * Switch the current folder to mode m and show it: SortFilterPreUpdate,
     * the new mode, SortFilterUpdated. The cursor moves as Resorted says.
     */
    method SwitchMode(m: SortFilter)
      requires Valid()
      modifies this`sortFilter, this`display, this`cursor, this`search, this`calls
      ensures sortFilter == old(sortFilter)[currentFolder := m]
      ensures display == Reshown(KeyOf(currentFolder), old(display), sortFilter, currentFolder)
      ensures var r := Resorted(old(cursor), old(search), currentFolder, old(Shown(display, sortFilter, currentFolder)),
                                Shown(display, sortFilter, currentFolder), mainWinHeight, persistSelection);
        cursor == r.0 && search == r.1 && calls == old(calls).(searches := old(calls.searches) + r.2)
      ensures Valid()
    {
      ghost var q0 := calls.searches;
      ghost var p := PrePicked(cursor, search, currentFolder, Shown(display, sortFilter, currentFolder), mainWinHeight, persistSelection);
      SortFilterPreUpdate();
      ShowMode(m);
      ghost var q := Settled(p.0, p.1, currentFolder, Shown(display, sortFilter, currentFolder), mainWinHeight, persistSelection);
      QueriesAppended(q0, p.2, q.2);
    }

    /**
     * Ui::ToggleSort: a sort key moves the current folder's mode along
     * ToggledSort (first, second, Default) and shows it.
     */
    method ToggleSort(first: SortFilter, second: SortFilter)
      requires Valid()
      modifies this`sortFilter, this`display, this`cursor, this`search, this`calls
      ensures sortFilter == old(sortFilter)[currentFolder := ToggledSort(old(CurrentMode()), first, second)]
      ensures display == Reshown(KeyOf(currentFolder), old(display), sortFilter, currentFolder)
      ensures var r := Resorted(old(cursor), old(search), currentFolder, old(Shown(display, sortFilter, currentFolder)),
                                Shown(display, sortFilter, currentFolder), mainWinHeight, persistSelection);
        cursor == r.0 && search == r.1 && calls == old(calls).(searches := old(calls.searches) + r.2)
      ensures Valid()
    {
      SwitchMode(ToggledSort(CurrentMode(), first, second));
    }

    /** Ui::DisableSortFilter: back to the default mode. */
    method DisableSortFilter()
      requires Valid()
      modifies this`sortFilter, this`display, this`cursor, this`search, this`calls
      ensures sortFilter == old(sortFilter)[currentFolder := SortDefault]
      ensures display == Reshown(KeyOf(currentFolder), old(display), sortFilter, currentFolder)
      ensures var r := Resorted(old(cursor), old(search), currentFolder, old(Shown(display, sortFilter, currentFolder)),
                                Shown(display, sortFilter, currentFolder), mainWinHeight, persistSelection);
        cursor == r.0 && search == r.1 && calls == old(calls).(searches := old(calls.searches) + r.2)
      ensures Valid()
    {
      SwitchMode(SortDefault);
    }

    /** Ui::SetDialogMessage: the message shown in the dialog line (its time stamp and log line are not modelled). */
    method SetDialogMessage(message: string)
      modifies this`dialog
      ensures dialog == message
    {
      dialog := message;
    }

    /**
     * A custom filter is to be taken from the message under cursor c, and
     * the current folder has no cached header for it.
     */
    predicate NoFilterMessage(mode: SortFilter, c: CursorState)
      reads this`cache, this`currentFolder
    {
      IsCustomFilter(mode) && AsUint32(c.folderUid.1) !in cache.HeadersOf(currentFolder)
    }

    /**
     * Ui::ToggleFilter: SortFilterPreUpdate, then a filter key switches its
     * filter on, or off when it is already on (ToggledFilter). A custom
     * filter compares with the message under the cursor: without a cached
     * header for it nothing else changes and the dialog says so; with one,
     * the filter's index is emptied (custom filters are not cached) and
     * m_FilterCustomStr is taken from the header (CustomFilterStr). The
     * new mode is then shown as SortFilterUpdated does.
     */
    method ToggleFilter(filter: SortFilter)
      requires Valid()
      modifies this`sortFilter, this`display, this`cursor, this`search, this`calls, this`filterCustomStr, this`dialog
      ensures var p := old(PrePicked(cursor, search, currentFolder, Shown(display, sortFilter, currentFolder), mainWinHeight, persistSelection));
        FilterApplied(old(ToggledFilter(CurrentMode(), filter)), p.0, p.1, old(calls).(searches := old(calls.searches) + p.2),
                      old(sortFilter), old(display), old(filterCustomStr), old(dialog))
      ensures Valid()
    {
      var mode := ToggledFilter(CurrentMode(), filter);  // SortFilterPreUpdate leaves the mode alone
      SortFilterPreUpdate();
      FilterOrWarn(mode);
    }

    /**
     * The state the rest of Ui::ToggleFilter leaves for mode, from cursor c,
     * search s, calls k, modes sf, indexes d, custom filter string str and
     * dialog msg: when the custom filter has no message, only the dialog
     * changes, to say so; otherwise the current folder takes mode, a custom
     * filter's index is emptied and its string taken from the header under
     * c (CustomFilterStr), the mode is shown (Reshown) and the cursor
     * settles on the new list (Settled).
     */
    ghost predicate FilterApplied(mode: SortFilter, c: CursorState, s: SearchState, k: Calls,
                                  sf: map<Folder, SortFilter>, d: Display, str: Bytes, msg: string)
      reads this`sortFilter, this`display, this`cursor, this`search, this`calls, this`filterCustomStr, this`dialog
      reads this`cache, this`currentFolder
    {
      if NoFilterMessage(mode, c) then
        && cursor == c && search == s && calls == k
        && sortFilter == sf && display == d && filterCustomStr == str
        && dialog == "No message selected to filter on"
      else
        && sortFilter == sf[currentFolder := mode]
        && filterCustomStr == (if IsCustomFilter(mode) then
             CustomFilterStr(fns, cache.HeadersOf(currentFolder)[AsUint32(c.folderUid.1)], mode, currentFolder == sentFolder)
             else str)
        && display == Reshown(KeyOf(currentFolder), if IsCustomFilter(mode) then ClearedIndex(d, currentFolder, mode) else d,
                              sortFilter, currentFolder)
        && dialog == msg
        && var q := Settled(c, s, currentFolder, Shown(display, sortFilter, currentFolder), mainWinHeight, persistSelection);
           cursor == q.0 && search == q.1 && calls == k.(searches := k.searches + q.2)
    }

    /** The rest of Ui::ToggleFilter once the new mode is known: ApplyFilter, or the dialog when it has no message. */
    method FilterOrWarn(mode: SortFilter)
      requires Valid() && (IsCustomFilter(mode) ==> mode != CurrentMode())
      modifies this`sortFilter, this`display, this`cursor, this`search, this`calls, this`filterCustomStr, this`dialog
      ensures FilterApplied(mode, old(cursor), old(search), old(calls), old(sortFilter), old(display), old(filterCustomStr), old(dialog))
      ensures Valid()
    {
      if NoFilterMessage(mode, cursor) {
        WarnNoFilterMessage(mode);
        return;
      }
      ApplyFilter(mode);
    }

    /** Ui::ToggleFilter's early return: a custom filter without a cached header for its message. */
    method WarnNoFilterMessage(mode: SortFilter)
      requires Valid() && NoFilterMessage(mode, cursor)
      modifies this`dialog
      ensures FilterApplied(mode, old(cursor), old(search), old(calls), old(sortFilter), old(display), old(filterCustomStr), old(dialog))
      ensures Valid()
    {
      SetDialogMessage("No message selected to filter on");
    }

    /** Ui::ToggleFilter once the new mode is known and, for a custom filter, its message has a cached header. */
    method ApplyFilter(mode: SortFilter)
      requires Valid() && (IsCustomFilter(mode) ==> mode != CurrentMode()) && !NoFilterMessage(mode, cursor)
      modifies this`sortFilter, this`display, this`cursor, this`search, this`calls, this`filterCustomStr
      ensures FilterApplied(mode, old(cursor), old(search), old(calls), old(sortFilter), old(display), old(filterCustomStr), dialog)
      ensures Valid()
    {
      ShowFilter(mode);
    }

    /** ApplyFilter field by field: the custom filter is taken, then the mode is shown. */
    method ShowFilter(mode: SortFilter)
      requires Valid() && (IsCustomFilter(mode) ==> mode != CurrentMode()) && !NoFilterMessage(mode, cursor)
      modifies this`sortFilter, this`display, this`cursor, this`search, this`calls, this`filterCustomStr
      ensures sortFilter == old(sortFilter)[currentFolder := mode]
      ensures filterCustomStr == if IsCustomFilter(mode) then
        CustomFilterStr(fns, cache.HeadersOf(currentFolder)[AsUint32(old(cursor.folderUid.1))], mode, currentFolder == sentFolder)
        else old(filterCustomStr)
      ensures display == Reshown(KeyOf(currentFolder), if IsCustomFilter(mode) then ClearedIndex(old(display), currentFolder, mode)
                                                       else old(display), sortFilter, currentFolder)
      ensures var q := Settled(old(cursor), old(search), currentFolder, Shown(display, sortFilter, currentFolder),
                               mainWinHeight, persistSelection);
        cursor == q.0 && search == q.1 && calls == old(calls).(searches := old(calls.searches) + q.2)
      ensures Valid()
    {
      if IsCustomFilter(mode) {
        TakeCustomFilter(mode);
      }
      ShowMode(mode);
    }

    /**
     * The custom-filter part of Ui::ToggleFilter: the filter's index is
     * emptied and m_FilterCustomStr is taken from the header of the message
     * under the cursor.
     */
    method TakeCustomFilter(mode: SortFilter)
      requires Valid() && IsCustomFilter(mode) && mode != CurrentMode() && !NoFilterMessage(mode, cursor)
      modifies this`display, this`filterCustomStr
      ensures filterCustomStr ==
        CustomFilterStr(fns, cache.HeadersOf(currentFolder)[AsUint32(cursor.folderUid.1)], mode, currentFolder == sentFolder)
      ensures display == ClearedIndex(old(display), currentFolder, mode)
      ensures Valid()
    {
      var h := cache.HeadersOf(currentFolder)[AsUint32(cursor.folderUid.1)];
      ClearedIndexOk(display, sortFilter, currentFolder, mode);
      display := ClearedIndex(display, currentFolder, mode);
      filterCustomStr := CustomFilterStr(fns, h, mode, currentFolder == sentFolder);
    }

    /** Show mode m in the current folder: the new mode, then SortFilterUpdated. */
    method ShowMode(m: SortFilter)
      requires Valid()
      modifies this`sortFilter, this`display, this`cursor, this`search, this`calls
      ensures sortFilter == old(sortFilter)[currentFolder := m]
      ensures display == Reshown(KeyOf(currentFolder), old(display), sortFilter, currentFolder)
      ensures var q := Settled(old(cursor), old(search), currentFolder, Shown(display, sortFilter, currentFolder),
                               mainWinHeight, persistSelection);
        cursor == q.0 && search == q.1 && calls == old(calls).(searches := old(calls.searches) + q.2)
      ensures Valid()
    {
      ModeSwitched(display, sortFilter, currentFolder, m);
      sortFilter := sortFilter[currentFolder := m];
      SortFilterUpdated();
    }

    /**
     * Ui::ToggleSelected on the message m_CurrentFolderUid names (its int
     * UID read back as uint32_t): Toggled, and the dialog says which way.
     */
    method ToggleSelected()
      modifies this`selectedUids, this`dialog
      ensures var (f, u) := (cursor.folderUid.0, AsUint32(cursor.folderUid.1));
        && selectedUids == Toggled(old(selectedUids), f, u)
        && dialog == if IsSelected(old(selectedUids), f, u) then "Unselected message" else "Selected message"
    {
      var folder, uid := cursor.folderUid.0, AsUint32(cursor.folderUid.1);
      var was := IsSelected(selectedUids, folder, uid);
      selectedUids := Toggled(selectedUids, folder, uid);
      if !was {
        SetDialogMessage("Selected message");
      } else {
        SetDialogMessage("Unselected message");
      }
    }

    /**
     * Ui::ToggleSelectAll: when everything is selected, clear the
     * selection; otherwise select every search hit in search mode, or every
     * message the current folder shows, and say how many.
     */
    method ToggleSelectAll()
      requires Valid()
      modifies this`selectedUids, this`allSelected, this`dialog
      ensures allSelected == !old(allSelected)
      ensures old(allSelected) ==> selectedUids == map[] && dialog == "Unselected all"
      ensures !old(allSelected) && search.on ==>
        selectedUids == SelectHits(search.folderUids) && dialog == SelectedAllMessage(|search.headers|)
      ensures !old(allSelected) && !search.on ==>
        var list := Shown(display, sortFilter, currentFolder);
        selectedUids == map[currentFolder := set u | u in list] && dialog == SelectedAllMessage(|list|)
    {
      selectedUids := map[];
      if allSelected {
        allSelected := false;
        SetDialogMessage("Unselected all");
        return;
      }
      var count;
      if search.on {
        selectedUids, count := SearchHitSelection();
      } else {
        var shown;
        shown, count := ShownSelection();
        selectedUids := map[currentFolder := shown];
      }
      SetDialogMessage(SelectedAllMessage(count));
      allSelected := true;
    }

    /** ToggleSelectAll in search mode: every search hit, walked in order, and how many there are. */
    method SearchHitSelection() returns (sel: Selected, count: nat)
      requires search.InStep()
      ensures sel == SelectHits(search.folderUids) && count == |search.headers|
    {
      sel, count := map[], 0;
      while count < |search.headers|
        invariant count <= |search.headers|
        invariant sel == SelectHits(search.folderUids[..count])
      {
        var (f, u) := search.folderUids[count];
        assert search.folderUids[..count + 1] == search.folderUids[..count] + [(f, u)];
        sel := sel[f := (if f in sel then sel[f] else {}) + {u}];
        count := count + 1;
      }
      assert search.folderUids[..count] == search.folderUids;
    }

    /** ToggleSelectAll outside search mode: the UIDs the current folder shows, and how many there are. */
    method ShownSelection() returns (shown: set<Uid>, count: nat)
      ensures var list := Shown(display, sortFilter, currentFolder);
        shown == (set u | u in list) && count == |list|
    {
      var list := Shown(display, sortFilter, currentFolder);
      shown, count := {}, 0;
      while count < |list|
        invariant count <= |list|
        invariant shown == set j | 0 <= j < count :: list[j]
      {
        shown := shown + {list[count]};
        count := count + 1;
      }
      assert shown == set u | u in list by {
        forall u | u in list
          ensures u in shown
        {
          var j :| 0 <= j < |list| && list[j] == u;
        }
      }
    }

    /**
     * Ui::SetState's bookkeeping (Entered); entering the message list
     * forgets that the viewed message had its seen flag toggled. Leaving
     * an address or file list does nothing more.
     */
    method SetState(next: UiState)
      modifies this`trail, this`cursor
      ensures trail == Entered(old(trail), next)
      ensures cursor == if next == ViewMessageList && !(IsListState(old(trail.state)) && !IsListState(next))
                        then old(cursor).(toggledSeen := false) else old(cursor)
    {
      var leavingList := !IsListState(next) && IsListState(trail.state);
      trail := Entered(trail, next);
      if leavingList {
        return;
      }
      if next == ViewMessageList {
        cursor := cursor.(toggledSeen := false);
      }
    }

    /** Ui::AsyncUiRequest: one request byte written to the wake-up pipe. */
    method AsyncUiRequest(request: bv8)
      modifies this`pipe
      ensures pipe == old(pipe) + [request]
    {
      pipe := pipe + [request];
    }

    /**
     * Ui::HandleConnected once the connection is up: every queued draft is
     * uploaded to the drafts folder (whose UIDs are then asked for again),
     * then every queued outbox message is sent as created; both queues are
     * emptied. The dialog ends on the last kind of message handled. When
     * not connected nothing happens.
     */
    method HandleConnected(connected: bool, headerFields: Bytes -> Fields)
      modifies this`draftQueue, this`outbox, this`calls, this`asked, this`dialog
      ensures !connected ==>
        draftQueue == old(draftQueue) && outbox == old(outbox) && calls == old(calls) && asked == old(asked) && dialog == old(dialog)
      ensures connected ==>
        && draftQueue == [] && outbox == []
        && calls == old(calls).(actions := old(calls.actions) + UploadQueued(old(draftQueue), draftsFolder),
                                smtp := old(calls.smtp) + SendQueued(old(outbox), headerFields))
        && asked == (if old(draftQueue) == [] then old(asked)
                     else old(asked).(hasRequestedUids := old(asked.hasRequestedUids)[draftsFolder := false]))
        && dialog == (if old(outbox) != [] then "Sending queued messages"
                      else if old(draftQueue) != [] then "Uploading queued draft messages"
                      else old(dialog))
    {
      if connected {
        UploadDrafts();
        SendOutbox(headerFields);
      }
    }

    /** HandleConnected's first half: the draft queue, uploaded to the drafts folder in order. */
    method UploadDrafts()
      modifies this`draftQueue, this`calls, this`asked, this`dialog
      ensures draftQueue == [] && calls == old(calls).(actions := old(calls.actions) + UploadQueued(old(draftQueue), draftsFolder))
      ensures asked == if old(draftQueue) == [] then old(asked)
                       else old(asked).(hasRequestedUids := old(asked.hasRequestedUids)[draftsFolder := false])
      ensures dialog == if old(draftQueue) == [] then old(dialog) else "Uploading queued draft messages"
    {
      var drafts := draftQueue;
      draftQueue := [];
      if drafts != [] {
        SetDialogMessage("Uploading queued draft messages");
        asked := asked.(hasRequestedUids := asked.hasRequestedUids[draftsFolder := false]);
      }
      var uploads := QueueUploads(drafts, draftsFolder);
      calls := calls.(actions := calls.actions + uploads);
    }

    /** HandleConnected's second half: the outbox, each message sent as created, in order. */
    method SendOutbox(headerFields: Bytes -> Fields)
      modifies this`outbox, this`calls, this`dialog
      ensures outbox == [] && calls == old(calls).(smtp := old(calls.smtp) + SendQueued(old(outbox), headerFields))
      ensures dialog == if old(outbox) == [] then old(dialog) else "Sending queued messages"
    {
      var msgs := outbox;
      outbox := [];
      if msgs != [] {
        SetDialogMessage("Sending queued messages");
      }
      var sends := QueueSends(msgs, headerFields);
      calls := calls.(smtp := calls.smtp + sends);
    }

    /**
     * Ui::SendComposedMessage: the six header fields are read from the
     * compose slots (ReadFields). Connected, the message is handed to the
     * SMTP side to send; offline it is created at once (created is what
     * SmtpManager::SyncAction returned, None on failure) and a created
     * message is queued in the outbox for HandleConnected to send.
     */
    method SendComposedMessage(connected: bool, created: Option<Bytes>)
      modifies this`calls, this`outbox, this`dialog
      ensures var action := SmtpAction(ReadFields(composeSlots, showRichHeader), [], true, false, false, composeDraftUid);
        connected ==> calls == old(calls).(smtp := old(calls.smtp) + [action]) && outbox == old(outbox) && dialog == old(dialog)
      ensures !connected ==> calls == old(calls)
      ensures !connected && created.Some? ==> outbox == old(outbox) + [created.value] && dialog == "Message queued for sending"
      ensures !connected && created.None? ==> outbox == old(outbox) && dialog == "Message creation failed"
    {
      var action := SmtpAction(ReadFields(composeSlots, showRichHeader), [], false, false, false, composeDraftUid);
      if connected {
        calls := calls.(smtp := calls.smtp + [action.(isSendMessage := true)]);
      } else if created.Some? {
        outbox := outbox + [created.value];
        SetDialogMessage("Message queued for sending");
      } else {
        SetDialogMessage("Message creation failed");
      }
    }


    /**
     * The fetch selection of Ui::DrawMessageList for the current folder:
     * the folder's UIDs are asked for once; unless all headers are
     * prefetched, the headers and flags of the view and the page after it
     * that are neither cached nor requested are requested (ListWanted); the
     * drawn rows' bodies are claimed (RowBodies). Bodies go out one per
     * request, the cursor's first, then its neighbours', then the
     * prefetched ones; headers in ascending batches of 25, flags in batches
     * of 1000.
     */
    method FetchMessageList()
      modifies this`asked, this`calls
      ensures (asked, calls) == old(ListFetch(asked, calls, cache, currentFolder, Shown(display, sortFilter, currentFolder),
                                              cursor.IndexIn(currentFolder), mainWinHeight, prefetchAllHeaders, prefetchLevel, plaintext))
    {
      asked, calls := FetchList(asked, calls, cache, currentFolder, Shown(display, sortFilter, currentFolder),
                                cursor.IndexIn(currentFolder), mainWinHeight, prefetchAllHeaders, prefetchLevel, plaintext);
    }

    /**
     * The fetch part of Ui::DrawMessage for the message m_CurrentFolderUid
     * names (ViewWanted), with the list cursor's neighbours taken from the
     * current folder's list but asked for, as written, from the viewed
     * message's folder; one request per kind, the header first. A viewed
     * unseen message whose body is cached is then marked seen (MarkSeen),
     * unless its seen flag was toggled by hand.
     */
    method FetchMessageView()
      modifies this`asked, this`calls, this`cache
      ensures var (folder, uid) := cursor.folderUid;
        var w := ViewWanted(old(cache), old(asked), folder, uid,
                            ViewNeighbours(Shown(display, sortFilter, currentFolder), cursor.IndexIn(currentFolder)), prefetchLevel);
        && asked == ViewAsked(old(asked), folder, w)
        && calls.requests == old(calls.requests) + RequestIfAny(folder, FetchHeaders, w.0, false)
                             + RequestIfAny(folder, FetchBodys, w.1, !plaintext) + RequestIfAny(folder, FetchBodys, w.2, !plaintext)
      ensures var (folder, u) := (cursor.folderUid.0, AsUint32(cursor.folderUid.1));
        var fl := old(cache.FlagsOf(folder));
        var markSeen := u in fl && !fl[u].seen && u in old(cache.BodysOf(folder)) && !cursor.toggledSeen;
        && calls == old(calls).(requests := calls.requests,
                                actions := old(calls.actions) + if markSeen then [EmptyAction(folder, {u}).(setSeen := true)] else [])
        && cache == if markSeen then old(cache).(flags := old(cache.flags)[folder := WithSeen(fl, {u}, true)]) else old(cache)
    {
      var folder, uid := cursor.folderUid.0, cursor.folderUid.1;
      var u := AsUint32(uid);
      var fl := cache.FlagsOf(folder);
      var unseen := u in fl && !fl[u].seen;
      var markSeen := u in cache.BodysOf(folder);
      ClaimView();
      if unseen && markSeen && !cursor.toggledSeen {
        MarkSeen();
      }
    }

    /** DrawMessage's claims and requests (ViewWanted), before anything is marked seen. */
    method ClaimView()
      modifies this`asked, this`calls
      ensures var (folder, uid) := cursor.folderUid;
        var w := ViewWanted(cache, old(asked), folder, uid,
                            ViewNeighbours(Shown(display, sortFilter, currentFolder), cursor.IndexIn(currentFolder)), prefetchLevel);
        && asked == ViewAsked(old(asked), folder, w)
        && calls == old(calls).(requests := old(calls.requests) + RequestIfAny(folder, FetchHeaders, w.0, false)
                                  + RequestIfAny(folder, FetchBodys, w.1, !plaintext) + RequestIfAny(folder, FetchBodys, w.2, !plaintext))
    {
      var folder, uid := cursor.folderUid.0, cursor.folderUid.1;
      var u := AsUint32(uid);
      var hs, pri := {}, {};
      if uid != -1 && u !in cache.HeadersOf(folder) && u !in asked.RequestedHeadersOf(folder) {
        hs := {u};
      }
      if uid != -1 && u !in cache.BodysOf(folder) && u !in asked.RequestedBodysOf(folder) {
        pri := {u};
      }
      var sec := ClaimNeighbours(folder, asked.RequestedBodysOf(folder) + pri);
      var list := Shown(display, sortFilter, currentFolder);
      assert (hs, pri, sec) == ViewWanted(cache, asked, folder, uid, ViewNeighbours(list, cursor.IndexIn(currentFolder)), prefetchLevel);
      asked := ViewAsked(asked, folder, (hs, pri, sec));
      calls := calls.(requests := calls.requests + RequestIfAny(folder, FetchHeaders, hs, false)
                                  + RequestIfAny(folder, FetchBodys, pri, !plaintext) + RequestIfAny(folder, FetchBodys, sec, !plaintext));
    }

    /**
     * DrawMessage's neighbour part: at the prefetch level CurrentView, the
     * bodies of the rows after and before the list cursor that are neither
     * cached in folder nor in requested, the row after checked first.
     */
    method ClaimNeighbours(folder: Folder, requested: set<Uid>) returns (sec: set<Uid>)
      ensures sec == if !prefetchLevel.AtLeast(LevelCurrentView) then {}
                     else ViewNeighbours(Shown(display, sortFilter, currentFolder), cursor.IndexIn(currentFolder))
                          - cache.BodysOf(folder).Keys - requested
    {
      sec := {};
      var list := Shown(display, sortFilter, currentFolder);
      if prefetchLevel.AtLeast(LevelCurrentView) && |list| > 0 {
        var next := list[Bound(0, cursor.IndexIn(currentFolder) + 1, |list| - 1)];
        var prev := list[Bound(0, cursor.IndexIn(currentFolder) - 1, |list| - 1)];
        if next !in cache.BodysOf(folder) && next !in requested {
          sec := sec + {next};
        }
        if prev !in cache.BodysOf(folder) && prev !in requested + sec {
          sec := sec + {prev};
        }
      }
    }
  }
}
