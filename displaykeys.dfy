/**
 * The sort key under which a message is listed in one folder's display
 * index for one sort/filter mode (Ui::GetDisplayUidsKey).
 *
 * The key is built from the header's date and time, a space and the UID
 * zero-padded to seven digits; the priority modes put a token and a space
 * in front, the ascending modes bit-invert the whole key, and the filter
 * modes return the empty key for a message that does not match.
 */
module DisplayKeys {
  import opened ByteStrings
  import opened MailTypes

  /**
   * The string helpers the key is made with. Their bodies are not part of
   * this model, so they are parameters; the facts the model needs about
   * them are stated in KeyFnsAssumed.
   */
  datatype TextFns = TextFns(
    zeroPad7: Uid -> Bytes,            // Util::ZeroPad(uid, 7)
    bitInvert: Bytes -> Bytes,         // Util::BitInvertString
    normalizeName: Bytes -> Bytes,     // Util::NormalizeName
    normalizeSubject: Bytes -> Bytes)  // Util::NormalizeSubject(s, true)

  /**
   * Assumed of the helpers: a padded UID contains no space and tells its
   * UID apart, and bit inversion keeps length and loses no information.
   */
  ghost predicate KeyFnsAssumed(fns: TextFns)
  {
    && (forall u: Uid :: Space !in fns.zeroPad7(u))
    && (forall u: Uid, v: Uid :: fns.zeroPad7(u) == fns.zeroPad7(v) ==> u == v)
    && (forall s :: |fns.bitInvert(s)| == |s|)
    && (forall s, t :: fns.bitInvert(s) == fns.bitInvert(t) ==> s == t)
  }

  /**
   * Assumed where the ascending modes are claimed to list in reverse: bit
   * inversion reverses the order of two keys that differ inside both.
   */
  ghost predicate InvertReversesOrder(fns: TextFns)
  {
    forall a, b :: Less(a, b) && !IsPrefix(a, b) ==> Less(fns.bitInvert(b), fns.bitInvert(a))
  }

  /** What the key reads besides the UID and the mode. */
  datatype KeyEnv = KeyEnv(
    headers: map<Uid, Header>,   // m_Headers of the folder
    flags: map<Uid, FlagWord>,   // m_Flags of the folder
    filterCustomStr: Bytes,      // m_FilterCustomStr
    folderIsSent: bool,          // p_Folder == m_SentFolder
    currentIsSent: bool)         // m_CurrentFolder == m_SentFolder

  function HeaderOf(env: KeyEnv, uid: Uid): Option<Header>
  {
    if uid in env.headers then Some(env.headers[uid]) else None
  }

  predicate IsUnseen(env: KeyEnv, uid: Uid)
  {
    uid in env.flags && !env.flags[uid].seen
  }

  predicate HasAttachments(env: KeyEnv, uid: Uid)
  {
    uid in env.headers && env.headers[uid].hasAttachments
  }

  /** The date-and-UID part every non-empty key ends with. */
  function DateUidKey(fns: TextFns, env: KeyEnv, uid: Uid): Bytes
  {
    (if uid in env.headers then env.headers[uid].dateTime else []) + [Space] + fns.zeroPad7(uid)
  }

  /** "1" or "0" */
  function Flag01(b: bool): Bytes
  {
    if b then ['1' as Byte] else ['0' as Byte]
  }

  /** The correspondent a name sort or filter uses: the recipient in the sent folder. */
  function NameOf(h: Header, isSent: bool): Bytes
  {
    if !isSent then h.shortFrom else h.shortTo
  }

  /** Ui::GetDisplayUidsKey */
  function DisplayKey(fns: TextFns, env: KeyEnv, uid: Uid, mode: SortFilter): Bytes
  {
    var dk := DateUidKey(fns, env, uid);
    var h := HeaderOf(env, uid);
    match mode
    case SortDefault => dk
    case SortDateDesc => dk
    case SortDateAsc => fns.bitInvert(dk)
    case SortUnseenOnly => if IsUnseen(env, uid) then dk else []
    case SortAttchOnly => if HasAttachments(env, uid) then dk else []
    case SortCurrDateOnly =>
      if h.Some? && h.value.date == env.filterCustomStr then dk else []
    case SortCurrNameOnly =>
      if h.Some? && fns.normalizeName(NameOf(h.value, env.currentIsSent)) == env.filterCustomStr then dk else []
    case SortCurrSubjOnly =>
      if h.Some? && fns.normalizeSubject(h.value.subject) == env.filterCustomStr then dk else []
    case SortNameDesc =>
      fns.normalizeName(if h.Some? then NameOf(h.value, env.folderIsSent) else []) + [Space] + dk
    case SortNameAsc =>
      fns.bitInvert(fns.normalizeName(if h.Some? then NameOf(h.value, env.folderIsSent) else []) + [Space] + dk)
    case SortSubjDesc =>
      fns.normalizeSubject(if h.Some? then h.value.subject else []) + [Space] + dk
    case SortSubjAsc =>
      fns.bitInvert(fns.normalizeSubject(if h.Some? then h.value.subject else []) + [Space] + dk)
    case SortUnseenDesc => Flag01(IsUnseen(env, uid)) + [Space] + dk
    case SortUnseenAsc => fns.bitInvert(Flag01(IsUnseen(env, uid)) + [Space] + dk)
    case SortAttchDesc => Flag01(HasAttachments(env, uid)) + [Space] + dk
    case SortAttchAsc => fns.bitInvert(Flag01(HasAttachments(env, uid)) + [Space] + dk)
  }

  /** The ascending modes, and the descending (or filter) mode each one inverts. */
  predicate IsAscending(mode: SortFilter)
  {
    mode in {SortUnseenAsc, SortAttchAsc, SortDateAsc, SortNameAsc, SortSubjAsc}
  }

  function DescendingOf(mode: SortFilter): SortFilter
    requires IsAscending(mode)
  {
    match mode
    case SortUnseenAsc => SortUnseenDesc
    case SortAttchAsc => SortAttchDesc
    case SortDateAsc => SortDateDesc
    case SortNameAsc => SortNameDesc
    case SortSubjAsc => SortSubjDesc
  }

  /** Every ascending key is the matching descending key, bit-inverted; Default is DateDesc. */
  lemma AscendingIsInvertedDescending(fns: TextFns, env: KeyEnv, uid: Uid, mode: SortFilter)
    ensures IsAscending(mode) ==>
      DisplayKey(fns, env, uid, mode) == fns.bitInvert(DisplayKey(fns, env, uid, DescendingOf(mode)))
    ensures DisplayKey(fns, env, uid, SortDefault) == DisplayKey(fns, env, uid, SortDateDesc)
  {
  }

  /** The predicate a filter mode keeps a message by. */
  predicate FilterHolds(fns: TextFns, env: KeyEnv, uid: Uid, mode: SortFilter)
    requires mode.IsFilter()
  {
    match mode
    case SortUnseenOnly => IsUnseen(env, uid)
    case SortAttchOnly => HasAttachments(env, uid)
    case SortCurrDateOnly => uid in env.headers && env.headers[uid].date == env.filterCustomStr
    case SortCurrNameOnly =>
      uid in env.headers && fns.normalizeName(NameOf(env.headers[uid], env.currentIsSent)) == env.filterCustomStr
    case SortCurrSubjOnly =>
      uid in env.headers && fns.normalizeSubject(env.headers[uid].subject) == env.filterCustomStr
  }

  /**
   * A filter mode gives a message the date key when it matches and the
   * empty key (which keeps it out of the index) otherwise; a message
   * without a cached header never matches the header-based filters.
   */
  lemma FilterKeys(fns: TextFns, env: KeyEnv, uid: Uid, mode: SortFilter)
    requires mode.IsFilter()
    ensures FilterHolds(fns, env, uid, mode) ==>
      DisplayKey(fns, env, uid, mode) == DisplayKey(fns, env, uid, SortDateDesc)
    ensures !FilterHolds(fns, env, uid, mode) ==> DisplayKey(fns, env, uid, mode) == []
    ensures mode != SortUnseenOnly && uid !in env.headers ==> DisplayKey(fns, env, uid, mode) == []
  {
  }

  /** Only a filter mode ever gives the empty key. */
  lemma SortKeysNonEmpty(fns: TextFns, env: KeyEnv, uid: Uid, mode: SortFilter)
    requires KeyFnsAssumed(fns)
    requires !mode.IsFilter()
    ensures DisplayKey(fns, env, uid, mode) != []
  {
    var dk := DateUidKey(fns, env, uid);
    assert |dk| > 0;
  }

  /**
   * The descending string a non-empty key is made of: some prefix, a space,
   * and the padded UID.
   */
  function PlainKey(fns: TextFns, env: KeyEnv, uid: Uid, mode: SortFilter): Bytes
  {
    if IsAscending(mode) then DisplayKey(fns, env, uid, DescendingOf(mode))
    else DisplayKey(fns, env, uid, mode)
  }

  function KeyHead(fns: TextFns, env: KeyEnv, uid: Uid, mode: SortFilter): Bytes
  {
    var date := if uid in env.headers then env.headers[uid].dateTime else [];
    var h := HeaderOf(env, uid);
    match mode
    case SortNameDesc =>
      fns.normalizeName(if h.Some? then NameOf(h.value, env.folderIsSent) else []) + [Space] + date
    case SortNameAsc =>
      fns.normalizeName(if h.Some? then NameOf(h.value, env.folderIsSent) else []) + [Space] + date
    case SortSubjDesc => fns.normalizeSubject(if h.Some? then h.value.subject else []) + [Space] + date
    case SortSubjAsc => fns.normalizeSubject(if h.Some? then h.value.subject else []) + [Space] + date
    case SortUnseenDesc => Flag01(IsUnseen(env, uid)) + [Space] + date
    case SortUnseenAsc => Flag01(IsUnseen(env, uid)) + [Space] + date
    case SortAttchDesc => Flag01(HasAttachments(env, uid)) + [Space] + date
    case SortAttchAsc => Flag01(HasAttachments(env, uid)) + [Space] + date
    case _ => date
  }

  lemma KeyShape(fns: TextFns, env: KeyEnv, uid: Uid, mode: SortFilter)
    ensures DisplayKey(fns, env, uid, mode) == [] ||
      PlainKey(fns, env, uid, mode) == KeyHead(fns, env, uid, mode) + [Space] + fns.zeroPad7(uid)
    ensures IsAscending(mode) ==> DisplayKey(fns, env, uid, mode) == fns.bitInvert(PlainKey(fns, env, uid, mode))
    ensures !IsAscending(mode) ==> DisplayKey(fns, env, uid, mode) == PlainKey(fns, env, uid, mode)
  {
    var date := if uid in env.headers then env.headers[uid].dateTime else [];
    var h := HeaderOf(env, uid);
    var x := match mode
      case SortNameDesc | SortNameAsc => fns.normalizeName(if h.Some? then NameOf(h.value, env.folderIsSent) else [])
      case SortSubjDesc | SortSubjAsc => fns.normalizeSubject(if h.Some? then h.value.subject else [])
      case SortUnseenDesc | SortUnseenAsc => Flag01(IsUnseen(env, uid))
      case _ => Flag01(HasAttachments(env, uid));
    SpacedAssoc(x, date, fns.zeroPad7(uid));
  }

  /** Regrouping the prefix, the date and the padded UID of a key. */
  lemma SpacedAssoc(x: Bytes, date: Bytes, pad: Bytes)
    ensures x + [Space] + (date + [Space] + pad) == (x + [Space] + date) + [Space] + pad
  {
  }

  /** The separator of p + " " + d is its last space when d has none. */
  lemma LastSpace(p: Bytes, d: Bytes)
    requires Space !in d
    ensures (p + [Space] + d)[|p|] == Space
    ensures forall k :: |p| < k < |p + [Space] + d| ==> (p + [Space] + d)[k] != Space
  {
    forall k | |p| < k < |p + [Space] + d|
      ensures (p + [Space] + d)[k] != Space
    {
      assert (p + [Space] + d)[k] == d[k - |p| - 1];
    }
  }

  /** What follows the last space of a string is the same for equal strings. */
  lemma SameTail(p1: Bytes, d1: Bytes, p2: Bytes, d2: Bytes)
    requires p1 + [Space] + d1 == p2 + [Space] + d2
    requires Space !in d1 && Space !in d2
    ensures d1 == d2
  {
    var s := p1 + [Space] + d1;
    LastSpace(p1, d1);
    LastSpace(p2, d2);
    assert |p1| == |p2|;
    assert d1 == s[|p1| + 1..] == d2;
  }

  /**
   * A non-empty key names its UID: whatever the header, flag and filter
   * state it was computed in, two UIDs never share a key. This is what makes
   * the index hold each UID under one key and lets it be read as a list.
   */
  lemma KeyDeterminesUid(fns: TextFns, env1: KeyEnv, u1: Uid, env2: KeyEnv, u2: Uid, mode: SortFilter)
    requires KeyFnsAssumed(fns)
    requires DisplayKey(fns, env1, u1, mode) == DisplayKey(fns, env2, u2, mode) != []
    ensures u1 == u2
  {
    KeyShape(fns, env1, u1, mode);
    KeyShape(fns, env2, u2, mode);
    var p1, p2 := PlainKey(fns, env1, u1, mode), PlainKey(fns, env2, u2, mode);
    if IsAscending(mode) {
      assert fns.bitInvert(p1) == fns.bitInvert(p2);
    }
    assert p1 == p2;
    SameTail(KeyHead(fns, env1, u1, mode), fns.zeroPad7(u1), KeyHead(fns, env2, u2, mode), fns.zeroPad7(u2));
  }

  lemma KeyInjective(fns: TextFns, env: KeyEnv, mode: SortFilter)
    requires KeyFnsAssumed(fns)
    ensures forall u1: Uid, u2: Uid ::
      DisplayKey(fns, env, u1, mode) == DisplayKey(fns, env, u2, mode) != [] ==> u1 == u2
  {
    forall u1: Uid, u2: Uid | DisplayKey(fns, env, u1, mode) == DisplayKey(fns, env, u2, mode) != []
      ensures u1 == u2
    {
      KeyDeterminesUid(fns, env, u1, env, u2, mode);
    }
  }

  /**
   * In SortUnseenDesc every unseen message sorts above every seen one, so
   * reading the index from the back lists unread mail first; SortUnseenAsc
   * puts it last when inversion reverses order.
   */
  lemma UnseenSortsAbove(fns: TextFns, env: KeyEnv, unseen: Uid, seen: Uid)
    requires IsUnseen(env, unseen) && !IsUnseen(env, seen)
    ensures Less(DisplayKey(fns, env, seen, SortUnseenDesc), DisplayKey(fns, env, unseen, SortUnseenDesc))
    ensures InvertReversesOrder(fns) ==>
      Less(DisplayKey(fns, env, unseen, SortUnseenAsc), DisplayKey(fns, env, seen, SortUnseenAsc))
  {
    var a, b := DisplayKey(fns, env, seen, SortUnseenDesc), DisplayKey(fns, env, unseen, SortUnseenDesc);
    assert a[0] == '0' as Byte && b[0] == '1' as Byte;
    assert !IsPrefix(a, b) by {
      if |a| <= |b| {
        assert b[..|a|][0] != a[0];
      }
    }
  }

  /** Likewise messages with attachments sort above those without in SortAttchDesc. */
  lemma AttachmentsSortAbove(fns: TextFns, env: KeyEnv, with: Uid, without: Uid)
    requires HasAttachments(env, with) && !HasAttachments(env, without)
    ensures Less(DisplayKey(fns, env, without, SortAttchDesc), DisplayKey(fns, env, with, SortAttchDesc))
    ensures InvertReversesOrder(fns) ==>
      Less(DisplayKey(fns, env, with, SortAttchAsc), DisplayKey(fns, env, without, SortAttchAsc))
  {
    var a, b := DisplayKey(fns, env, without, SortAttchDesc), DisplayKey(fns, env, with, SortAttchDesc);
    assert a[0] == '0' as Byte && b[0] == '1' as Byte;
    assert !IsPrefix(a, b) by {
      if |a| <= |b| {
        assert b[..|a|][0] != a[0];
      }
    }
  }

  /**
   * In the date modes a message with the earlier date and time sorts below
   * one with a later date and time (so it is listed after it), provided the
   * two date strings differ inside both; the ascending mode reverses this
   * when inversion reverses order.
   */
  lemma DateOrder(fns: TextFns, env: KeyEnv, older: Uid, newer: Uid)
    requires older in env.headers && newer in env.headers
    requires Less(env.headers[older].dateTime, env.headers[newer].dateTime)
    requires !IsPrefix(env.headers[older].dateTime, env.headers[newer].dateTime)
    ensures Less(DisplayKey(fns, env, older, SortDateDesc), DisplayKey(fns, env, newer, SortDateDesc))
    ensures InvertReversesOrder(fns) ==>
      Less(DisplayKey(fns, env, newer, SortDateAsc), DisplayKey(fns, env, older, SortDateAsc))
  {
    var d1, d2 := env.headers[older].dateTime, env.headers[newer].dateTime;
    var x, y := [Space] + fns.zeroPad7(older), [Space] + fns.zeroPad7(newer);
    LessAppend(d1, d2, x, y);
    assert DisplayKey(fns, env, older, SortDateDesc) == d1 + x by {
      assert d1 + [Space] + fns.zeroPad7(older) == d1 + x;
    }
    assert DisplayKey(fns, env, newer, SortDateDesc) == d2 + y by {
      assert d2 + [Space] + fns.zeroPad7(newer) == d2 + y;
    }
  }
}
