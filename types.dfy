/**
 * The values the mail client's UI passes around: message identifiers, the
 * cached header, flag and body records, the UI's enumerations, and the
 * shapes of the requests, responses, actions and searches it exchanges with
 * the IMAP side.
 */
module MailTypes {
  import opened ByteStrings

  /** An IMAP UID: a uint32_t. */
  type Uid = n: int | 0 <= n < 0x1_0000_0000

  /** A folder name (std::string). */
  type Folder = string

  /** A std::wstring: a sequence of code points. */
  type WString = seq<int>

  datatype Option<T> = None | Some(value: T)

  /**
   * A cached message header. The Header class's accessors are not part of
   * this model; their results are the fields here.
   */
  datatype Header = Header(
    dateTime: Bytes,        // GetDateTime(): a sortable date and time
    date: Bytes,            // GetDate()
    shortFrom: Bytes,       // GetShortFrom()
    shortTo: Bytes,         // GetShortTo()
    subject: Bytes,         // GetSubject()
    hasAttachments: bool)   // GetHasAttachments()

  /**
   * A cached flag word (uint32_t). Only the seen bit is read or written by
   * the UI; the other bits are carried along unchanged.
   */
  datatype FlagWord = FlagWord(seen: bool, otherBits: nat)

  /** The value operator[] default-inserts: 0, which is not seen. */
  const NoFlags := FlagWord(false, 0)

  /** Flag::SetSeen */
  function SetSeenBit(f: FlagWord, seen: bool): (r: FlagWord)
    ensures r.seen == seen && r.otherBits == f.otherBits
  {
    f.(seen := seen)
  }

  /** A cached message body; its contents are not interpreted here. */
  datatype Body = Body(content: Bytes)

  /** Ui::State */
  datatype UiState =
    | ViewMessageList | ViewMessage | GotoFolder | MoveToFolder
    | ComposeMessage | ComposeCopyMessage | ReplyAllMessage | ReplySenderMessage
    | ForwardMessage | ForwardAttachedMessage
    | AddressList | FileList | ViewPartList | FromAddressList

  /** Ui::PrefetchLevel, with the numeric values the `>=` comparisons rely on. */
  datatype PrefetchLevel = LevelNone | LevelCurrentMessage | LevelCurrentView | LevelFullSync
  {
    function Value(): (v: nat)
      ensures v <= 3
    {
      match this
      case LevelNone => 0
      case LevelCurrentMessage => 1
      case LevelCurrentView => 2
      case LevelFullSync => 3
    }

    predicate AtLeast(other: PrefetchLevel)
    {
      Value() >= other.Value()
    }
  }

  /** The levels are strictly ordered None < CurrentMessage < CurrentView < FullSync. */
  lemma PrefetchLevelOrder(a: PrefetchLevel, b: PrefetchLevel)
    ensures a.Value() == b.Value() ==> a == b
    ensures LevelFullSync.AtLeast(a) && a.AtLeast(LevelNone)
    ensures a.AtLeast(LevelCurrentView) <==> a == LevelCurrentView || a == LevelFullSync
    ensures a.AtLeast(LevelCurrentMessage) <==> a != LevelNone
  {
  }

  /** Ui::UiRequest: the bits written to the wake-up pipe, one char at a time. */
  const UiRequestNone: bv8 := 0
  const UiRequestDrawAll: bv8 := 1
  const UiRequestDrawError: bv8 := 2
  const UiRequestHandleConnected: bv8 := 4

  /** Ui::HeaderField */
  const HeaderAll := -1
  const HeaderFrom := 0
  const HeaderTo := 1
  const HeaderCc := 2
  const HeaderBcc := 3
  const HeaderAtt := 4
  const HeaderSub := 5

  /** Ui::SortFilter */
  datatype SortFilter =
    | SortDefault
    | SortUnseenAsc | SortUnseenDesc | SortUnseenOnly
    | SortAttchAsc | SortAttchDesc | SortAttchOnly
    | SortDateAsc | SortDateDesc | SortCurrDateOnly
    | SortNameAsc | SortNameDesc | SortCurrNameOnly
    | SortSubjAsc | SortSubjDesc | SortCurrSubjOnly
  {
    /** The enumerator's integer value. */
    function Value(): (v: nat)
      ensures v < 16
      ensures v == 0 <==> this == SortDefault
    {
      match this
      case SortDefault => 0
      case SortUnseenAsc => 1
      case SortUnseenDesc => 2
      case SortUnseenOnly => 3
      case SortAttchAsc => 4
      case SortAttchDesc => 5
      case SortAttchOnly => 6
      case SortDateAsc => 7
      case SortDateDesc => 8
      case SortCurrDateOnly => 9
      case SortNameAsc => 10
      case SortNameDesc => 11
      case SortCurrNameOnly => 12
      case SortSubjAsc => 13
      case SortSubjDesc => 14
      case SortCurrSubjOnly => 15
    }

    /** The modes that show only the messages matching a predicate. */
    predicate IsFilter()
    {
      this in {SortUnseenOnly, SortAttchOnly, SortCurrDateOnly, SortCurrNameOnly, SortCurrSubjOnly}
    }
  }

  /** Distinct enumerators have distinct values. */
  lemma SortFilterValueInjective(a: SortFilter, b: SortFilter)
    ensures a.Value() == b.Value() ==> a == b
  {
  }

  /** ImapManager::ResponseStatus bits. */
  const ResponseStatusOk: bv32 := 0
  const GetFoldersFailed: bv32 := 1
  const GetUidsFailed: bv32 := 2
  const GetHeadersFailed: bv32 := 4
  const GetFlagsFailed: bv32 := 8
  const GetBodysFailed: bv32 := 16
  const LoginFailed: bv32 := 32

  /** ImapManager::Request */
  datatype Request = Request(
    prefetchLevel: PrefetchLevel,
    folder: Folder,
    getFolders: bool,
    getUids: bool,
    processHtml: bool,
    getHeaders: set<Uid>,
    getFlags: set<Uid>,
    getBodys: set<Uid>)

  /** A default-constructed request for a folder. */
  function EmptyRequest(folder: Folder): (r: Request)
    ensures r.folder == folder && r.prefetchLevel == LevelNone
    ensures !r.getFolders && !r.getUids && !r.processHtml
    ensures r.getHeaders == {} && r.getFlags == {} && r.getBodys == {}
  {
    Request(LevelNone, folder, false, false, false, {}, {}, {})
  }

  /** ImapManager::Response */
  datatype Response = Response(
    status: bv32,
    folder: Folder,
    cached: bool,
    folders: set<Folder>,
    uids: set<Uid>,
    headers: map<Uid, Header>,
    flags: map<Uid, FlagWord>,
    bodys: map<Uid, Body>)

  /** ImapManager::Action */
  datatype Action = Action(
    folder: Folder,
    uids: set<Uid>,
    setSeen: bool,
    setUnseen: bool,
    uploadDraft: bool,
    uploadMessage: bool,
    deleteMessages: bool,
    moveDestination: Folder,
    msg: Bytes)

  /** A default-constructed action on some UIDs of a folder. */
  function EmptyAction(folder: Folder, uids: set<Uid>): (a: Action)
    ensures a.folder == folder && a.uids == uids
    ensures !a.setSeen && !a.setUnseen && !a.uploadDraft && !a.uploadMessage && !a.deleteMessages
    ensures a.moveDestination == "" && a.msg == []
  {
    Action(folder, uids, false, false, false, false, false, "", [])
  }

  /** ImapManager::SearchQuery */
  datatype SearchQuery = SearchQuery(queryStr: string, offset: nat, max: nat)

  /** ImapManager::SearchResult */
  datatype SearchResult = SearchResult(
    headers: seq<Header>,
    folderUids: seq<(Folder, Uid)>,
    hasMore: bool)

  /** Lookup in a std::map through operator[]: a missing key reads as the default value. */
  function Get<K, V>(m: map<K, V>, k: K, default: V): (v: V)
    ensures k in m ==> v == m[k]
    ensures k !in m ==> v == default
  {
    if k in m then m[k] else default
  }

  /** Every element of s is at least m. */
  predicate IsLowerBound(m: Uid, s: set<Uid>)
  {
    forall x | x in s :: m <= x
  }

  lemma {:induction false} MinExists(s: set<Uid>)
    requires s != {}
    ensures exists m :: m in s && IsLowerBound(m, s)
  {
    var y :| y in s;
    var rest := s - {y};
    if rest == {} {
      assert s == {y};
      assert IsLowerBound(y, s);
    } else {
      MinExists(rest);
      var m :| m in rest && IsLowerBound(m, rest);
      var least := if y < m then y else m;
      assert IsLowerBound(least, s) by {
        forall x | x in s
          ensures least <= x
        {
          if x != y {
            assert x in rest;
          }
        }
      }
      assert least in s;
    }
  }

  /** The smallest element: where iteration over a std::set<uint32_t> starts. */
  function Min(s: set<Uid>): (m: Uid)
    requires s != {}
    ensures m in s && IsLowerBound(m, s)
  {
    MinExists(s);
    var m :| m in s && IsLowerBound(m, s);
    m
  }

  /**
   * std::less<std::string> on folder names: character by character, a
   * proper prefix first. It is ByteStrings.Less again, over Folder (a
   * string, as the names are shown) rather than Bytes (the sort keys).
   */
  predicate FolderBelow(a: Folder, b: Folder)
    decreases |a|
  {
    |b| > 0 && (|a| == 0 || a[0] < b[0] || (a[0] == b[0] && FolderBelow(a[1..], b[1..])))
  }

  lemma {:induction false} FolderBelowIrreflexive(a: Folder)
    ensures !FolderBelow(a, a)
    decreases |a|
  {
    if |a| > 0 {
      FolderBelowIrreflexive(a[1..]);
    }
  }

  lemma {:induction false} FolderBelowTransitive(a: Folder, b: Folder, c: Folder)
    requires FolderBelow(a, b) && FolderBelow(b, c)
    ensures FolderBelow(a, c)
    decreases |a|
  {
    if |a| > 0 && a[0] == b[0] && b[0] == c[0] {
      FolderBelowTransitive(a[1..], b[1..], c[1..]);
    }
  }

  lemma {:induction false} FolderBelowTotal(a: Folder, b: Folder)
    requires a != b
    ensures FolderBelow(a, b) || FolderBelow(b, a)
    decreases |a|
  {
    if |a| > 0 && |b| > 0 && a[0] == b[0] {
      assert a == [a[0]] + a[1..] && b == [b[0]] + b[1..];
      FolderBelowTotal(a[1..], b[1..]);
    }
  }

  /** m comes before every other folder of s. */
  predicate IsFirstFolder(m: Folder, s: set<Folder>)
  {
    forall x | x in s && x != m :: FolderBelow(m, x)
  }

  lemma {:induction false} FirstFolderExists(s: set<Folder>)
    requires s != {}
    ensures exists m :: m in s && IsFirstFolder(m, s)
  {
    var y :| y in s;
    var rest := s - {y};
    if rest == {} {
      assert s == {y};
      assert IsFirstFolder(y, s);
    } else {
      FirstFolderExists(rest);
      var m :| m in rest && IsFirstFolder(m, rest);
      FolderBelowTotal(m, y);
      var first := if FolderBelow(y, m) then y else m;
      assert IsFirstFolder(first, s) by {
        forall x | x in s && x != first
          ensures FolderBelow(first, x)
        {
          if x != y && x != m {
            assert FolderBelow(m, x);
            if first == y {
              FolderBelowTransitive(y, m, x);
            }
          }
        }
      }
    }
  }

  /** The first folder of a std::set<std::string>: where iteration over it starts. */
  function FirstFolder(s: set<Folder>): (m: Folder)
    requires s != {}
    ensures m in s && IsFirstFolder(m, s)
  {
    FirstFolderExists(s);
    FirstFolderUnique(s);
    var m :| m in s && IsFirstFolder(m, s);
    m
  }

  lemma FirstFolderUnique(s: set<Folder>)
    ensures forall m1, m2 | m1 in s && IsFirstFolder(m1, s) && m2 in s && IsFirstFolder(m2, s) :: m1 == m2
  {
    forall m1, m2 | m1 in s && IsFirstFolder(m1, s) && m2 in s && IsFirstFolder(m2, s)
      ensures m1 == m2
    {
      if m1 != m2 {
        FolderBelowTransitive(m1, m2, m1);
        FolderBelowIrreflexive(m1);
      }
    }
  }
}
