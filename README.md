# Falanet terminal email client: the UI core, modelled in Dafny

Falanet is an ncurses email client. Its `Ui` class keeps a per-folder cache of
the messages on the IMAP server: their UIDs, headers, flags and bodies. It also
keeps a display index per folder and per sort/filter mode, which maps a sort key
to a UID and is read from the back as the message list. From these it picks the
message under the cursor and decides what to ask the IMAP and SMTP threads
for. When their responses come back it merges them into the cache and patches
the indexes. The same class handles search results, the selection, the compose
header fields, line editing keys and the wake-up pipe. `HtmlParser` turns HTML
mail into terminal text. `util.h` supplies `Util::Bound` and the order of the
file picker's entries.

This project models that core and proves what it promises:

- `types.dfy` (`MailTypes`): the enumerations of `ui.h` and the records
  exchanged with the IMAP side.
- `bytes.dfy` (`ByteStrings`): `std::string`'s order.
- `util.dfy` (`Util`): `Util::Bound` and `FileinfoCompare`.
- `states.dfy` (`UiStates`): `Ui::SetState`'s bookkeeping of the state to return to.
- `wakeup.dfy` (`WakeUp`): the pipe through which the other threads wake the UI.
- `displaykeys.dfy` (`DisplayKeys`) and `standardfns.dfy` (`StandardTextFns`):
  `Ui::GetDisplayUidsKey`.
- `index.dfy` (`DisplayIndex`): a display index as a sorted list of entries,
  with `std::map`'s insert and erase.
- `sortmodes.dfy` (`SortModes`): the sort and filter keys.
- `cursor.dfy` (`Cursor`): the index/UID cursor and the list window.
- `fetch.dfy` (`Fetch`): the loops that claim UIDs to fetch and send them in batches.
- `search.dfy` (`SearchResults`): search result pages and their erasure.
- `selection.dfy` (`Selection`): the selection of messages.
- `compose.dfy` (`ComposeHeader`): the compose header fields and the rich header.
- `editing.dfy` (`KeyHandling`): line, text, document and list keys, and key names.
- `mailui.dfy` (`MailUi`): the `Ui` class itself, with its fields and the
  operations that change them, over the value-level specifications above.
- `htmltext.dfy`, `htmlrewrite.dfy` and `htmllayout.dfy` (`HtmlText`,
  `HtmlRewrite`, `HtmlLayout`): the parser's string routines, the
  entity/emoji replacement loops, word wrapping and table rows.

The helpers whose bodies live in files outside this model (`Util::ZeroPad`,
`Util::BitInvertString`, `Util::NormalizeName`, `Util::NormalizeSubject`) are
the `TextFns` parameter of the key function. The facts the proofs use about
them are named in `KeyFnsAssumed`, and `StandardTextFns` shows that a concrete
choice satisfies them. `src/util.cpp` is not part of this model.

## Model

| member | source | states |
|---|---|---|
| `Util.Bound` | src/util.h:218-222 | the result lies in [lo, hi] when lo <= hi; it is v when v is already inside, lo when v is below, hi when v is above; when lo > hi the result is lo, so clamping into an empty list gives 0 |
| `Util.DefaultFileinfo` | src/util.h:29-50 | a default-constructed entry (empty name, size 0) counts as hidden and not as a directory |
| `Util.FileinfoCompareIrreflexive` | src/util.h:54-73 | no entry sorts before itself |
| `Util.FileinfoCompareTransitive` | src/util.h:54-73 | the order is transitive across its three levels: hidden, directory, name |
| `Util.FileinfoIncomparable` | src/util.h:54-73 | two entries are incomparable exactly when they agree on hidden, directory and name; this is an equivalence, so the order is a strict weak ordering, as std::set requires of its comparator |
| `ByteStrings.LessIrreflexive` | src/ui.h:382 | std::string's `<` (the order of a display index's keys) is irreflexive |
| `ByteStrings.LessAsymmetric` | src/ui.h:382 | `<` is asymmetric |
| `ByteStrings.LessTransitive` | src/ui.h:382 | `<` is transitive |
| `ByteStrings.LessTotal` | src/ui.h:382 | two different strings are always ordered one way or the other |
| `ByteStrings.PrefixLess` | src/ui.h:382 | a proper prefix sorts first |
| `ByteStrings.LessAppend` | src/ui.h:382 | when neither string is a prefix of the other, appending anything to either keeps their order |
| `ByteStrings.Complement` | src/ui.cpp:6491-6494 | bit-inverting a key keeps its length and inverts every byte |
| `ByteStrings.ComplementInvolutive` | src/ui.cpp:6491-6494 | inverting twice gives back the key |
| `ByteStrings.ComplementReverses` | src/ui.cpp:6491-6494 | inverting two keys that differ inside both reverses their order, which is what makes the ascending modes list in reverse |
| `ByteStrings.ComplementKeepsPrefixOrder` | src/ui.cpp:6491-6494 | a proper prefix still sorts first after both keys are inverted, so a prefix pair is not reversed |
| `WakeUp.OrMasked` | src/ui.cpp:2420-2424 | a bit of a mask is set in an OR exactly when it is set in one side |
| `WakeUp.OrFoldBits` | src/ui.cpp:2420-2424 | the OR of the bytes read has a bit of a mask set exactly when some byte read has it |
| `WakeUp.NoKindLost` | src/ui.h:64-70 | the three request kinds are distinct single bits, so each is in the folded request exactly when a byte of that kind was read |
| `WakeUp.ReadRequests` | src/ui.cpp:2411-2427 | one wake-up reads min(pending, 256) bytes; the request is their OR-fold, and the rest stays in the pipe in order |
| `WakeUp.PerformAsWritten` | src/ui.cpp:2297-2321 | Ui::PerformUiRequest as written: the shown and left errors together are the error queue, and at most one error is shown |
| `WakeUp.SecondErrorStranded` | src/ui.cpp:2297-2321 | two DrawError bytes fold into one bit: the first queued error is shown and the second stays queued |
| `WakeUp.Perform` | src/ui.cpp:2297-2321 | the corrected dispatch: the shown and left errors together are still the queue |
| `WakeUp.EveryErrorShown` | src/ui.cpp:2297-2321 | with the correction, a wake-up that reads any DrawError byte shows every queued error in order and leaves none; DrawAll and HandleConnected are acted on exactly when a byte carrying them was read |
| `MailTypes.SetSeenBit` | src/ui.cpp:5261-5264 | setting the seen flag sets that bit as asked and keeps every other bit |
| `MailTypes.PrefetchLevel.Value` | src/ui.h:72-78 | a level's value is at most 3 (FullSync) |
| `MailTypes.PrefetchLevelOrder` | src/ui.h:72-78 | distinct levels have distinct values; every level is between None and FullSync; a level is at least CurrentView exactly when it is CurrentView or FullSync, and at least CurrentMessage exactly when it is not None |
| `MailTypes.SortFilter.Value` | src/ui.h:91-109 | a mode's value is below 16, and it is 0 exactly for SortDefault |
| `MailTypes.SortFilterValueInjective` | src/ui.h:91-109 | distinct modes have distinct values |
| `MailTypes.EmptyRequest` | src/imapmanager.h:42-53 | a default request for a folder is at level None and asks for nothing |
| `MailTypes.EmptyAction` | src/imapmanager.h:67-80 | a default action on some UIDs of a folder sets no flag, uploads nothing, deletes nothing and moves nowhere |
| `MailTypes.Get` | src/ui.cpp:5263 | std::map::operator[] read: the stored value when the key is present, the default-inserted one otherwise |
| `MailTypes.Min` | src/ui.cpp:4339 | the first element of a non-empty std::set<uint32_t> is in the set and below all others |
| `MailTypes.FolderBelowIrreflexive` | src/ui.cpp:4263 | no folder name sorts before itself |
| `MailTypes.FolderBelowTransitive` | src/ui.cpp:4263 | the order of folder names is transitive |
| `MailTypes.FolderBelowTotal` | src/ui.cpp:4263 | two different folder names are ordered one way or the other |
| `MailTypes.FirstFolder` | src/ui.cpp:4263 | the first folder of a non-empty std::set<std::string> is in the set and below every other folder; it is unique |
| `UiStates.Entered` | src/ui.cpp:3641-3660 | the new trail's state is the state asked for |
| `UiStates.ListReturns` | src/ui.cpp:3641-3660 | opening a list from a screen, then returning to the state the list remembered, gives back that screen and the state before it |
| `UiStates.OrdinaryRemembers` | src/ui.cpp:3641-3660 | an ordinary transition from an ordinary screen remembers the screen it left and nothing else |
| `UiStates.TrailOkKept` | src/ui.cpp:3641-3660 | the remembered last state is never a list state, and every transition keeps it so |
| `UiStates.InitialTrailOk` | src/ui.h:597-599 | the start-up trail (ViewMessageList, ViewMessageList, ComposeMessage) meets that invariant |
| `UiStates.LastStateOrMessageList` | src/ui.cpp:5859-5882 | an empty folder outside search goes to the message list, anything else to the remembered last state, which is never a list state |
| `DisplayKeys.AscendingIsInvertedDescending` | src/ui.cpp:6473-6605 | every ascending mode's key is the matching descending mode's key, bit-inverted, and SortDefault keys as SortDateDesc |
| `DisplayKeys.FilterKeys` | src/ui.cpp:6496-6533 | a filter mode gives a message the date key when it matches the filter and the empty key otherwise; a message without a cached header never matches a header-based filter |
| `DisplayKeys.SortKeysNonEmpty` | src/ui.cpp:6473-6605 | only a filter mode ever gives the empty key, which keeps a message out of the index |
| `DisplayKeys.KeyShape` | src/ui.cpp:6473-6605 | a key is empty or ends with a space, the date and the padded UID; an ascending mode's key is its plain key bit-inverted, and any other mode's key is the plain key |
| `DisplayKeys.LastSpace` | src/ui.cpp:6481-6482 | the space before the padded UID is the key's last space, because the padded UID holds none |
| `DisplayKeys.SameTail` | src/ui.cpp:6481-6482 | two equal keys have the same padded UID after their last space |
| `DisplayKeys.KeyDeterminesUid` | src/ui.cpp:6473-6605 | a non-empty key names its UID: two UIDs never share a key, whatever header, flag and filter state each key was computed in |
| `DisplayKeys.KeyInjective` | src/ui.cpp:6473-6605 | in one state, the non-empty keys of a mode are injective over UIDs |
| `DisplayKeys.UnseenSortsAbove` | src/ui.cpp:6575-6586 | in SortUnseenDesc every unseen message has a larger key than every seen one, so it is listed first; SortUnseenAsc reverses this when bit inversion reverses order |
| `DisplayKeys.AttachmentsSortAbove` | src/ui.cpp:6588-6597 | in SortAttchDesc messages with attachments sort above those without; SortAttchAsc reverses this when inversion reverses order |
| `DisplayKeys.DateOrder` | src/ui.cpp:6486-6494 | in SortDateDesc a message with an earlier date string sorts below one with a later date string, provided the two date strings differ inside both; SortDateAsc reverses this when inversion reverses order |
| `StandardTextFns.Digits` | src/ui.cpp:6482 | the decimal digits of a number, at least one of them |
| `StandardTextFns.PaddedDigits` | src/ui.cpp:6482 | the digits, left-padded with zeros to at least the width |
| `StandardTextFns.ZeroPad` | src/ui.cpp:6482 | Util::ZeroPad(uid, 7) as ASCII bytes: one digit byte per padded digit |
| `StandardTextFns.ValueOfDigits` | src/ui.cpp:6482 | the digits read back give the number |
| `StandardTextFns.LeadingZerosIgnored` | src/ui.cpp:6482 | leading zeros do not change a digit string's value |
| `StandardTextFns.PaddedValue` | src/ui.cpp:6482 | the padded digits read back give the number |
| `StandardTextFns.DigitBytesDistinct` | src/ui.cpp:6482 | no digit byte is a space, and distinct digits have distinct bytes |
| `StandardTextFns.ZeroPadInjective` | src/ui.cpp:6482 | a padded UID holds no space, and different UIDs never pad to the same bytes |
| `StandardTextFns.StandardFnsAssumed` | src/ui.cpp:6473-6605 | the standard choice of key helpers (zero padding and byte complement) meets the assumptions the key proofs make, including that inversion reverses order |
| `DisplayIndex.AboveNotIn` | src/ui.h:382 | a key below every entry of an index is not in its map |
| `DisplayIndex.EntryInMap` | src/ui.h:382 | every entry of a sorted index is what the map holds under that key |
| `DisplayIndex.KeyWitness` | src/ui.h:382 | every key of the map comes from an entry of the index |
| `DisplayIndex.InsertSpec` | src/ui.cpp:6631 | std::map::insert keeps the index sorted, adds the entry only when its key is new, and never replaces an entry |
| `DisplayIndex.ConsSorted` | src/ui.h:382 | an entry in front of a sorted list of entries above it gives a sorted index whose map adds that entry |
| `DisplayIndex.EraseKeysSpec` | src/ui.cpp:6648-6652 | erasing by key keeps the index sorted and leaves exactly the entries under other keys |
| `DisplayIndex.EraseUidsSpec` | src/ui.cpp:6641-6653 | erasing by UID keeps the index sorted and leaves exactly the entries that list other UIDs |
| `DisplayIndex.EraseKeysTwice` | src/ui.cpp:6641-6653 | erasing two key sets one after the other is erasing their union |
| `DisplayIndex.EraseUidsTwice` | src/ui.cpp:6641-6653 | erasing two UID sets one after the other is erasing their union |
| `DisplayIndex.EraseNothing` | src/ui.cpp:6636 | erasing no key or no UID leaves the index as it is |
| `DisplayIndex.KeyFnInjective` | src/ui.cpp:6473-6605 | under the helper assumptions, a folder's key function in one state is injective |
| `DisplayIndex.KeyedUidsContents` | src/ui.cpp:6621-6633 | each UID of a set that gets an entry is filed under its own key, and nothing else is in the map |
| `DisplayIndex.KeyedUidsAdd` | src/ui.cpp:6621-6633 | adding one more UID adds at most its own entry, under a key not yet taken |
| `DisplayIndex.InsertAllSpec` | src/ui.cpp:6621-6633 | inserting a set of UIDs into a sorted index keeps it sorted and adds exactly the set's entries whose keys are not yet taken |
| `DisplayIndex.InsertKeyed` | src/ui.cpp:6621-6633 | the insert loop (used for the rebuild and for the added UIDs) skips UID 0 and empty keys, and gives exactly InsertAll of the set |
| `DisplayIndex.EraseByRecomputedKey` | src/ui.cpp:6641-6653 | the erase loop as written keeps the index sorted and erases exactly the entries under the keys the removed UIDs have now |
| `DisplayIndex.EraseRemovedUids` | src/ui.cpp:6641-6653 | the corrected erase keeps the index sorted and leaves exactly the entries that do not list a removed UID |
| `DisplayIndex.SortedMapUnique` | src/ui.h:382 | two sorted indexes that stand for the same map are the same list, so the sorted list is a faithful picture of the std::map |
| `DisplayIndex.NewestFirst` | src/ui.cpp:5341-5342 | reading the index from the back (std::prev(end, i + 1)) gives one UID per entry |
| `DisplayIndex.NewestFirstListing` | src/ui.cpp:5341-5342 | read newest first, a sorted index lists exactly the map's UIDs, and each only once when the map holds each UID under one key |
| `DisplayIndex.BuiltIndexListing` | src/ui.cpp:6621-6633 | a rebuilt index lists, newest first and once each, exactly the folder's UIDs other than 0 that have a non-empty key, each filed under its own current key |
| `DisplayIndex.FreshEraseAgrees` | src/ui.cpp:6641-6653 | while no key has gone stale, erasing by recomputed key erases exactly the removed UIDs |
| `DisplayIndex.InsertAllFresh` | src/ui.cpp:6662-6670 | the insert loop files every UID under its own current key, so it leaves no stale key behind |
| `DisplayIndex.StaleKeySurvivesErase` | src/ui.cpp:6641-6653 | a message filed in SortUnseenOnly while unseen has the empty key once it is seen, so the erase as written leaves it listed after its removal; the erase by UID drops it |
| `DisplayIndex.PatchListed` | src/ui.cpp:6636-6673 | patching an index that lists only a folder's UIDs leaves one that lists only the patched folder's UIDs, and none that was removed and not added back |
| `DisplayIndex.ListedShown` | src/ui.cpp:6461-6466 | a sorted index that lists only UIDs of a set shows only UIDs of that set, and never UID 0 |
| `SortModes.SortKeyCycle` | src/ui.cpp:6761-6768 | a sort key pressed three times from any mode outside its pair goes to the descending mode, then the ascending one, then back to Default; the ascending mode's key is the descending mode's key bit-inverted |
| `SortModes.FilterKeyTwice` | src/ui.cpp:6712-6716 | a filter key selects its filter exactly when the filter is not on already; pressed twice from Default or from that filter it comes back to where it started, and from any other mode it ends at Default |
| `SortModes.FilterKeepsOwnMessage` | src/ui.cpp:6729-6754 | a custom filter taken from a message keeps that message: it passes the filter and is filed under its date key, so it is listed |
| `Cursor.AsInt32` | src/ui.cpp:5341-5342 | a uint32_t UID stored into an int32_t lies in the int32_t range, and is the UID or the UID minus 2^32 |
| `Cursor.AsUint32` | src/ui.cpp:5380 | an int32_t converted back to uint32_t is itself when non-negative and itself plus 2^32 when negative |
| `Cursor.Int32RoundTrip` | src/ui.cpp:5380 | converting a UID to int32_t and back gives the UID, and no two UIDs share an int32_t value |
| `Cursor.ClampIndex` | src/ui.cpp:5337-5338 | the clamped index is in 0..n-1 for a non-empty list and 0 for an empty one; an index already inside is kept, one past the end becomes n-1 and a negative one becomes 0 |
| `Cursor.UidAt` | src/ui.cpp:5339-5347 | the current UID is the entry at the clamped index of a non-empty list, and -1 for an empty one |
| `Cursor.FirstMatch` | src/ui.cpp:5378-5386 | the position of the first entry whose int32_t value is the current UID; no entry before it matches, and it is the list's length when none does |
| `Cursor.FindIndex` | src/ui.cpp:5378-5386 | the search loop finds a match exactly when one exists, and then stops at the first one |
| `Cursor.PickThenFind` | src/ui.cpp:5298-5402 | in a list that holds each UID once, picking the UID at an index and looking it up again finds the same index and no other |
| `Cursor.FollowsMessage` | src/ui.cpp:5365-5402 | when the list changes and the message at the old index is now at a new one (listed once), the lookup finds only the new index: the cursor follows the message, not the row |
| `Cursor.CDiv` | src/ui.cpp:1303 | C++ integer division truncates toward zero, for negative dividends too |
| `Cursor.WindowHoldsCursor` | src/ui.cpp:1302-1337 | with the cursor in the list and a window at least one row high, the drawn rows lie inside the list and include the cursor's row, and the fetched rows include every drawn row |
| `Cursor.WindowInList` | src/ui.cpp:1302-1337 | whatever the stored cursor, a window of any height lies inside the list, and the fetched rows start where the drawn ones do |
| `Selection.Toggled` | src/ui.cpp:6823-6845 | toggling flips whether that message is selected and no other; no folder is left with an empty set |
| `Selection.ToggleTwice` | src/ui.cpp:6823-6845 | toggling the same message twice gives back the same selection, folder entries included |
| `Selection.SelectHits` | src/ui.cpp:6858-6870 | a message is selected exactly when it is one of the search hits, and no folder entry is empty |
| `Selection.SumSizesAny` | src/ui.cpp:6888-6897 | the total can count any folder first |
| `Selection.SumSizesZero` | src/ui.cpp:6888-6897 | the total is 0 exactly when every folder's set is empty |
| `Selection.SelectedCount` | src/ui.cpp:6888-6897 | the loop's count is the total size of the folders' sets |
| `Selection.Decimal` | src/ui.cpp:6884 | std::to_string of a count is a non-empty string of decimal digits |
| `Selection.DecimalRoundTrip` | src/ui.cpp:6884 | the digits read back give the count, and have no leading zero |
| `SearchResults.MergeKeepsParallel` | src/ui.cpp:4668-4694 | pages kept in step stay in step; a page at offset 0 replaces the results, and a later page extends them without touching what is already listed |
| `SearchResults.PagesAccumulate` | src/ui.cpp:4668-4694 | three pages in a row, the first at offset 0, leave the three pages' hits in order, whatever was listed before |
| `SearchResults.EraseLoop` | src/ui.cpp:5129-5143 | the erase loop as written keeps the two vectors in step |
| `SearchResults.EraseAsWritten` | src/ui.cpp:5129-5143 | the loop with its shrinking resultCount computes EraseLoop from position 0 |
| `SearchResults.AdjacentHitSurvives` | src/ui.cpp:5133-5142 | with two adjacent hits on removed messages, the loop as written leaves the second one listed |
| `SearchResults.KeepUnmatched` | src/ui.cpp:5129-5143 | what should stay: the two vectors in step, no hit on a removed message, every other hit kept, and nothing added |
| `SearchResults.KeepUnmatchedTwice` | src/ui.cpp:5129-5143 | filtering after one removal and then after another is filtering once after both |
| `SearchResults.KeepUnmatchedNothing` | src/ui.cpp:5129-5143 | results that name no removed message are left as they are |
| `SearchResults.KeepUnmatchedErase` | src/ui.cpp:5129-5143 | erasing one hit on a removed message does not change what the filter keeps |
| `SearchResults.EraseSearchHits` | src/ui.cpp:5129-5143 | the corrected loop, which looks at the same position again after an erase, computes KeepUnmatched |
| `ComposeHeader.SlotOf` | src/ui.cpp:6124-6195 | every field the mode shows has a slot below the mode's line count; without the rich header exactly the shown fields have a slot |
| `ComposeHeader.SlotOfInjective` | src/ui.cpp:6124-6195 | two shown fields never share a slot |
| `ComposeHeader.SetComposeStr` | src/ui.cpp:6149-6195 | HeaderAll fills every line's slot with the text given and nothing else; a field the mode does not keep leaves the slots unchanged |
| `ComposeHeader.SetThenGet` | src/ui.cpp:6124-6195 | writing a shown field and then reading a shown field gives the text written for that field and the old text for any other field |
| `ComposeHeader.SetAllThenGet` | src/ui.cpp:6149-6195 | after HeaderAll every shown field reads as the text given |
| `ComposeHeader.LinesAreSlots` | src/ui.cpp:6224-6262 | header line i edits slot i: every line in range shows a field kept in the slot of the same number, a line out of range is HeaderAll, and every shown field is on exactly one line |
| `ComposeHeader.WriteFieldsReads` | src/ui.cpp:7272-7278 | after the rich-header key's writes every shown field reads as written, and From as the default sender |
| `ComposeHeader.ToggledRichHeader` | src/ui.cpp:7263-7279 | the rich-header key flips the mode |
| `ComposeHeader.ToggleRichKeepsFields` | src/ui.cpp:7263-7279 | switching the rich header keeps To, Cc, Att and Sub; switching it on shows the default sender and the kept Bcc (none, since the plain mode keeps no Bcc); switching it off drops From and Bcc |
| `ComposeHeader.DraftBccLost` | src/ui.cpp:3761-3771 | as written, a draft with a Bcc opened without the rich header leaves the rich header off, and the Bcc stays lost even after the user switches the rich header on |
| `ComposeHeader.LoadDraftKeepsFields` | src/ui.cpp:3761-3771 | the corrected draft load turns the rich header on exactly when it was on or the draft has a Bcc, and every field that mode shows reads as the draft's, with no attachments |
| `KeyHandling.InsertAt` | src/ui.cpp:7173-7185 | std::wstring::insert(pos, 1, c) puts c at pos and keeps the text around it |
| `KeyHandling.EraseAt` | src/ui.cpp:7109-7171 | std::wstring::erase(pos, 1) removes the character at pos and keeps the text around it |
| `KeyHandling.EraseUndoesInsert` | src/ui.cpp:7109-7185 | erasing the character just inserted gives back the text |
| `KeyHandling.TextKeysAreNotEdits` | src/ui.cpp:4890-4893 | a printable key below 256, other than DEL and the configured keys, is never a line-editing key |
| `KeyHandling.HandleLineKey` | src/ui.cpp:7109-7171 | the key is handled exactly when it is a line key; left and right move the cursor within the line; backspace and delete erase around the cursor when there is a character there; the configured word and line keys give what the Util helper gives; any other key changes nothing |
| `KeyHandling.HandleTextKey` | src/ui.cpp:7173-7185 | a key is handled exactly when it is a valid text key; it is then inserted at the cursor, which moves past it; otherwise nothing changes |
| `KeyHandling.TypeThenBackspace` | src/ui.cpp:7109-7185 | backspace is always the erase-before key, whatever keys are configured, so typing a character and pressing backspace gives back the line |
| `KeyHandling.HandleDocKey` | src/ui.cpp:7187-7203 | Home and End, and only they, are handled; Home goes to the start and End to the end of the text |
| `KeyHandling.HandleListKey` | src/ui.cpp:7075-7107 | the key is handled exactly when it is a list key, and the new index is what that key gives; any other key keeps the index |
| `KeyHandling.ListKeysLandInList` | src/ui.cpp:7075-7107 | once clamped to a list of n messages, Home selects the first row and End the last, unless a page key is bound to them, and the arrows never leave the list |
| `KeyHandling.KeyDisplay` | src/ui.cpp:4746-4782 | a key's name is one to three bytes long |
| `KeyHandling.ControlKeyDisplay` | src/ui.cpp:4746-4782 | a control key is shown as '^' followed by how its letter is shown |
| `KeyHandling.PrintableKeyDisplay` | src/ui.cpp:4746-4782 | a printable key other than ',', '.' and the lower-case letters is shown as itself |
| `KeyHandling.TruncateWithEllipsis` | src/ui.cpp:7758-7764 | a text that fits is kept; a longer one is cut to maxLength - 3 and "..." is appended; for a limit below 3 the whole text is kept and "..." is appended |
| `Fetch.Claim` | src/ui.cpp:4146-4170 | the UIDs queued are exactly the candidates that are neither excluded nor already marked, and the new marks are the old marks plus the queued UIDs |
| `Fetch.ClaimOnce` | src/ui.cpp:1799-1830 | nothing queued was excluded or marked before; every candidate that was neither is queued; claiming the same candidates again with the new marks queues nothing |
| `Fetch.CoveredByClaim` | src/ui.cpp:4146-4170 | after a claim every candidate is excluded, or was marked before, or is marked now |
| `Fetch.ClaimSet` | src/ui.cpp:4307-4332 | over a set of candidates, the queued UIDs are the candidates minus the excluded and marked ones, and the marks grow by exactly those |
| `Fetch.RowBodiesClaims` | src/ui.cpp:1450-1486 | no body queued from the drawn rows was cached or already requested, none is prefetched twice, and prefetched bodies appear only at the prefetch level that allows them |
| `Fetch.RowBodiesKinds` | src/ui.cpp:1450-1486 | each queued body belongs to a drawn row of the kind (current, neighbour, other) its request set is for |
| `Fetch.ClaimRowBodies` | src/ui.cpp:1450-1486 | the row loop returns the three request sets RowBodies describes and adds the primary and secondary ones to the requested set and the prefetch set to the prefetched set |
| `Fetch.Emit` | src/ui.cpp:4212-4253 | sending one more batch that is non-empty, at most max and above all earlier full batches keeps the batching shape and adds exactly its UIDs to the union |
| `Fetch.Gather` | src/ui.cpp:4212-4253 | moving the smallest remaining UID into the open batch, and sending the batch when it is full or nothing is left, keeps the loop invariant |
| `Fetch.GatherEmit` | src/ui.cpp:4212-4253 | a full (or final) open batch, once sent, leaves the loop invariant holding with an empty open batch |
| `Fetch.GatherKeep` | src/ui.cpp:4212-4253 | an open batch below max with UIDs still left is kept open and the loop invariant holds |
| `Fetch.Batches` | src/ui.cpp:1532-1554 | the batches hold exactly the queued UIDs, each holds between 1 and max, all but the last hold max, they are in ascending order, there are none only when nothing is queued, and they are the ones Batching determines |
| `Fetch.Lowest` | src/ui.cpp:4212-4253 | the result is a subset of s of size min(n, |s|) lying below the rest of s |
| `Fetch.AddMin` | src/ui.cpp:4212-4253 | the smallest UID of s added to the smallest UIDs of the rest is again a lowest part of s, one larger |
| `Fetch.LowestUnique` | src/ui.cpp:4212-4253 | any subset of s of size min(n, |s|) below the rest of s is Lowest(s, n) |
| `Fetch.BatchingShape` | src/ui.cpp:4335-4408 | Batching gives ascending non-empty batches of at most max, all full but the last, whose union is s, and none only for the empty set |
| `Fetch.BatchingUnique` | src/ui.cpp:1556-1578 | any batching of s with that shape equals Batching(s, max): the batches sent are determined by the queued set and max |
| `HtmlText.Find` | src/html_parser.cpp:110 | std::string::find: a result is the first occurrence of the pattern at or after from; no result means the pattern occurs nowhere at or after from |
| `HtmlText.ToLower` | src/html_parser.cpp:552-557 | the result has the input's length and holds each byte lower-cased |
| `HtmlText.ToLowerProperties` | src/html_parser.cpp:552-557 | no upper-case letter is left, every other byte is unchanged, and lower-casing twice equals lower-casing once |
| `HtmlText.FirstNotSpace` | src/html_parser.cpp:543 | the position of the first byte that is not space, tab, newline or carriage return, or the length when there is none |
| `HtmlText.LastNotSpace` | src/html_parser.cpp:548 | the position of the last byte that is not white space, or -1 when there is none |
| `HtmlText.Trim` | src/html_parser.cpp:541-550 | the result is empty exactly when the text is all white space; otherwise it starts and ends with a non-space byte and is the text between the leading and trailing white space |
| `HtmlText.TrimIdempotent` | src/html_parser.cpp:541-550 | trimming a trimmed text changes nothing |
| `HtmlText.FirstOf` | src/html_parser.cpp:164-165 | the position of the first occurrence of a byte, or the length when it does not occur |
| `HtmlText.ExtractTagName` | src/html_parser.cpp:162-173 | the name is the lower-cased part of the tag before its first space or '/', and the byte after it (if any) is a space or '/' |
| `HtmlText.TagNameIgnoresCase` | src/html_parser.cpp:162-173 | a tag written in any case gives the same name |
| `HtmlText.ClosingTagNameEmpty` | src/html_parser.cpp:162-173 | a closing tag "/name" has the empty name |
| `HtmlText.StylesExclusive` | src/html_parser.cpp:526-539 | no tag name is in two of the bold, italic and underline tables, and the bold style of a tag does not depend on its case |
| `HtmlText.ParseElement` | src/html_parser.cpp:101-144 | away from a '<' nothing is read; with no '>' the position jumps to the end; the undefined `back()` of an empty tag string happens exactly for "<>"; otherwise the tag is ExtractTagName of the text between '<' and the first '>', a self-closing or void element has no content and ends just past that '>', and any other element's content is the text up to the first closing tag for it, the position past that tag (or the rest of the text and its end) |
| `HtmlText.ReadContent` | src/html_parser.cpp:129-141 | the content is html from the start up to the first closing tag for the element and the position is just past that tag; with no closing tag, the content is the rest of the text and the position its end |
| `HtmlText.ContentUpToCloseUnique` | src/html_parser.cpp:129-141 | the content and the position after it are determined by the text, the tag and the start |
| `HtmlText.Tokenize` | src/html_parser.cpp:77-96 | the parse loop ends; it yields at most one token per byte, every text run is non-empty and holds no '<', and it fails only for a document containing "<>" |
| `HtmlRewrite.ReplaceAll` | src/html_parser.cpp:283-287 | the find/replace loop gives Replaced: every non-overlapping occurrence, from the left, replaced, and replacements never searched again |
| `HtmlRewrite.ReplacedNone` | src/html_parser.cpp:285 | when nothing is found from pos, the text before pos plus the replaced rest is the text |
| `HtmlRewrite.ReplaceStep` | src/html_parser.cpp:285-287 | one replacement and the step past it keep the loop invariant: the text before the position is final, the rest still to be replaced |
| `HtmlRewrite.ReplaceNothing` | src/html_parser.cpp:283-287 | a text the pattern does not occur in is unchanged |
| `HtmlRewrite.ReplaceBySelf` | src/html_parser.cpp:283-287 | replacing a pattern by itself changes nothing |
| `HtmlRewrite.ReplacedChars` | src/html_parser.cpp:283-287 | every byte of the result comes from the text or from the replacement |
| `HtmlRewrite.ApplyTable` | src/html_parser.cpp:281-288 | the loop over a table applies ApplyFrom: each entry's replacement in key order, on the previous entry's output |
| `HtmlRewrite.SkipEntry` | src/html_parser.cpp:281-288 | an entry whose pattern does not occur leaves the text to the next entry unchanged |
| `HtmlRewrite.NoPatternStart` | src/html_parser.cpp:281-288 | a text containing no first byte of any pattern passes every entry unchanged |
| `HtmlRewrite.NoLeadChar` | src/html_parser.cpp:323-329 | a text with none of the patterns' lead bytes passes the whole table unchanged |
| `HtmlRewrite.OneLeadChar` | src/html_parser.cpp:281-288 | when all patterns start with one byte, a text without it passes the whole table unchanged |
| `HtmlRewrite.EntityTable` | src/html_parser.cpp:12-18 | every entity pattern starts with '&', ends with ';' and has at least 4 bytes, and all but "&gt;" and "&lt;" have at least 5 |
| `HtmlRewrite.EmojiTable` | src/html_parser.cpp:20-25 | every emoticon pattern is non-empty and starts with ':', ';' or '<' |
| `HtmlRewrite.ConvertNamedEntities` | src/html_parser.cpp:279-289 | the entity loop applies the entity table in key order |
| `HtmlRewrite.ConvertEmojis` | src/html_parser.cpp:319-332 | the emoticon loop applies the emoticon table in key order, and a text with no ':', ';' or '<' comes back unchanged |
| `HtmlRewrite.NoAmpersandUnchanged` | src/html_parser.cpp:279-289 | a text without '&' passes the entity loop unchanged |
| `HtmlRewrite.Escape` | src/html_parser.cpp:12 | every byte that is not '&' survives escaping |
| `HtmlRewrite.DecodeEscape` | src/html_parser.cpp:12-18 | decoding entities once, left to right, undoes escaping for every text |
| `HtmlRewrite.EscapedLessThan` | src/html_parser.cpp:13 | the text "&lt;" escapes to "&amp;lt;" |
| `HtmlRewrite.EntityDecodedTwice` | src/html_parser.cpp:279-289 | the loop as written turns "&amp;lt;" into "<", where decoding once gives "&lt;" |
| `HtmlLayout.WordEnd` | src/html_parser.cpp:344 | the first word of a text ends at the first white space, or at the end |
| `HtmlLayout.Words` | src/html_parser.cpp:344 | the words read are non-empty and hold no white space |
| `HtmlLayout.JoinWords` | src/html_parser.cpp:344 | reading back words joined by single spaces gives the same words |
| `HtmlLayout.WrapText` | src/html_parser.cpp:334-361 | with maxWidth at most indent the text comes back unchanged; otherwise the result is the rendering of the greedy fill of the words read |
| `HtmlLayout.LineIsIndent` | src/html_parser.cpp:356-358 | a line equals the bare indent exactly when it holds no word |
| `HtmlLayout.FillKeepsWords` | src/html_parser.cpp:344-354 | the lines, read in order, hold exactly the words read: none lost, split or reordered |
| `HtmlLayout.FillFits` | src/html_parser.cpp:345-347 | every line fits in maxWidth unless it is a single word too long for any line, and only the first line can be empty |
| `HtmlLayout.FillGreedy` | src/html_parser.cpp:344-354 | no closed line had room for the first word of the next line |
| `HtmlLayout.FillFirstWord` | src/html_parser.cpp:346-347 | once a line has been closed, the line being filled holds a word |
| `HtmlLayout.FormatTableRow` | src/html_parser.cpp:459-475 | the row fails exactly when some cell is longer than a column narrower than 3; otherwise each of the first min(cells, widths) columns is a space, the cell padded to the width (or cut to width - 3 bytes and "..."), a space and a bar |
| `MailUi.BatchRequest` | src/ui.cpp:1543-1549 | a batch request is for the folder at the level, asks for no folders and no UIDs, and asks for the batch in exactly the field of its kind |
| `MailUi.BatchRequests` | src/ui.cpp:1532-1554 | one request per batch, in batch order, each the request for that batch |
| `MailUi.ResponseErrorMessage` | src/ui.cpp:4412-4438 | no warning exactly when no failure bit is set; otherwise the warning of the first failed part, folders first and then bodies |
| `MailUi.WithSeenSpec` | src/ui.cpp:5258-5265 | each message set reads as seen or unseen as asked with its other flag bits kept, every other message keeps its flags, and doing it twice is doing it once |
| `MailUi.WindowRows` | src/ui.cpp:1299-1337 | at most a screen of rows is drawn and at most two screens are fetched, the drawn rows are among the fetched ones, all are list rows, and the cursor's row is among both when the cursor is in the list |
| `MailUi.ViewNeighbours` | src/ui.cpp:2032-2056 | the neighbours are empty only for an empty list, are list rows, and are the rows before and after the cursor, clamped at either end |
| `MailUi.SendListRequests` | src/ui.cpp:1490-1578 | the requests are ListRequests (UIDs once, one per primary and secondary body, headers in batches of 25, flags in batches of 1000) and the prefetch requests are the prefetched bodies one at a time at level CurrentView |
| `MailUi.FetchList` | src/ui.cpp:1263-1578 | the claims and requests of the message list are those ListFetch describes |
| `MailUi.ListFetchCovers` | src/ui.cpp:1299-1486 | after the claims every header and flag of the fetch rows is cached or asked for, so a second draw asks for none, and every drawn row whose body the prefetch level wants is cached, asked for or prefetched |
| `MailUi.ViewWanted` | src/ui.cpp:1799-1830 | the message view asks only for the viewed message's header and body and the neighbours' bodies, and never for what is cached or already asked for |
| `MailUi.ViewFetchOnce` | src/ui.cpp:1799-2056 | after the claims the viewed message's header and body and the wanted neighbours' bodies are cached or asked for, so drawing it again asks for nothing |
| `MailUi.RequestIfAny` | src/ui.cpp:2060-2087 | at most one request per kind, none exactly when nothing of that kind is wanted, asking for exactly what is wanted |
| `MailUi.SendQueued` | src/ui.cpp:6369-6387 | one send of a created message per queued outbox message, in order, with the recipients read from that message |
| `MailUi.UploadQueued` | src/ui.cpp:6355-6367 | one upload to the drafts folder per queued draft, in order |
| `MailUi.QueueSends` | src/ui.cpp:6369-6387 | the outbox loop produces exactly SendQueued |
| `MailUi.QueueUploads` | src/ui.cpp:6355-6367 | the draft loop produces exactly UploadQueued |
| `MailUi.PatchedSpec` | src/ui.cpp:6608-6675 | the patched index is sorted and holds the added UIDs' entries with those of the starting index (rebuilt when stale) that do not list a removed UID; when the start listed the folder's UIDs, the result lists the folder's UIDs minus the removed plus the added |
| `MailUi.PatchIndex` | src/ui.cpp:6620-6674 | the index work of UpdateDisplayUids yields Patched: the source's rebuild and insert loop, with the corrected erase (EraseRemovedUids) in place of the loop at src/ui.cpp:6641-6653 |
| `MailUi.PatchedAgreesWhenFresh` | src/ui.cpp:6620-6674 | the patch with the erase as written (PatchedAsWritten) equals Patched whenever the index was just rebuilt or none of its keys has gone stale |
| `MailUi.IndexesPatched` | src/ui.cpp:6620-6634 | replacing one folder's shown index by a sorted one listing the folder's new UIDs, with the version raised (or kept when the UIDs did not change), keeps every index in agreement with its folder's UIDs and leaves every folder showing an up-to-date mode |
| `MailUi.PatchedVersions` | src/ui.cpp:6620-6634 | after raising one folder's version to its index's version no index is newer than its folder's UIDs |
| `MailUi.PatchedListed` | src/ui.h:382-385 | after the patch every up-to-date index lists exactly its folder's UIDs |
| `MailUi.IndexOk` | src/ui.h:382-385 | under the display invariant every index is sorted, and an up-to-date one lists exactly the folder's UIDs |
| `MailUi.PatchedDisplayOk` | src/ui.cpp:6608-6675 | patching keeps the display invariant, and afterwards every folder shows an up-to-date mode when only the patched folder's shown mode was stale before |
| `MailUi.PatchedDisplayUids` | src/ui.cpp:6636-6674 | patching changes only the patched folder's UIDs, to the old ones minus the removed plus the added |
| `MailUi.PatchFolder` | src/ui.cpp:6608-6675 | the display work of UpdateDisplayUids yields PatchedDisplay |
| `MailUi.BatchRequestsAsk` | src/ui.cpp:4335-4408 | the requests of a batching ask together for the union of the batches and for nothing of another kind |
| `MailUi.BatchedRequestsSpec` | src/ui.cpp:4212-4253 | the batched requests ask, one ascending batch of at most max each, for exactly the UIDs of their kind, for nothing of another kind, and there are none exactly when there is nothing to ask for |
| `MailUi.BatchesSent` | src/ui.cpp:1532-1578 | one request per batch of a batching sends the union of the batches in batches |
| `MailUi.BatchesAsked` | src/ui.cpp:1532-1578 | request i asks for batch i |
| `MailUi.SendBatches` | src/ui.cpp:4212-4253 | the batching loop sends BatchedRequests |
| `MailUi.InsertMissing` | src/ui.cpp:4181 | std::map::insert: the keys are those of both maps, a key already present keeps its value and a new key takes the inserted value (the flags merge inserts the old flags into the received ones, so fetched flags win) |
| `MailUi.UidsRequest` | src/ui.cpp:1265-1273 | a UIDs request asks for the folder's UIDs at the level and for nothing else |
| `MailUi.PrefetchKind` | src/ui.cpp:4307-4332 | the UIDs that are neither cached, asked for nor prefetched are marked as prefetched and asked for at the full-sync level in ascending batches of max |
| `MailUi.FolderUidsMarkedSpec` | src/ui.cpp:4259-4281 | after the folders loop a folder is marked exactly when it was marked before or was listed in the response |
| `MailUi.FolderUidsRequestsShape` | src/ui.cpp:4272-4278 | every request of the folders loop is a full-sync UIDs request |
| `MailUi.FolderUidsRequestsSent` | src/ui.cpp:4259-4281 | the folders loop asks for the UIDs of exactly the listed folders not yet marked |
| `MailUi.FolderUidsRequestsAscending` | src/ui.cpp:4264-4281 | the folders loop asks in strictly ascending folder order, so at most once per folder |
| `MailUi.RequestFolderUids` | src/ui.cpp:4259-4281 | the loop sends FolderUidsRequests and leaves the marks FolderUidsMarked |
| `MailUi.UidsPatchedSpec` | src/ui.cpp:4114-4172 | the UIDs merge keeps the display indexes consistent; the folder then lists its old UIDs minus those gone, plus the new ones unless all headers are prefetched; other folders are untouched |
| `MailUi.MergedUidsClaims` | src/ui.cpp:4146-4170 | when all headers are prefetched the UIDs merge asks for the new UIDs' headers and all UIDs' flags that are neither cached nor asked for, and these join the asked-for sets; otherwise it asks for nothing |
| `MailUi.MergedUidsSpec` | src/ui.cpp:4114-4172 | the UIDs merge keeps the display consistent, lists the folder's old UIDs minus those gone plus (unless all headers are prefetched) the new ones, leaves other folders alone, never asks for what is cached or asked for, and when all headers are prefetched leaves every new header and every flag cached or asked for |
| `MailUi.PickUid` | src/ui.cpp:5334-5359 | the cursor index is clamped into the list and names the UID there (or -1 for an empty list), marked as the user's only when the user moved it; no other folder's cursor changes, and the toggled-seen mark survives only on the same message |
| `MailUi.Refind` | src/ui.cpp:5365-5402 | a cursor the user placed whose UID is still listed moves to the first row holding it and keeps UID and marks; otherwise the UID at the clamped index is picked, as not the user's |
| `MailUi.PickThenRefind` | src/ui.cpp:5365-5402 | on an unchanged list without duplicates, finding a user-placed cursor again leaves it where it was picked |
| `MailUi.RefindFollows` | src/ui.cpp:5365-5402 | when the list changes and the cursor's message is still listed once, the cursor moves to its new row and keeps its UID |
| `MailUi.CursorListed` | src/ui.cpp:5341-5354 | under the display invariant a cursor on a non-empty shown list names a message of the folder |
| `MailUi.ShownListed` | src/ui.cpp:6461-6466 | under the display invariant the list a folder shows holds only the folder's UIDs, and never UID 0 |
| `MailUi.SearchPick` | src/ui.cpp:5300-5331 | the index is clamped into the results and the current folder and UID become the hit there; when the server has more and the cursor is within a screen of the end the next page is asked for once, and otherwise the search state is unchanged |
| `MailUi.KeyInInjective` | src/ui.cpp:6473-6605 | when the text helpers behave as assumed, every folder's key function in its mode is injective |
| `MailUi.TakeUids` | src/ui.cpp:4114-4172 | the UIDs part of the response handler, step by step, yields UidsTaken |
| `MailUi.TakeHeaders` | src/ui.cpp:4174-4189 | the headers part, step by step, yields HeadersTaken |
| `MailUi.MergeSteps` | src/ui.cpp:4101-4255 | the handler below the full-sync level, step by step, yields MergedResponse |
| `MailUi.PrefetchUids` | src/ui.cpp:4283-4408 | the full-sync UIDs part, step by step, yields UidsPrefetched |
| `MailUi.FullSyncSteps` | src/ui.cpp:4257-4410 | the handler at the full-sync level, step by step, yields FullSynced |
| `MailUi.HandleSteps` | src/ui.cpp:4093-4410 | the cache and request work of the handler yields Handle |
| `MailUi.UidsTakenConsistent` | src/ui.cpp:4114-4144 | the UIDs part keeps the display indexes consistent; the folder lists none of the UIDs gone and, unless all headers are prefetched, every new one; other folders are untouched |
| `MailUi.UidsTakenCache` | src/ui.cpp:4128-4136 | the UIDs part stores the folder's UIDs as received and drops the cached headers of the UIDs gone; nothing else in the cache changes |
| `MailUi.UidsTakenAsks` | src/ui.cpp:4146-4253 | when all headers are prefetched the UIDs part asks, in ascending batches of 25 and 1000, for exactly the new headers and the flags that were neither cached nor asked for, and marks them as asked for |
| `MailUi.HeadersTakenConsistent` | src/ui.cpp:4174-4189 | the headers part keeps the display indexes consistent, and received headers join the folder's list when all headers are prefetched |
| `MailUi.HandleConsistent` | src/ui.cpp:4093-4410 | handling any response keeps the display indexes consistent with the folders' UIDs |
| `MailUi.MergedResponseConsistent` | src/ui.cpp:4101-4255 | taking a response in below the full-sync level keeps the display indexes consistent |
| `MailUi.MergedResponseDisplay` | src/ui.cpp:4191-4209 | only the folders, UIDs and headers parts touch the display indexes |
| `MailUi.FlagsAndBodysDisplay` | src/ui.cpp:4191-4209 | taking in flags and bodies leaves the display indexes as they were |
| `MailUi.ThroughHeadersConsistent` | src/ui.cpp:4101-4189 | the folders, UIDs and headers parts keep the display indexes consistent |
| `MailUi.FullSyncedCache` | src/ui.cpp:4257-4410 | at the full-sync level nothing is cached, the display is untouched, no ordinary request goes out, and neither a redraw nor a cursor update is asked for |
| `MailUi.Pick` | src/ui.cpp:5298-5363 | UpdateUidFromIndex keeps the search mode, results and hit list; outside search mode it places the cursor on the list and sends no query |
| `MailUi.Refocus` | src/ui.cpp:5365-5402 | UpdateIndexFromUid leaves the cursor alone in search mode and otherwise places it on the list |
| `MailUi.RemovedNotShown` | src/ui.cpp:6636-6656 | after removing UIDs with the corrected erase the folder shows none of them and every other folder shows what it showed |
| `MailUi.PrePicked` | src/ui.cpp:6677-6683 | without persisted selection nothing changes; with it, outside search mode, the cursor is placed on the list as the user's |
| `MailUi.Resorted` | src/ui.cpp:6677-6701 | a sort or filter change keeps the search state, and outside search mode leaves the cursor on the new list with other folders' cursors unchanged |
| `MailUi.Settled` | src/ui.cpp:6685-6701 | outside search mode the cursor lands on the new list with other folders unchanged; with persisted selection it is Refocus |
| `MailUi.ResortFollowsMessage` | src/ui.cpp:6677-6701 | with persisted selection, when the message under the cursor is still listed once, the cursor moves to its new row and keeps its UID |
| `MailUi.ResortGoesToTop` | src/ui.cpp:6697-6701 | without persisted selection the cursor goes to the first row of the new list, as the user's choice |
| `MailUi.ModeSwitched` | src/ui.cpp:6756-6758 | switching one folder's mode keeps the indexes in agreement, and only that folder's shown mode may be stale |
| `MailUi.ClearedIndex` | src/ui.cpp:6729-6734 | the cleared mode's index is empty at version 0 and every other index and version is unchanged |
| `MailUi.ClearedIndexOk` | src/ui.cpp:6729-6734 | clearing an index keeps the display invariant, and for a folder that ever had UIDs it makes the index stale so that it is rebuilt before it is shown |
| `MailUi.ReshownIsPatched` | src/ui.cpp:6687-6690 | re-showing a mode is patching with nothing removed or added |
| `MailUi.RebuiltShows` | src/ui.cpp:6620-6634 | a stale index is rebuilt when shown: it then lists, once each, exactly the folder's UIDs whose key in that mode is not empty |
| `MailUi.Ui.constructor` | src/ui.h:370-398 | the initial state: the inbox "INBOX" is shown, the cursor names no message, nothing is cached, asked for, shown or selected, and the display invariant holds |
| `MailUi.Ui.UpdateDisplayUids` | src/ui.cpp:6608-6675 | the display becomes PatchedDisplay (rebuilt when stale, removed UIDs dropped, added ones keyed in) and the class invariant holds again |
| `MailUi.Ui.UpdateUidFromIndex` | src/ui.cpp:5298-5363 | the cursor and search state become what Pick says and its page queries are appended to the log; the invariant is kept |
| `MailUi.Ui.UpdateIndexFromUid` | src/ui.cpp:5365-5402 | the cursor becomes Refocus on the shown list; search state and calls are unchanged |
| `MailUi.Ui.TakeResponse` | src/ui.cpp:4093-4410 | cache, display and asked-for sets become Handle's, its requests and prefetch requests are appended, and the invariant holds |
| `MailUi.Ui.ResponseHandler` | src/ui.cpp:4093-4446 | as TakeResponse, then the warning for a failure is shown, the cursor is found again when UIDs or headers changed, and one wake-up byte asking for a redraw (or not) is written to the pipe |
| `MailUi.Ui.DropMessages` | src/ui.cpp:5119-5145 | the messages leave the folder's display index, UIDs and headers, search hits naming them are erased in search mode, the cursor is found again, and the folder shows none of them |
| `MailUi.Ui.ForgetMessages` | src/ui.cpp:5119-5127 | the messages leave the folder's display index, UIDs and headers, and the folder shows none of them |
| `MailUi.Ui.EraseHits` | src/ui.cpp:5129-5143 | with the corrected loop (EraseSearchHits), in search mode exactly the hits naming the messages are erased, both result vectors in step; outside search mode nothing changes |
| `MailUi.Ui.MoveMessages` | src/ui.cpp:5107-5146 | one move action is logged, the messages are dropped locally, and the UIDs of both folders are to be asked for again |
| `MailUi.Ui.DeleteMessages` | src/ui.cpp:5168-5202 | one delete action is logged, the messages are dropped locally, and the folder's UIDs are to be asked for again |
| `MailUi.Ui.SetSeen` | src/ui.cpp:5250-5266 | one seen or unseen action is logged and the cached flags become WithSeen |
| `MailUi.Ui.MarkSeen` | src/ui.cpp:5268-5296 | a message whose cached flags already say seen is left alone; otherwise one seen action is logged and its cached flags read as seen |
| `MailUi.Ui.InvalidateUiCache` | src/ui.cpp:5577-5583 | the folder's UIDs are to be asked for again and its cached flags and asked-for flags are cleared; nothing else changes |
| `MailUi.Ui.SearchHandler` | src/ui.cpp:4668-4694 | a page at offset 0 replaces the results and a later one is appended, the has-more mark is taken from the page, the cursor is placed on the results and a redraw is asked for |
| `MailUi.Ui.ClearSelection` | src/ui.cpp:6817-6821 | nothing is selected and the select-all mark is off |
| `MailUi.Ui.SearchMessage` | src/ui.cpp:6007-6058 | a non-empty query turns search mode on in the search list, remembering the folder left, with the cursor at the top and two screens of results asked for; an empty query turns it off, goes back to the folder left and finds the cursor again; either way the selection is cleared |
| `MailUi.Ui.StartSearch` | src/ui.cpp:6014-6044 | search mode on with empty results, the folder left remembered, the cursor at the top and one query for two screens logged |
| `MailUi.Ui.EndSearch` | src/ui.cpp:6045-6056 | search mode off, back in the folder left, the cursor found again, no query logged |
| `MailUi.Ui.LeaveSearch` | src/ui.cpp:6045-6053 | search mode off, no selection, back in the folder left |
| `MailUi.Ui.SortFilterPreUpdate` | src/ui.cpp:6677-6683 | the cursor and search state become PrePicked |
| `MailUi.Ui.SortFilterUpdated` | src/ui.cpp:6685-6701 | the shown index is brought up to date (Reshown) and the cursor settles on it as Settled says |
| `MailUi.Ui.Reshow` | src/ui.cpp:6687-6690 | the display becomes Reshown and the invariant holds |
| `MailUi.Ui.Settle` | src/ui.cpp:6692-6700 | the cursor and search state become Settled on the list now shown |
| `MailUi.Ui.SwitchMode` | src/ui.cpp:6761-6768 | the folder's mode becomes m, its index is brought up to date, and the cursor moves as Resorted says |
| `MailUi.Ui.ToggleSort` | src/ui.cpp:6761-6768 | the folder's mode moves along ToggledSort (first, second, default), is shown, and the cursor moves as Resorted says |
| `MailUi.Ui.DisableSortFilter` | src/ui.cpp:6703-6710 | the folder's mode becomes the default, is shown, and the cursor moves as Resorted says |
| `MailUi.Ui.SetDialogMessage` | src/ui.cpp:698-715 | the dialog line shows the message |
| `MailUi.Ui.ToggleFilter` | src/ui.cpp:6712-6759 | after SortFilterPreUpdate, the filter is switched on (off when already on); a custom filter without a cached header for its message only warns; otherwise the custom string is taken, the filter's index cleared and the mode shown |
| `MailUi.Ui.FilterOrWarn` | src/ui.cpp:6718-6758 | the filter is applied, or the warning shown when a custom filter has no message |
| `MailUi.Ui.WarnNoFilterMessage` | src/ui.cpp:6718-6727 | only the dialog changes, to the warning |
| `MailUi.Ui.ApplyFilter` | src/ui.cpp:6729-6758 | the filter is applied as FilterApplied describes, with the dialog unchanged |
| `MailUi.Ui.ShowFilter` | src/ui.cpp:6729-6758 | the mode is set; a custom filter takes its string from the message under the cursor and has its index cleared; the index is brought up to date and the cursor settles |
| `MailUi.Ui.TakeCustomFilter` | src/ui.cpp:6729-6754 | the custom string comes from the cached header of the message under the cursor and the filter's index is cleared |
| `MailUi.Ui.ShowMode` | src/ui.cpp:6756-6758 | the mode is set, its index brought up to date, and the cursor settles |
| `MailUi.Ui.ToggleSelected` | src/ui.cpp:6823-6845 | the message under the cursor flips between selected and not, and the dialog says which way |
| `MailUi.Ui.ToggleSelectAll` | src/ui.cpp:6847-6886 | the select-all mark flips; when it was on the selection is cleared, otherwise every search hit (in search mode) or every shown message is selected and the dialog gives the count |
| `MailUi.Ui.SearchHitSelection` | src/ui.cpp:6858-6870 | the selection is SelectHits of the hit list and the count is the number of hits |
| `MailUi.Ui.ShownSelection` | src/ui.cpp:6871-6882 | the selection is the set of shown UIDs and the count the length of the shown list |
| `MailUi.Ui.SetState` | src/ui.cpp:3641-3707 | the state trail becomes Entered; entering the message list (other than back from an address or file list) forgets the toggled-seen mark |
| `MailUi.Ui.AsyncUiRequest` | src/ui.cpp:2292-2295 | exactly one request byte is appended to the wake-up pipe |
| `MailUi.Ui.HandleConnected` | src/ui.cpp:6351-6389 | offline nothing changes; connected, every queued draft is uploaded to the drafts folder and every queued outbox message sent, in order, both queues are emptied, and the dialog says what is being sent |
| `MailUi.Ui.UploadDrafts` | src/ui.cpp:6355-6367 | the drafts are uploaded in order, the queue is emptied, and the drafts folder's UIDs are to be asked for again when there was a draft |
| `MailUi.Ui.SendOutbox` | src/ui.cpp:6369-6387 | the outbox messages are sent as created, in order, and the outbox is emptied |
| `MailUi.Ui.SendComposedMessage` | src/ui.cpp:4938-4973 | connected, one send of the header fields read from the compose slots is logged; offline, a created message is queued with "Message queued for sending", and a failed creation says "Message creation failed" |
| `MailUi.Ui.FetchMessageList` | src/ui.cpp:1263-1578 | the asked-for sets and calls become those ListFetch describes for the shown list at the cursor |
| `MailUi.Ui.FetchMessageView` | src/ui.cpp:1799-2092 | the view's claims and requests are ViewWanted's; the message is marked seen exactly when its flags are cached unseen, its body is cached and it was not toggled |
| `MailUi.Ui.ClaimView` | src/ui.cpp:1799-2087 | the asked-for sets grow by ViewWanted and one request per non-empty kind is logged |
| `MailUi.Ui.ClaimNeighbours` | src/ui.cpp:2032-2056 | below level CurrentView nothing; otherwise the neighbours of the list cursor whose bodies are neither cached nor asked for |

## Left out

- Drawing: every ncurses call of `Draw*`, `Init*`, `Cleanup*`, the colour set-up and the status lines is terminal output; the draw functions are modelled only for the fetch requests they make and the cursor and window rows they compute.
- `Ui::Run`, `ReadKeyBlocking`, `PromptString` and `PromptYesNo` are blocking I/O; the model keeps the fold of the bytes one wake-up reads (`WakeUp.ReadRequests`) and the dispatch on its bits, and `SearchMessage` takes the query the prompt would return (a cancelled prompt, which changes nothing, is not modelled).
- Threads and mutexes: every method is taken as atomic, and the compose backup thread and the jump-to polling wait are not modelled.
- The `s_Running` conditions that break the loops when the program shuts down are not modelled; every loop runs to its end.
- `ImapManager`, `SmtpManager` and `OfflineQueue` are foreign, asynchronous code; their calls are appended to logs (`calls`) and queues (`draftQueue`, `outbox`) on the class. `src/imapmanager.cpp`, `src/smtpmanager.cpp` and `src/offlinequeue.cpp` are not part of this model.
- `SmtpManager::SyncAction`'s result is the `created` parameter of `SendComposedMessage`, and `Header::SetData`'s parse of a queued message is the `headerFields` parameter of `HandleConnected`.
- `Util::ZeroPad`, `Util::BitInvertString`, `Util::NormalizeName`, `Util::NormalizeSubject` and the `Header` accessors have their bodies outside the core; they are the `TextFns` parameter, with the facts used stated in `KeyFnsAssumed`.
- The new-mail beep, the log lines and the dialog's time stamp are output only.
- `SortFilterUpdated`'s `p_FilterUpdated` argument is passed on to `UpdateDisplayUids`, which does not read it; it is not modelled.
- `DrawMessageListSearch`'s fetch selection applies the same claim rule as `Fetch.Claim`, per folder of the hits on screen; it is not modelled as a method of its own.
- `SetState`'s set-up of the folder list, the compose buffers, the temporary files and the external viewers is file and terminal I/O; only its bookkeeping of the state to return to is modelled.
- The compose body, the signature, line wrapping of the body and the HTML part of a composed message are not modelled; the header fields are.
- External editors, pagers, viewers, export, import and the file picker's directory reads are process and file I/O.
- `src/addressbook.cpp` is SQLite statements and encrypted cache files; it is not part of this model.
- The regular expressions of `ParseHtmlToTerminal` (script, style and head clean-up), `ParseAttributes`, `ExtractTableData` and the numeric-entity part of `ConvertHtmlEntities` are not modelled; `HtmlText.Tokenize` starts from the cleaned text, and elements carry no attributes.
- `ConvertElementToTerminal`, `ProcessTextContent`, `RenderTable`, `RenderList` and `GetColorForElement` produce coloured terminal output; `RenderTable`'s floating-point column widths and the size formatting are floating point.
- Strings in the HTML modules are sequences of characters each standing for one byte; multibyte UTF-8 text (the emoji and the table bar) is written byte by byte, and `ToLower` lower-cases only ASCII letters, as `::tolower` does in the C locale.
- KeyHandling.KeyDisplay: its contract bounds the name's length to one to three bytes; the exact names are stated by `ControlKeyDisplay` and `PrintableKeyDisplay` for control and printable keys only, not for the named special keys.
- MailUi.ResponseErrorMessage: its contract names the first two warnings and when there is none; the order of the other four is in its definition only.
- HtmlText.Tokenize: its contract states termination, the count of tokens and the shape of text runs, not the elements' contents.
- MailUi.PatchedSpec: states the patch with the corrected erase (Findings row 2), not the erase loop at src/ui.cpp:6641-6653 as written, which keeps an entry filed under a key that has since changed; `PatchedAgreesWhenFresh` shows the two agree while no key is stale, and `DisplayIndex.StaleKeySurvivesErase` shows where they part.
- MailUi.PatchIndex: runs `EraseRemovedUids` in place of the erase loop at src/ui.cpp:6641-6653; its rebuild and insert loop are the source's.
- MailUi.PatchedDisplayOk: the display invariant (every up-to-date index lists only its folder's UIDs) is kept because the corrected erase runs; the source as written breaks it for a stale key.
- MailUi.PatchFolder: the display work of `UpdateDisplayUids` with the corrected erase, not the loop at src/ui.cpp:6641-6653.
- MailUi.UidsPatchedSpec: the consistency after UIDs vanish holds of the corrected erase; the source as written can leave a vanished UID listed under a stale key.
- MailUi.MergedUidsSpec: its display half rests on the corrected erase, as `UidsPatchedSpec` does.
- MailUi.TakeUids: its removal step is `PatchFolder`'s corrected erase, not `UpdateDisplayUids` as written at src/ui.cpp:6641-6653.
- MailUi.MergeSteps: inherits `TakeUids`' corrected erase.
- MailUi.HandleSteps: inherits `TakeUids`' corrected erase below the full-sync level.
- MailUi.UidsTakenConsistent: consistency is proved of the corrected erase; the source as written breaks it for a stale key (Findings row 2).
- MailUi.HandleConsistent: consistency rests on the corrected erase; the source as written breaks it for a stale key.
- MailUi.MergedResponseConsistent: consistency rests on the corrected erase; the source as written breaks it for a stale key.
- MailUi.ThroughHeadersConsistent: consistency rests on the corrected erase; the source as written breaks it for a stale key.
- MailUi.RemovedNotShown: "shows none of them" is the intended behaviour; as written, src/ui.cpp:6641-6653 leaves a message filed under a stale key shown.
- MailUi.Ui.UpdateDisplayUids: runs `EraseRemovedUids` in place of the erase loop at src/ui.cpp:6641-6653; `Valid()`'s listing part, which it restores, is what the source as written breaks for a stale key.
- MailUi.Ui.TakeResponse: equals `Handle`, whose UIDs part carries the corrected erase.
- MailUi.Ui.ResponseHandler: goes through `TakeResponse`, so it carries the corrected erase.
- MailUi.Ui.DropMessages: runs the corrected index erase and the corrected search-hit loop (`EraseSearchHits`); its "shows none of them" and `Valid()` are the intended behaviour that src/ui.cpp:6641-6653 and 5133-5142 break (Findings rows 1 and 2).
- MailUi.Ui.ForgetMessages: runs the corrected index erase; "shows none of them" is what the source as written breaks for a stale key.
- MailUi.Ui.EraseHits: runs `EraseSearchHits` in place of the loop at src/ui.cpp:5133-5142, which skips a hit that slides into the erased position (`SearchResults.AdjacentHitSurvives`).
- MailUi.Ui.MoveMessages: drops the messages through the corrected index and search-hit erases.
- MailUi.Ui.DeleteMessages: drops the messages through the corrected index and search-hit erases.
- MailUi.Ui.FetchMessageView: the neighbours are taken from the current folder's shown list but claimed and asked for in the folder of the viewed message, as the source does; the two are the same folder except when a search hit is viewed.

## Findings

| source | as written | input that shows it | evidently intended | confidence | as-written member | corrected member |
|---|---|---|---|---|---|---|
| src/ui.cpp:5133-5142 | the search-hit erase loop of `MoveMessages` (and the same loop of `DeleteMessages`) moves on to `i + 1` after erasing hit `i`, so the hit that slid into position `i` is never examined | in search mode, two adjacent hits naming two messages that are moved together: the second stays listed | every hit naming a moved or deleted message is erased | high; not executed | `SearchResults.AdjacentHitSurvives` | `SearchResults.EraseSearchHits` |
| src/ui.cpp:6641-6653 | `UpdateDisplayUids` erases each removed UID's entry by recomputing its key from the current header and flags, so an entry filed under a key that has since changed is missed | in the unseen-only filter, a message filed while unseen and then opened (marked seen) has the empty key; deleting it leaves it in the index | the entries listing a removed UID are erased whatever key they were filed under | high; not executed | `DisplayIndex.StaleKeySurvivesErase` | `DisplayIndex.EraseRemovedUids` |
| src/html_parser.cpp:283-289 | the named-entity loop applies each entity to the output of the previous ones, so "&amp;" decoded first creates entities the later passes decode again | "&amp;lt;" becomes "<" | each entity of the original text is decoded once: "&amp;lt;" becomes "&lt;" | high; not executed | `HtmlRewrite.EntityDecodedTwice` | `HtmlRewrite.DecodeEscape` |
| src/ui.cpp:2304-2315 | the DrawError bit shows only the front of the SMTP error queue, while the bytes read in one wake-up are OR-folded into one bit | two send failures queued before the UI wakes up: one error is shown and the second stays queued with no request left to show it | every queued error is shown | medium; not executed | `WakeUp.SecondErrorStranded` | `WakeUp.EveryErrorShown` |
| src/ui.cpp:3761-3771 | a draft's Bcc is written with `SetComposeStr` while the rich header is off, which keeps no Bcc, so the test that should turn the rich header on always reads an empty Bcc | loading a draft with a non-empty Bcc while the rich header is off: the rich header stays off and the Bcc is lost | a draft with a Bcc turns the rich header on and keeps its Bcc | medium; not executed | `ComposeHeader.DraftBccLost` | `ComposeHeader.LoadDraftKeepsFields` |
