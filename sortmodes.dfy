/**
 * The sort and filter mode of a folder's message list, as the key bindings
 * change it: a sort key cycles Default -> first -> second -> Default, a
 * filter key switches its filter on, or off again when it is already on.
 */
module SortModes {
  import opened MailTypes
  import opened ByteStrings
  import opened DisplayKeys

  /** The mode Ui::ToggleSort moves to. */
  function ToggledSort(current: SortFilter, first: SortFilter, second: SortFilter): SortFilter
  {
    if current == second then SortDefault else if current == first then second else first
  }

  /** The mode Ui::ToggleFilter moves to. */
  function ToggledFilter(current: SortFilter, filter: SortFilter): SortFilter
  {
    if current != filter then filter else SortDefault
  }

  /** The modes ToggleSort and DisableSortFilter report as a filter that was on. */
  predicate WasFilterEnabled(mode: SortFilter)
  {
    mode == SortUnseenOnly || mode == SortAttchOnly
  }

  /** The filters whose predicate compares with the current message (m_FilterCustomStr). */
  predicate IsCustomFilter(mode: SortFilter)
  {
    mode == SortCurrDateOnly || mode == SortCurrNameOnly || mode == SortCurrSubjOnly
  }

  /** The (first, second) pairs the sort keys are bound to: a descending mode and its ascending twin. */
  predicate IsSortKeyPair(first: SortFilter, second: SortFilter)
  {
    (first, second) in {
      (SortUnseenDesc, SortUnseenAsc), (SortAttchDesc, SortAttchAsc), (SortDateDesc, SortDateAsc),
      (SortNameDesc, SortNameAsc), (SortSubjDesc, SortSubjAsc)}
  }

  /**
   * Pressing a sort key three times from any mode outside its pair comes
   * back to Default, through the descending and then the ascending mode;
   * the two modes of a bound pair list the same messages in opposite
   * orders: the second's key is the first's key bit-inverted.
   */
  lemma SortKeyCycle(current: SortFilter, first: SortFilter, second: SortFilter, fns: TextFns, env: KeyEnv, uid: Uid)
    requires IsSortKeyPair(first, second)
    ensures current != first && current != second ==>
      && ToggledSort(current, first, second) == first
      && ToggledSort(first, first, second) == second
      && ToggledSort(second, first, second) == SortDefault
    ensures ToggledSort(ToggledSort(ToggledSort(SortDefault, first, second), first, second), first, second) == SortDefault
    ensures IsAscending(second) && DescendingOf(second) == first
    ensures DisplayKey(fns, env, uid, second) == fns.bitInvert(DisplayKey(fns, env, uid, first))
  {
    AscendingIsInvertedDescending(fns, env, uid, second);
  }

  /**
   * Pressing a filter key twice from Default or from that filter comes back
   * to where it started; from any other mode the first press selects the
   * filter and the second returns to Default.
   */
  lemma FilterKeyTwice(current: SortFilter, filter: SortFilter)
    requires filter.IsFilter()
    ensures ToggledFilter(current, filter) == filter <==> current != filter
    ensures ToggledFilter(ToggledFilter(current, filter), filter) ==
      if current == filter then filter else SortDefault
  {
  }

  /**
   * The m_FilterCustomStr Ui::ToggleFilter takes from the header of the
   * message under the cursor: its date, its normalized correspondent (the
   * recipient when the current folder is the sent folder) or its
   * normalized subject.
   */
  function CustomFilterStr(fns: TextFns, h: Header, mode: SortFilter, currentIsSent: bool): Bytes
    requires IsCustomFilter(mode)
  {
    match mode
    case SortCurrDateOnly => h.date
    case SortCurrNameOnly => fns.normalizeName(NameOf(h, currentIsSent))
    case SortCurrSubjOnly => fns.normalizeSubject(h.subject)
  }

  /**
   * A custom filter taken from a message keeps that message: it passes the
   * filter and is filed under its date key, so it is listed.
   */
  lemma FilterKeepsOwnMessage(fns: TextFns, env: KeyEnv, uid: Uid, mode: SortFilter)
    requires IsCustomFilter(mode) && uid in env.headers
    requires env.filterCustomStr == CustomFilterStr(fns, env.headers[uid], mode, env.currentIsSent)
    ensures FilterHolds(fns, env, uid, mode)
    ensures DisplayKey(fns, env, uid, mode) == DisplayKey(fns, env, uid, SortDateDesc) != []
  {
    FilterKeys(fns, env, uid, mode);
  }
}
