/**
 * The UI's screen state and the two states it remembers: the state before
 * the last ordinary transition (m_LastState), and the state an address or
 * file list was opened from (m_LastMessageState).
 */
module UiStates {
  import opened MailTypes

  datatype StateTrail = StateTrail(state: UiState, lastState: UiState, lastMessageState: UiState)

  /** The states at start-up. */
  const InitialTrail := StateTrail(ViewMessageList, ViewMessageList, ComposeMessage)

  /** The pickers that are opened from a compose or message screen and return to it. */
  predicate IsListState(s: UiState)
  {
    s == AddressList || s == FromAddressList || s == FileList
  }

  /**
   * Ui::SetState's bookkeeping: opening a list remembers where it was opened
   * from, an ordinary transition remembers the state it leaves, and leaving
   * a list remembers nothing.
   */
  function Entered(t: StateTrail, next: UiState): (r: StateTrail)
    ensures r.state == next
  {
    if IsListState(next) then StateTrail(next, t.lastState, t.state)
    else if !IsListState(t.state) then StateTrail(next, t.state, t.lastMessageState)
    else t.(state := next)
  }

  /**
   * Opening a list from a screen and then returning to the state the list
   * remembered gives back that screen and the state before it.
   */
  lemma ListReturns(t: StateTrail, list: UiState)
    requires IsListState(list) && !IsListState(t.state)
    ensures var inList := Entered(t, list);
      inList.lastMessageState == t.state
      && Entered(inList, inList.lastMessageState) == t.(lastMessageState := t.state)
  {
  }

  /** An ordinary transition from an ordinary screen remembers the screen it left, and only that. */
  lemma OrdinaryRemembers(t: StateTrail, next: UiState)
    requires !IsListState(next) && !IsListState(t.state)
    ensures Entered(t, next) == StateTrail(next, t.state, t.lastMessageState)
    ensures Entered(t, next).lastState != Entered(t, next).state || next == t.state
  {
  }

  /** The remembered last state is never a list, so returning to it never opens a picker. */
  predicate TrailOk(t: StateTrail)
  {
    !IsListState(t.lastState)
  }

  lemma TrailOkKept(t: StateTrail, next: UiState)
    requires TrailOk(t)
    ensures TrailOk(Entered(t, next))
  {
  }

  lemma InitialTrailOk()
    ensures TrailOk(InitialTrail) && !IsListState(InitialTrail.state)
  {
  }

  /**
   * The state Ui::SetLastStateOrMessageList moves to: the message list when
   * the folder has no messages and no search is shown, else the
   * remembered last state.
   */
  function LastStateOrMessageList(t: StateTrail, searching: bool, headerUidsEmpty: bool): (s: UiState)
    ensures TrailOk(t) ==> !IsListState(s)
    ensures !searching && headerUidsEmpty ==> s == ViewMessageList
    ensures searching || !headerUidsEmpty ==> s == t.lastState
  {
    if !searching && headerUidsEmpty then ViewMessageList else t.lastState
  }
}
