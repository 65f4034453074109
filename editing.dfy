/**
 * Key handling shared by the UI's input screens: moving a cursor in a
 * list, editing a line of text at a cursor position, and how a key is
 * named in the help bar.
 */
module KeyHandling {
  import opened MailTypes
  import opened ByteStrings
  import opened Util
  import opened Cursor

  /** The curses key codes the handlers compare against. */
  const KeyDown := 258
  const KeyUp := 259
  const KeyLeft := 260
  const KeyRight := 261
  const KeyHome := 262
  const KeyBackspace := 263
  const KeyDc := 330
  const KeyEnd := 360
  /** DEL, which some terminals send for backspace. */
  const KeyDelete := 127

  /** INT_MAX, the largest int. */
  const IntMax := 0x7fff_ffff

  /** The configurable keys (read from the configuration at start-up). */
  datatype KeyBindings = KeyBindings(
    prevPage: int, nextPage: int,
    deleteCharAfterCursor: int, deleteLineAfterCursor: int, deleteLineBeforeCursor: int,
    beginLine: int, endLine: int, backwardWord: int, forwardWord: int,
    backwardKillWord: int, killWord: int)

  /** What a key does in Ui::HandleLineKey, in the order the handler compares the keys. */
  datatype LineAction =
    | MoveLeft | MoveRight | EraseBefore | EraseAfter
    | DeleteLineAfter | DeleteLineBefore | BeginLine | EndLine
    | BackwardWord | ForwardWord | BackwardKillWord | KillWord
    | NotALineKey
  {
    /** The actions carried out by Util's match helpers, whose bodies are not part of this model. */
    predicate IsDelegated()
    {
      !(this in {MoveLeft, MoveRight, EraseBefore, EraseAfter, NotALineKey})
    }
  }

  function LineKeyAction(key: int, keys: KeyBindings): LineAction
  {
    if key == KeyLeft then MoveLeft
    else if key == KeyRight then MoveRight
    else if key == KeyBackspace || key == KeyDelete then EraseBefore
    else if key == KeyDc || key == keys.deleteCharAfterCursor then EraseAfter
    else if key == keys.deleteLineAfterCursor then DeleteLineAfter
    else if key == keys.deleteLineBeforeCursor then DeleteLineBefore
    else if key == keys.beginLine then BeginLine
    else if key == keys.endLine then EndLine
    else if key == keys.backwardWord then BackwardWord
    else if key == keys.forwardWord then ForwardWord
    else if key == keys.backwardKillWord then BackwardKillWord
    else if key == keys.killWord then KillWord
    else NotALineKey
  }

  /** std::wstring::insert(pos, 1, c) */
  function InsertAt(s: WString, pos: int, c: int): (r: WString)
    requires 0 <= pos <= |s|
    ensures |r| == |s| + 1 && r[pos] == c
    ensures r[..pos] == s[..pos] && r[pos + 1..] == s[pos..]
  {
    s[..pos] + [c] + s[pos..]
  }

  /** std::wstring::erase(pos, 1) */
  function EraseAt(s: WString, pos: int): (r: WString)
    requires 0 <= pos < |s|
    ensures |r| == |s| - 1
    ensures r[..pos] == s[..pos] && r[pos..] == s[pos + 1..]
  {
    s[..pos] + s[pos + 1..]
  }

  /** Erasing the character just inserted gives back the text. */
  lemma EraseUndoesInsert(s: WString, pos: int, c: int)
    requires 0 <= pos <= |s|
    ensures EraseAt(InsertAt(s, pos, c), pos) == s
  {
    var r := EraseAt(InsertAt(s, pos, c), pos);
    assert r == r[..pos] + r[pos..];
    assert s == s[..pos] + s[pos..];
  }

  /** Ui::IsValidTextKey: printable characters and newline. */
  predicate IsValidTextKey(key: int)
  {
    key >= 0x20 || key == 0xA
  }

  /** A printable key below 256, other than DEL and the configured keys, is never a line-editing key. */
  lemma TextKeysAreNotEdits(key: int, keys: KeyBindings)
    requires IsValidTextKey(key) && key != KeyDelete && key < 256
    requires key !in {keys.deleteCharAfterCursor, keys.deleteLineAfterCursor, keys.deleteLineBeforeCursor,
      keys.beginLine, keys.endLine, keys.backwardWord, keys.forwardWord, keys.backwardKillWord, keys.killWord}
    ensures LineKeyAction(key, keys) == NotALineKey
  {
  }

  /**
   * Ui::HandleLineKey: the arrow keys move within the line, backspace and
   * delete erase around the cursor when there is a character there, and
   * the configured word and line keys are passed on to Util's helpers,
   * given here as utilOp.
   */
  method HandleLineKey(key: int, keys: KeyBindings, utilOp: (LineAction, WString, int) -> (WString, int),
                       str: WString, pos: int)
    returns (handled: bool, s: WString, p: int)
    requires 0 <= pos <= |str|
    ensures handled <==> LineKeyAction(key, keys) != NotALineKey
    ensures !LineKeyAction(key, keys).IsDelegated() ==> 0 <= p <= |s|
    ensures LineKeyAction(key, keys) == MoveLeft ==> s == str && p == (if pos > 0 then pos - 1 else 0)
    ensures LineKeyAction(key, keys) == MoveRight ==> s == str && p == (if pos < |str| then pos + 1 else pos)
    ensures LineKeyAction(key, keys) == EraseBefore ==>
      if pos > 0 then s == EraseAt(str, pos - 1) && p == pos - 1 else s == str && p == pos
    ensures LineKeyAction(key, keys) == EraseAfter ==>
      if pos < |str| then s == EraseAt(str, pos) && p == pos else s == str && p == pos
    ensures LineKeyAction(key, keys).IsDelegated() ==> (s, p) == utilOp(LineKeyAction(key, keys), str, pos)
    ensures LineKeyAction(key, keys) == NotALineKey ==> s == str && p == pos
  {
    handled, s, p := true, str, pos;
    var action := LineKeyAction(key, keys);
    if action == MoveLeft {
      p := Bound(0, pos - 1, |str|);
    } else if action == MoveRight {
      p := Bound(0, pos + 1, |str|);
    } else if action == EraseBefore {
      if p > 0 {
        p := p - 1;
        s := EraseAt(s, p);
      }
    } else if action == EraseAfter {
      if p < |s| {
        s := EraseAt(s, p);
      }
    } else if action.IsDelegated() {
      var r := utilOp(action, str, pos);
      s, p := r.0, r.1;
    } else {
      handled := false;
    }
  }

  /** Ui::HandleTextKey: a text key is inserted at the cursor, which moves past it. */
  method HandleTextKey(key: int, str: WString, pos: int) returns (handled: bool, s: WString, p: int)
    requires 0 <= pos <= |str|
    ensures handled <==> IsValidTextKey(key)
    ensures handled ==> s == InsertAt(str, pos, key) && p == pos + 1
    ensures !handled ==> s == str && p == pos
    ensures 0 <= p <= |s|
  {
    if IsValidTextKey(key) {
      s := InsertAt(str, pos, key);
      p := pos + 1;
      handled := true;
    } else {
      handled, s, p := false, str, pos;
    }
  }

  /**
   * Typing a character and then pressing backspace leaves the line and the
   * cursor as they were, whatever keys are configured: backspace is matched
   * before any configurable key.
   */
  lemma TypeThenBackspace(str: WString, pos: int, c: int, keys: KeyBindings)
    requires 0 <= pos <= |str| && IsValidTextKey(c)
    ensures LineKeyAction(KeyBackspace, keys) == EraseBefore
    ensures EraseAt(InsertAt(str, pos, c), pos + 1 - 1) == str
  {
    EraseUndoesInsert(str, pos, c);
  }

  /** Ui::HandleDocKey: Home and End jump to the start and the end of the text. */
  method HandleDocKey(key: int, str: WString, pos: int) returns (handled: bool, p: int)
    ensures handled <==> key == KeyHome || key == KeyEnd
    ensures key == KeyHome ==> p == 0
    ensures key == KeyEnd ==> p == |str|
    ensures !handled ==> p == pos
  {
    handled := true;
    if key == KeyHome {
      p := 0;
    } else if key == KeyEnd {
      p := |str|;
    } else {
      handled, p := false, pos;
    }
  }

  /** The index a list key moves to, or None for a key that is not a list key. */
  function ListKeyIndex(key: int, prevPage: int, nextPage: int, height: int, index: int): Option<int>
  {
    if key == KeyUp then Some(index - 1)
    else if key == KeyDown then Some(index + 1)
    else if key == prevPage then Some(index - height)
    else if key == nextPage then Some(index + height)
    else if key == KeyHome then Some(0)
    else if key == KeyEnd then Some(IntMax - 1)
    else None
  }

  /**
   * Ui::HandleListKey: the arrows move one row, the page keys one window
   * height, Home to the first row and End past any list; the index is
   * clamped afterwards, when the UID is picked.
   */
  method HandleListKey(key: int, keys: KeyBindings, height: int, index: int) returns (handled: bool, newIndex: int)
    ensures handled <==> ListKeyIndex(key, keys.prevPage, keys.nextPage, height, index).Some?
    ensures handled ==> newIndex == ListKeyIndex(key, keys.prevPage, keys.nextPage, height, index).value
    ensures !handled ==> newIndex == index
  {
    handled, newIndex := true, index;
    if key == KeyUp {
      newIndex := newIndex - 1;
    } else if key == KeyDown {
      newIndex := newIndex + 1;
    } else if key == keys.prevPage {
      newIndex := newIndex - height;
    } else if key == keys.nextPage {
      newIndex := newIndex + height;
    } else if key == KeyHome {
      newIndex := 0;
    } else if key == KeyEnd {
      newIndex := IntMax - 1;
    } else {
      handled := false;
    }
  }

  /**
   * Once clamped to a list of n messages (n below INT_MAX), Home selects
   * the first row and End the last, unless a page key is bound to them, and
   * the arrows never leave the list.
   */
  lemma ListKeysLandInList(keys: KeyBindings, height: int, index: int, n: nat)
    requires 0 < n < IntMax
    requires keys.prevPage != KeyHome && keys.nextPage != KeyHome
    requires keys.prevPage != KeyEnd && keys.nextPage != KeyEnd
    ensures ClampIndex(ListKeyIndex(KeyHome, keys.prevPage, keys.nextPage, height, index).value, n) == 0
    ensures ClampIndex(ListKeyIndex(KeyEnd, keys.prevPage, keys.nextPage, height, index).value, n) == n - 1
    ensures forall k | k == KeyUp || k == KeyDown ::
      0 <= ClampIndex(ListKeyIndex(k, keys.prevPage, keys.nextPage, height, index).value, n) < n
  {
  }

  /** The UTF-8 bytes of the arrows shown for the left and right keys. */
  const LeftArrow: Bytes := [0xE2, 0x86, 0x90]
  const RightArrow: Bytes := [0xE2, 0x86, 0x92]

  /**
   * Ui::GetKeyDisplay: Enter is "Re", a control key is '^' and its letter,
   * ',' and '.' are shown as '<' and '>', the left and right keys as arrows,
   * a lower-case letter in upper case, and any other key as its low byte.
   */
  function KeyDisplay(key: int): (r: Bytes)
    ensures 1 <= |r| <= 3
  {
    if key == '\n' as int then ['R' as Byte, 'e' as Byte]
    else if 0 <= key <= 0x1F then ['^' as Byte, (key + 0x40) as Byte]
    else if key == ',' as int then ['<' as Byte]
    else if key == '.' as int then ['>' as Byte]
    else if key == KeyLeft then LeftArrow
    else if key == KeyRight then RightArrow
    else if 'a' as int <= key <= 'z' as int then [(key - 0x20) as Byte]
    else [(key % 256) as Byte]
  }

  /**
   * A control key is shown as '^' followed by how its letter is shown:
   * Ctrl-A as "^A" like the key 'a' as "A".
   */
  lemma ControlKeyDisplay(key: int)
    requires 1 <= key <= 26 && key != '\n' as int
    ensures KeyDisplay(key) == ['^' as Byte] + KeyDisplay(key + 0x60)
  {
  }

  /** Printable keys other than ',', '.' and the lower-case letters are shown as themselves. */
  lemma PrintableKeyDisplay(key: int)
    requires 0x20 <= key < 0x7F && key != ',' as int && key != '.' as int && !('a' as int <= key <= 'z' as int)
    ensures KeyDisplay(key) == [key as Byte]
  {
  }

  const Ellipsis: Bytes := ['.' as Byte, '.' as Byte, '.' as Byte]

  /**
   * Ui::TruncateWithEllipsis. For a limit below 3 the length handed to
   * substr is negative, becomes a huge size_t, and the whole text is kept
   * before the "...".
   */
  function TruncateWithEllipsis(text: Bytes, maxLength: int): (r: Bytes)
    ensures |text| <= maxLength ==> r == text
    ensures 3 <= maxLength < |text| ==>
      |r| == maxLength && r[..maxLength - 3] == text[..maxLength - 3] && r[maxLength - 3..] == Ellipsis
    ensures maxLength < 3 && maxLength < |text| ==> r == text + Ellipsis
  {
    if |text| <= maxLength then text
    else if maxLength - 3 >= 0 then text[..maxLength - 3] + Ellipsis
    else text + Ellipsis
  }
}
