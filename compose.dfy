/**
 * The compose screen's header fields (m_ComposeHeaderStr): a map from slot
 * number to text. With the rich header shown every field has its own slot,
 * numbered by its HeaderField value; without it only To, Cc, Att and Sub
 * are kept, in slots 0 to 3, and From and Bcc are dropped.
 */
module ComposeHeader {
  import opened MailTypes
  import opened Cursor

  /** std::map<uint32_t, std::wstring>; a missing slot reads as empty. */
  type Slots = map<Uid, WString>

  /** The fields the compose screen shows. */
  predicate IsShown(field: int, rich: bool)
  {
    if rich then HeaderFrom <= field <= HeaderSub
    else field == HeaderTo || field == HeaderCc || field == HeaderAtt || field == HeaderSub
  }

  /** The number of header lines on the compose screen. */
  function LineCount(rich: bool): nat
  {
    if rich then 6 else 4
  }

  /** The slot a field is kept in, or None for a field that is not kept. */
  function SlotOf(field: int, rich: bool): (r: Option<Uid>)
    ensures IsShown(field, rich) ==> r.Some? && r.value < LineCount(rich)
    ensures !rich ==> (r.Some? <==> IsShown(field, rich))
  {
    if rich then Some(AsUint32(field))
    else if field == HeaderTo then Some(0)
    else if field == HeaderCc then Some(1)
    else if field == HeaderAtt then Some(2)
    else if field == HeaderSub then Some(3)
    else None
  }

  /** Two shown fields never share a slot. */
  lemma SlotOfInjective(f: int, g: int, rich: bool)
    requires IsShown(f, rich) && IsShown(g, rich)
    ensures SlotOf(f, rich) == SlotOf(g, rich) ==> f == g
  {
  }

  /** Ui::GetComposeStr */
  function GetComposeStr(slots: Slots, rich: bool, field: int): WString
  {
    match SlotOf(field, rich)
    case None => []
    case Some(k) => Get(slots, k, [])
  }

  /** The slots HeaderAll writes. */
  function AllSlots(rich: bool): set<Uid>
  {
    if rich then {0, 1, 2, 3, 4, 5} else {0, 1, 2, 3}
  }

  /** Ui::SetComposeStr: HeaderAll clears the map and fills every line's slot; a single field writes its slot. */
  function SetComposeStr(slots: Slots, rich: bool, field: int, str: WString): (r: Slots)
    ensures field == HeaderAll ==> r.Keys == AllSlots(rich) && forall k | k in r :: r[k] == str
    ensures field != HeaderAll && SlotOf(field, rich).None? ==> r == slots
  {
    if field == HeaderAll then map k | k in AllSlots(rich) :: str
    else match SlotOf(field, rich)
      case None => slots
      case Some(k) => slots[k := str]
  }

  /**
   * Writing a shown field and reading a shown field back gives the text
   * written for that field and the old text for every other one.
   */
  lemma SetThenGet(slots: Slots, rich: bool, field: int, other: int, str: WString)
    requires IsShown(field, rich) && IsShown(other, rich)
    ensures GetComposeStr(SetComposeStr(slots, rich, field, str), rich, other)
         == if other == field then str else GetComposeStr(slots, rich, other)
  {
    SlotOfInjective(field, other, rich);
  }

  /** After HeaderAll every shown field reads as the text given. */
  lemma SetAllThenGet(slots: Slots, rich: bool, field: int, str: WString)
    requires IsShown(field, rich)
    ensures GetComposeStr(SetComposeStr(slots, rich, HeaderAll, str), rich, field) == str
  {
  }

  /** Ui::GetCurrentHeaderField: the field on a header line, or HeaderAll past the last line. */
  function CurrentHeaderField(line: int, rich: bool): (field: int)
  {
    if rich then
      if line == 0 then HeaderFrom
      else if line == 1 then HeaderTo
      else if line == 2 then HeaderCc
      else if line == 3 then HeaderBcc
      else if line == 4 then HeaderAtt
      else if line == 5 then HeaderSub
      else HeaderAll
    else
      if line == 0 then HeaderTo
      else if line == 1 then HeaderCc
      else if line == 2 then HeaderAtt
      else if line == 3 then HeaderSub
      else HeaderAll
  }

  /**
   * Header line i edits slot i: every line shows a shown field kept in the
   * slot of the same number, and every shown field is on exactly one line.
   */
  lemma LinesAreSlots(line: int, field: int, rich: bool)
    ensures 0 <= line < LineCount(rich) ==>
      IsShown(CurrentHeaderField(line, rich), rich) && SlotOf(CurrentHeaderField(line, rich), rich) == Some(line)
    ensures !(0 <= line < LineCount(rich)) ==> CurrentHeaderField(line, rich) == HeaderAll
    ensures IsShown(field, rich) ==>
      exists l :: 0 <= l < LineCount(rich) && CurrentHeaderField(l, rich) == field
  {
    if IsShown(field, rich) {
      var l := SlotOf(field, rich).value;
      assert CurrentHeaderField(l, rich) == field;
    }
  }

  /** The six fields read out of the slots. */
  datatype Fields = Fields(from: WString, to: WString, cc: WString, bcc: WString, att: WString, sub: WString)

  function ReadFields(slots: Slots, rich: bool): Fields
  {
    Fields(GetComposeStr(slots, rich, HeaderFrom), GetComposeStr(slots, rich, HeaderTo),
      GetComposeStr(slots, rich, HeaderCc), GetComposeStr(slots, rich, HeaderBcc),
      GetComposeStr(slots, rich, HeaderAtt), GetComposeStr(slots, rich, HeaderSub))
  }

  /** Clear every slot, set From to the default sender, then write the other five fields, as the compose key handlers do. */
  function WriteFields(rich: bool, defaultFrom: WString, f: Fields): Slots
  {
    var s0 := SetComposeStr(map[], rich, HeaderAll, []);
    var s1 := SetComposeStr(s0, rich, HeaderFrom, defaultFrom);
    var s2 := SetComposeStr(s1, rich, HeaderTo, f.to);
    var s3 := SetComposeStr(s2, rich, HeaderCc, f.cc);
    var s4 := SetComposeStr(s3, rich, HeaderBcc, f.bcc);
    var s5 := SetComposeStr(s4, rich, HeaderAtt, f.att);
    SetComposeStr(s5, rich, HeaderSub, f.sub)
  }

  /** What WriteFields leaves: every shown field reads as written, From as the default sender. */
  lemma WriteFieldsReads(rich: bool, defaultFrom: WString, f: Fields)
    ensures var r := ReadFields(WriteFields(rich, defaultFrom, f), rich);
      && r.to == f.to && r.cc == f.cc && r.att == f.att && r.sub == f.sub
      && r.from == (if rich then defaultFrom else [])
      && r.bcc == (if rich then f.bcc else [])
  {
  }

  /**
   * The rich-header key: read the six fields, flip the mode, and write them
   * back with From reset to the default sender.
   */
  function ToggledRichHeader(slots: Slots, rich: bool, defaultFrom: WString): (r: (Slots, bool))
    ensures r.1 == !rich
  {
    (WriteFields(!rich, defaultFrom, ReadFields(slots, rich)), !rich)
  }

  /**
   * Switching the rich header on or off keeps To, Cc, Att and Sub; switching
   * it on shows the default sender and whatever Bcc was kept (none, since
   * the plain mode keeps no Bcc); switching it off drops From and Bcc.
   */
  lemma ToggleRichKeepsFields(slots: Slots, rich: bool, defaultFrom: WString)
    ensures var (s, r) := ToggledRichHeader(slots, rich, defaultFrom);
      var before, after := ReadFields(slots, rich), ReadFields(s, r);
      && after.to == before.to && after.cc == before.cc && after.att == before.att && after.sub == before.sub
      && after.from == (if r then defaultFrom else [])
      && after.bcc == (if r then before.bcc else [])
      && (!rich ==> before.bcc == [])
  {
    WriteFieldsReads(!rich, defaultFrom, ReadFields(slots, rich));
  }

  /**
   * Opening a draft as Ui::SetState writes it: the draft's fields are
   * written in the current mode, attachments start empty, and only then is
   * Bcc read back to decide whether to turn the rich header on.
   */
  function LoadDraftAsWritten(rich: bool, defaultFrom: WString, draft: Fields): (r: (Slots, bool))
  {
    var slots := WriteFields(rich, defaultFrom, draft.(att := []));
    var shown := rich || GetComposeStr(slots, rich, HeaderBcc) != [];
    (SetComposeStr(slots, rich, HeaderFrom, draft.from), shown)
  }

  /**
   * Without the rich header the draft's Bcc is never kept, so the Bcc condition
   * always reads it as empty: the rich header stays off and the Bcc is
   * gone, even after the user switches the rich header on.
   */
  lemma DraftBccLost(defaultFrom: WString, draft: Fields, userFrom: WString)
    requires draft.bcc != []
    ensures var (slots, rich) := LoadDraftAsWritten(false, defaultFrom, draft);
      !rich && ReadFields(ToggledRichHeader(slots, rich, userFrom).0, true).bcc == []
  {
    var slots := LoadDraftAsWritten(false, defaultFrom, draft).0;
    assert SlotOf(HeaderBcc, false).None?;
    ToggleRichKeepsFields(slots, false, userFrom);
  }

  /** The draft loading with the mode decided from the draft's own Bcc before anything is written. */
  function LoadDraft(rich: bool, defaultFrom: WString, draft: Fields): (r: (Slots, bool))
  {
    var shown := rich || draft.bcc != [];
    var slots := WriteFields(shown, defaultFrom, draft.(att := []));
    (SetComposeStr(slots, shown, HeaderFrom, draft.from), shown)
  }

  /**
   * Loading a draft with a Bcc turns the rich header on, and every field
   * the resulting mode shows reads as the draft's, attachments empty.
   */
  lemma LoadDraftKeepsFields(rich: bool, defaultFrom: WString, draft: Fields)
    ensures var (slots, shown) := LoadDraft(rich, defaultFrom, draft);
      var r := ReadFields(slots, shown);
      && (shown <==> rich || draft.bcc != [])
      && r.to == draft.to && r.cc == draft.cc && r.sub == draft.sub && r.att == []
      && (shown ==> r.from == draft.from && r.bcc == draft.bcc)
  {
    var shown := rich || draft.bcc != [];
    var slots := WriteFields(shown, defaultFrom, draft.(att := []));
    WriteFieldsReads(shown, defaultFrom, draft.(att := []));
    if shown {
      forall g | IsShown(g, true)
        ensures GetComposeStr(SetComposeStr(slots, true, HeaderFrom, draft.from), true, g)
             == if g == HeaderFrom then draft.from else GetComposeStr(slots, true, g)
      {
        SetThenGet(slots, true, HeaderFrom, g, draft.from);
      }
    }
  }
}
