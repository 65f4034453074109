/**
 * The set of selected messages (m_SelectedUids): per folder, the UIDs the
 * user has marked for a move, delete or seen toggle.
 */
module Selection {
  import opened MailTypes

  type Selected = map<Folder, set<Uid>>

  predicate IsSelected(sel: Selected, folder: Folder, uid: Uid)
  {
    folder in sel && uid in sel[folder]
  }

  /** No folder is listed with an empty set. */
  predicate NoEmptyFolder(sel: Selected)
  {
    forall f | f in sel :: sel[f] != {}
  }

  /**
   * Ui::ToggleSelected on one message: select it, or unselect it and drop
   * its folder once nothing in it is selected.
   */
  function Toggled(sel: Selected, folder: Folder, uid: Uid): (r: Selected)
    ensures IsSelected(r, folder, uid) <==> !IsSelected(sel, folder, uid)
    ensures forall f, u :: f != folder || u != uid ==> (IsSelected(r, f, u) <==> IsSelected(sel, f, u))
    ensures NoEmptyFolder(sel) ==> NoEmptyFolder(r)
  {
    if !IsSelected(sel, folder, uid) then
      sel[folder := (if folder in sel then sel[folder] else {}) + {uid}]
    else if sel[folder] - {uid} == {} then
      assert forall u | u in sel[folder] && u != uid :: u in sel[folder] - {uid};
      sel - {folder}
    else
      sel[folder := sel[folder] - {uid}]
  }

  /** Toggling the same message twice gives back the same selection, folder entries included. */
  lemma ToggleTwice(sel: Selected, folder: Folder, uid: Uid)
    requires NoEmptyFolder(sel)
    ensures Toggled(Toggled(sel, folder, uid), folder, uid) == sel
  {
    var r := Toggled(Toggled(sel, folder, uid), folder, uid);
    assert r.Keys == sel.Keys;
    forall f | f in sel
      ensures r[f] == sel[f]
    {
      if f == folder {
        assert forall u :: u in r[f] <==> u in sel[f];
      }
    }
  }

  /** The selection Ui::ToggleSelectAll builds from the search hits: each hit's folder gets its UID. */
  function SelectHits(hits: seq<(Folder, Uid)>): (r: Selected)
    ensures forall f: Folder, u: Uid :: IsSelected(r, f, u) <==> (f, u) in hits
    ensures NoEmptyFolder(r)
  {
    if |hits| == 0 then map[]
    else
      var r := SelectHits(hits[..|hits| - 1]);
      var (f, u) := hits[|hits| - 1];
      assert forall h :: h in hits <==> h in hits[..|hits| - 1] || h == hits[|hits| - 1];
      r[f := (if f in r then r[f] else {}) + {u}]
  }

  /** The number of selected messages: the sizes of the folders' sets added up, in any order. */
  ghost function SumSizes(sel: Selected): nat
    decreases |sel|
  {
    if sel == map[] then 0
    else
      var f :| f in sel;
      |sel[f]| + SumSizes(sel - {f})
  }

  /** Any folder can be counted first. */
  lemma {:induction false} SumSizesAny(sel: Selected, g: Folder)
    requires g in sel
    ensures SumSizes(sel) == |sel[g]| + SumSizes(sel - {g})
    decreases |sel|
  {
    var f :| f in sel && SumSizes(sel) == |sel[f]| + SumSizes(sel - {f});
    if f != g {
      var rest := sel - {f};
      SumSizesAny(rest, g);
      SumSizesAny(sel - {g}, f);
      assert rest - {g} == (sel - {g}) - {f};
    }
  }

  /** Nothing is counted exactly when every folder's set is empty. */
  lemma {:induction false} SumSizesZero(sel: Selected)
    ensures SumSizes(sel) == 0 <==> forall f | f in sel :: sel[f] == {}
    decreases |sel|
  {
    if sel != map[] {
      var f :| f in sel;
      SumSizesAny(sel, f);
      SumSizesZero(sel - {f});
      assert forall g | g in sel && g != f :: (sel - {f})[g] == sel[g];
    }
  }

  /** Ui::GetSelectedCount: add up the sizes of the folders' sets. */
  method SelectedCount(sel: Selected) returns (n: nat)
    ensures n == SumSizes(sel)
  {
    n := 0;
    var rest := sel;
    while rest != map[]
      invariant n + SumSizes(rest) == SumSizes(sel)
      decreases |rest|
    {
      var f :| f in rest;
      SumSizesAny(rest, f);
      n := n + |rest[f]|;
      rest := rest - {f};
    }
  }

  /** std::to_string of a count: its decimal digits, most significant first. */
  function Decimal(n: nat): (r: string)
    ensures |r| > 0 && forall k :: 0 <= k < |r| ==> '0' <= r[k] <= '9'
  {
    if n < 10 then [('0' as int + n) as char] else Decimal(n / 10) + [('0' as int + n % 10) as char]
  }

  /** The number a string of decimal digits stands for. */
  function DecimalValue(s: string): nat
    requires forall k :: 0 <= k < |s| ==> '0' <= s[k] <= '9'
  {
    if |s| == 0 then 0 else DecimalValue(s[..|s| - 1]) * 10 + (s[|s| - 1] as int - '0' as int)
  }

  /** The digits name the count they were made from, and have no leading zero. */
  lemma {:induction false} DecimalRoundTrip(n: nat)
    ensures DecimalValue(Decimal(n)) == n
    ensures n > 0 ==> Decimal(n)[0] != '0'
  {
    if n >= 10 {
      DecimalRoundTrip(n / 10);
      var d := Decimal(n / 10);
      assert (d + [('0' as int + n % 10) as char])[..|d|] == d;
    }
  }

  /** The dialog Ui::ToggleSelectAll shows once it has selected n messages. */
  function SelectedAllMessage(n: nat): string
  {
    "Selected all " + Decimal(n) + " messages"
  }
}
