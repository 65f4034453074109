/**
 * The HTML parser's text rewriters: the replace-all loop, and the two
 * tables it is run with, named character entities and text emoticons.
 */
module HtmlRewrite {
  import opened MailTypes
  import opened HtmlText

  /**
   * Every occurrence of pat, left to right and not overlapping, replaced by
   * rep; the text a replacement puts in is never searched again.
   */
  function Replaced(t: Text, pat: Text, rep: Text): Text
    requires |pat| > 0
    decreases |t|
  {
    match Find(t, pat, 0)
    case None => t
    case Some(p) => t[..p] + rep + Replaced(t[p + |pat|..], pat, rep)
  }

  /**
   * The replace loop the parser writes with std::string::find and replace:
   * search from pos, replace, and go on searching after the replacement.
   */
  method ReplaceAll(s: Text, pat: Text, rep: Text) returns (result: Text)
    requires |pat| > 0
    ensures result == Replaced(s, pat, rep)
  {
    result := s;
    var pos: nat := 0;
    assert s[..0] + Replaced(s[0..], pat, rep) == Replaced(s, pat, rep) by {
      assert s[0..] == s;
    }
    while true
      invariant pos <= |result|
      invariant result[..pos] + Replaced(result[pos..], pat, rep) == Replaced(s, pat, rep)
      decreases |result| - pos
    {
      var found := Find(result, pat, pos);
      if found.None? {
        ReplacedNone(result, pat, rep, pos);
        return;
      }
      var p := found.value;
      ReplaceStep(result, pat, rep, pos, p);
      result := result[..p] + rep + result[p + |pat|..];
      pos := p + |rep|;
    }
  }

  /** An occurrence in a suffix is an occurrence in the whole, shifted. */
  lemma {:induction false} OccursShift(s: Text, pat: Text, pos: nat, k: int)
    requires pos <= |s|
    ensures OccursAt(s[pos..], pat, k) <==> k >= 0 && OccursAt(s, pat, pos + k)
  {
    if 0 <= k && k + |pat| <= |s| - pos {
      assert s[pos..][k..k + |pat|] == s[pos + k..pos + k + |pat|];
    }
  }

  /** Searching a suffix from its start is searching the whole from the suffix's position. */
  lemma {:induction false} FindShift(s: Text, pat: Text, pos: nat, from: nat)
    requires pos <= |s|
    ensures Find(s[pos..], pat, from) == match Find(s, pat, pos + from)
      case None => None
      case Some(p) => Some(p - pos)
    decreases |s| - pos - from
  {
    OccursShift(s, pat, pos, from);
    if from + |pat| <= |s| - pos {
      assert OccursAt(s[pos..], pat, from) <==> s[pos..][from..from + |pat|] == pat;
      assert OccursAt(s, pat, pos + from) <==> s[pos + from..pos + from + |pat|] == pat;
      if s[pos..][from..from + |pat|] != pat {
        FindShift(s, pat, pos, from + 1);
      }
    }
  }

  /** When the search from pos finds nothing, the rest of the text is already done. */
  lemma {:induction false} ReplacedNone(s: Text, pat: Text, rep: Text, pos: nat)
    requires |pat| > 0 && pos <= |s| && Find(s, pat, pos).None?
    ensures s[..pos] + Replaced(s[pos..], pat, rep) == s
  {
    FindShift(s, pat, pos, 0);
    assert s[..pos] + s[pos..] == s;
  }

  /** The reference from pos, when the search from pos finds pat at p. */
  lemma {:induction false} ReplacedAfter(s: Text, pat: Text, rep: Text, pos: nat, p: nat)
    requires |pat| > 0 && pos <= |s| && Find(s, pat, pos) == Some(p)
    ensures Replaced(s[pos..], pat, rep) == s[pos..p] + rep + Replaced(s[p + |pat|..], pat, rep)
  {
    FindShift(s, pat, pos, 0);
    ReplacedSplit(s, pat, rep, pos, p);
  }

  /** One step of the reference on a suffix, in the coordinates of the whole text. */
  lemma {:induction false} ReplacedSplit(s: Text, pat: Text, rep: Text, pos: nat, p: nat)
    requires |pat| > 0 && pos <= p && p + |pat| <= |s| && Find(s[pos..], pat, 0) == Some(p - pos)
    ensures Replaced(s[pos..], pat, rep) == s[pos..p] + rep + Replaced(s[p + |pat|..], pat, rep)
  {
    var t := s[pos..];
    ReplacedFound(t, pat, rep, p - pos);
    assert t[..p - pos] == s[pos..p];
    assert t[p - pos + |pat|..] == s[p + |pat|..];
  }

  /** One step of the reference: the text before the first occurrence, the replacement, and the rest replaced. */
  lemma ReplacedFound(t: Text, pat: Text, rep: Text, q: nat)
    requires |pat| > 0 && Find(t, pat, 0) == Some(q)
    ensures Replaced(t, pat, rep) == t[..q] + rep + Replaced(t[q + |pat|..], pat, rep)
  {
    ReplacedUnfolds(t, pat, rep, q);
  }

  /** The definition of the reference, unfolded once at the occurrence found. */
  lemma ReplacedUnfolds(t: Text, pat: Text, rep: Text, q: nat)
    requires |pat| > 0 && Find(t, pat, 0) == Some(q)
    ensures t[..Find(t, pat, 0).value] == t[..q]
    ensures Replaced(t, pat, rep) == t[..Find(t, pat, 0).value] + rep + Replaced(t[q + |pat|..], pat, rep)
  {
  }

  /**
   * One pass of the loop keeps its invariant: the text before the search
   * position is final, and the rest still needs the reference applied.
   */
  lemma {:induction false} ReplaceStep(s: Text, pat: Text, rep: Text, pos: nat, p: nat)
    requires |pat| > 0 && pos <= |s| && Find(s, pat, pos) == Some(p)
    ensures var s' := s[..p] + rep + s[p + |pat|..];
      && p + |rep| <= |s'|
      && s'[..p + |rep|] + Replaced(s'[p + |rep|..], pat, rep) == s[..pos] + Replaced(s[pos..], pat, rep)
  {
    ReplacedAfter(s, pat, rep, pos, p);
    ReplaceJoin(s, rep, pos, p, |pat|, Replaced(s[p + |pat|..], pat, rep));
  }

  /** The text around one replacement, as the loop cuts it and as the reference cuts it. */
  lemma {:induction false} ReplaceJoin(s: Text, rep: Text, pos: nat, p: nat, n: nat, rest: Text)
    requires pos <= p && p + n <= |s|
    ensures var s' := s[..p] + rep + s[p + n..];
      && p + |rep| <= |s'|
      && s'[p + |rep|..] == s[p + n..]
      && s'[..p + |rep|] + rest == s[..pos] + (s[pos..p] + rep + rest)
  {
    var s' := s[..p] + rep + s[p + n..];
    assert s'[..p + |rep|] == s[..p] + rep;
    assert s[..p] == s[..pos] + s[pos..p];
  }

  /** Text the pattern does not occur in is left as it is. */
  lemma {:induction false} ReplaceNothing(t: Text, pat: Text, rep: Text)
    requires |pat| > 0 && forall k :: !OccursAt(t, pat, k)
    ensures Replaced(t, pat, rep) == t
  {
  }

  /** Replacing a pattern by itself changes nothing. */
  lemma {:induction false} ReplaceBySelf(t: Text, pat: Text)
    requires |pat| > 0
    ensures Replaced(t, pat, pat) == t
    decreases |t|
  {
    match Find(t, pat, 0)
    case None =>
    case Some(p) =>
      ReplaceBySelf(t[p + |pat|..], pat);
      assert t[p..p + |pat|] == pat;
      assert t == t[..p] + t[p..p + |pat|] + t[p + |pat|..];
  }

  /** Every character of the result comes from the text or from a replacement. */
  lemma {:induction false} ReplacedChars(t: Text, pat: Text, rep: Text, c: char)
    requires |pat| > 0 && c in Replaced(t, pat, rep)
    ensures c in t || c in rep
    decreases |t|
  {
    match Find(t, pat, 0)
    case None =>
    case Some(p) =>
      var rest := Replaced(t[p + |pat|..], pat, rep);
      if c in t[..p] {
        assert c in t;
      } else if c !in rep {
        assert c in rest;
        ReplacedChars(t[p + |pat|..], pat, rep, c);
        assert c in t;
      }
  }

  /** A replacement table: pattern and replacement pairs. */
  type Table = seq<(Text, Text)>

  /** No pattern is empty (an empty one would make the replace loop run forever). */
  predicate Patterns(table: Table)
  {
    forall j :: 0 <= j < |table| ==> |table[j].0| > 0
  }

  /** The loops of ConvertHtmlEntities and ConvertEmojis: the replace loop run for each table entry in turn, from entry i on. */
  function ApplyFrom(s: Text, table: Table, i: nat): Text
    requires Patterns(table)
    decreases |table| - i
  {
    if i >= |table| then s
    else ApplyFrom(Replaced(s, table[i].0, table[i].1), table, i + 1)
  }

  /** The replacement loops over a table (std::map, so in key order). */
  method ApplyTable(s: Text, table: Table) returns (result: Text)
    requires Patterns(table)
    ensures result == ApplyFrom(s, table, 0)
  {
    result := s;
    var i := 0;
    while i < |table|
      invariant i <= |table|
      invariant ApplyFrom(result, table, i) == ApplyFrom(s, table, 0)
    {
      result := ReplaceAll(result, table[i].0, table[i].1);
      i := i + 1;
    }
  }

  /** An entry whose pattern does not occur changes nothing. */
  lemma {:induction false} SkipEntry(s: Text, table: Table, i: nat)
    requires Patterns(table)
    requires i < |table| && forall k :: !OccursAt(s, table[i].0, k)
    ensures ApplyFrom(s, table, i) == ApplyFrom(s, table, i + 1)
  {
  }

  /** A text that contains no first character of any pattern passes through every entry unchanged. */
  lemma {:induction false} NoPatternStart(s: Text, table: Table, i: nat)
    requires Patterns(table)
    requires forall j, k :: 0 <= j < |table| && 0 <= k < |s| ==> s[k] != table[j].0[0]
    ensures ApplyFrom(s, table, i) == s
    decreases |table| - i
  {
    if i < |table| {
      forall k
        ensures !OccursAt(s, table[i].0, k)
      {
        var p := table[i].0;
        if 0 <= k && k + |p| <= |s| {
          assert s[k..k + |p|][0] == s[k];
          assert s[k] != p[0];
        }
      }
      NoPatternStart(s, table, i + 1);
    }
  }

  /** A text holding none of the characters the patterns start with passes the whole table unchanged. */
  lemma NoLeadChar(s: Text, table: Table, leads: set<char>)
    requires Patterns(table)
    requires forall j :: 0 <= j < |table| ==> table[j].0[0] in leads
    requires forall k :: 0 <= k < |s| ==> s[k] !in leads
    ensures ApplyFrom(s, table, 0) == s
  {
    NoPatternStart(s, table, 0);
  }

  /** A text without the one character all patterns start with passes the whole table unchanged. */
  lemma OneLeadChar(s: Text, table: Table, lead: char)
    requires Patterns(table)
    requires forall j :: 0 <= j < |table| ==> table[j].0[0] == lead
    requires forall k :: 0 <= k < |s| ==> s[k] != lead
    ensures ApplyFrom(s, table, 0) == s
  {
    NoPatternStart(s, table, 0);
  }

  /** HtmlParser::s_htmlEntities, in key order. */
  function EntityTable(): (t: Table)
    ensures Patterns(t)
    ensures forall j :: 0 <= j < |t| ==> |t[j].0| >= 4 && t[j].0[0] == '&' && t[j].0[|t[j].0| - 1] == ';'
    ensures forall j :: 0 <= j < |t| && j != 4 && j != 9 ==> |t[j].0| >= 5
  {
    [
    ("&amp;", "&"),
    ("&apos;", "'"),
    ("&bull;", "*"),
    ("&copy;", "(c)"),
    ("&gt;", ">"),
    ("&hellip;", "..."),
    ("&laquo;", "<<"),
    ("&ldquo;", "\""),
    ("&lsquo;", "'"),
    ("&lt;", "<"),
    ("&mdash;", "--"),
    ("&middot;", "."),
    ("&nbsp;", " "),
    ("&ndash;", "-"),
    ("&quot;", "\""),
    ("&raquo;", ">>"),
    ("&rdquo;", "\""),
    ("&reg;", "(R)"),
    ("&rsquo;", "'"),
    ("&sect;", "\U{C2}\U{A7}"),
    ("&trade;", "(TM)")]
  }

  /** HtmlParser::s_emojiMap, in key order (each replacement is its UTF-8 bytes). */
  function EmojiTable(): (t: Table)
    ensures Patterns(t)
    ensures forall j :: 0 <= j < |t| ==> t[j].0[0] in {':', ';', '<'}
  {
    [
    (":(", "\U{F0}\U{9F}\U{99}\U{81}"),
    (":)", "\U{F0}\U{9F}\U{99}\U{82}"),
    (":D", "\U{F0}\U{9F}\U{98}\U{80}"),
    (":P", "\U{F0}\U{9F}\U{98}\U{9B}"),
    (":check:", "\U{E2}\U{9C}\U{85}"),
    (":file:", "\U{F0}\U{9F}\U{93}\U{84}"),
    (":heart:", "\U{E2}\U{9D}\U{A4}"),
    (":image:", "\U{F0}\U{9F}\U{96}\U{BC}"),
    (":info:", "\U{E2}\U{84}\U{B9}"),
    (":link:", "\U{F0}\U{9F}\U{94}\U{97}"),
    (":mail:", "\U{F0}\U{9F}\U{93}\U{A7}"),
    (":star:", "\U{E2}\U{AD}\U{90}"),
    (":warning:", "\U{E2}\U{9A}\U{A0}"),
    (":x:", "\U{E2}\U{9D}\U{8C}"),
    (";)", "\U{F0}\U{9F}\U{98}\U{89}"),
    ("</3", "\U{F0}\U{9F}\U{92}\U{94}"),
    ("<3", "\U{E2}\U{9D}\U{A4}")]
  }

  /** The named-entity loop of HtmlParser::ConvertHtmlEntities, as written. */
  method ConvertNamedEntities(s: Text) returns (r: Text)
    ensures r == ApplyFrom(s, EntityTable(), 0)
  {
    r := ApplyTable(s, EntityTable());
  }

  /** HtmlParser::ConvertEmojis */
  method ConvertEmojis(s: Text) returns (r: Text)
    ensures r == ApplyFrom(s, EmojiTable(), 0)
    ensures (forall k :: 0 <= k < |s| ==> s[k] != ':' && s[k] != ';' && s[k] != '<') ==> r == s
  {
    r := ApplyTable(s, EmojiTable());
    if forall k :: 0 <= k < |s| ==> s[k] != ':' && s[k] != ';' && s[k] != '<' {
      NoLeadChar(s, EmojiTable(), {':', ';', '<'});
    }
  }

  /**
   * Text without '&' passes the entity loop unchanged, whatever else it
   * holds.
   */
  lemma NoAmpersandUnchanged(s: Text)
    requires forall k :: 0 <= k < |s| ==> s[k] != '&'
    ensures ApplyFrom(s, EntityTable(), 0) == s
  {
    OneLeadChar(s, EntityTable(), '&');
  }

  /** No entity name holds a ';' before its last character, so an entity ends at the first ';' after its '&'. */
  function EntityLookup(token: Text, i: nat): (r: Option<Text>)
    decreases |EntityTable()| - i
  {
    if i >= |EntityTable()| then None
    else if EntityTable()[i].0 == token then Some(EntityTable()[i].1)
    else EntityLookup(token, i + 1)
  }

  /**
   * Entity decoding that reads the input once: at each '&' the text up to
   * the first ';' is looked up, and a decoded entity's replacement is never
   * read again.
   */
  function DecodeOnce(s: Text): Text
    decreases |s|
  {
    if |s| == 0 then ""
    else if s[0] == '&' then
      var j := FirstOf(s, ';');
      if j < |s| && EntityLookup(s[..j + 1], 0).Some? then
        EntityLookup(s[..j + 1], 0).value + DecodeOnce(s[j + 1..])
      else "&" + DecodeOnce(s[1..])
    else [s[0]] + DecodeOnce(s[1..])
  }

  /** Escaping for display as HTML text: every '&' written as "&amp;". */
  function Escape(s: Text): (r: Text)
    ensures forall k :: 0 <= k < |s| && s[k] != '&' ==> s[k] in r
  {
    if |s| == 0 then ""
    else (if s[0] == '&' then "&amp;" else [s[0]]) + Escape(s[1..])
  }

  /** Decoding escaped text gives back the text, whatever entities it spells out. */
  lemma {:induction false} DecodeEscape(s: Text)
    ensures DecodeOnce(Escape(s)) == s
  {
    if |s| > 0 {
      DecodeEscape(s[1..]);
      var rest := Escape(s[1..]);
      if s[0] == '&' {
        var e := "&amp;" + rest;
        assert Escape(s) == e;
        assert e[..5] == "&amp;" && e[5..] == rest;
        assert e[0] == '&' && e[1] == 'a' && e[2] == 'm' && e[3] == 'p' && e[4] == ';';
        assert FirstOf(e, ';') == 4;
        assert EntityLookup("&amp;", 0) == Some("&");
      } else {
        var e := [s[0]] + rest;
        assert Escape(s) == e && e[1..] == rest;
      }
      assert s == [s[0]] + s[1..];
    }
  }

  /** "&lt;" written as HTML text. */
  lemma EscapedLessThan()
    ensures Escape("&lt;") == "&amp;lt;"
  {
    assert "&lt;"[1..] == "lt;" && "lt;"[1..] == "t;" && "t;"[1..] == ";";
  }

  /**
   * The entity loop as written decodes "&amp;lt;" twice: the "&amp;" pass
   * leaves "&lt;", which the later "&lt;" pass turns into "<". Decoding
   * once gives the "&lt;" the author of the HTML wrote.
   */
  lemma EntityDecodedTwice()
    ensures ApplyFrom("&amp;lt;", EntityTable(), 0) == "<"
    ensures DecodeOnce("&amp;lt;") == "&lt;"
  {
    EscapedLessThan();
    DecodeEscape("&lt;");
    AmpPass();
    MiddlePasses();
    LtPass();
    TailPasses();
  }

  /** The first entry, "&amp;", turns "&amp;lt;" into "&lt;". */
  lemma AmpPass()
    ensures ApplyFrom("&amp;lt;", EntityTable(), 0) == ApplyFrom("&lt;", EntityTable(), 1)
  {
    var s0: Text := "&amp;lt;";
    assert EntityTable()[0] == ("&amp;", "&");
    assert Find(s0, "&amp;", 0) == Some(0) by {
      assert s0[0..5] == "&amp;";
    }
    assert s0[..0] + "&" + s0[5..] == "&lt;";
    assert Replaced(s0, "&amp;", "&") == "&lt;";
  }

  /** The entries from "&apos;" to "&lsquo;" do not occur in "&lt;". */
  lemma MiddlePasses()
    ensures ApplyFrom("&lt;", EntityTable(), 1) == ApplyFrom("&lt;", EntityTable(), 9)
  {
    SkipRange("&lt;", EntityTable(), 1, 4, 5);
    GtSkip();
    SkipRange("&lt;", EntityTable(), 5, 9, 5);
  }

  /** "&gt;" has the length of "&lt;" but does not occur in it. */
  lemma GtSkip()
    ensures ApplyFrom("&lt;", EntityTable(), 4) == ApplyFrom("&lt;", EntityTable(), 5)
  {
    var s1: Text := "&lt;";
    assert EntityTable()[4].0 == "&gt;";
    assert s1[0..4][1] != "&gt;"[1];
    assert forall k :: !OccursAt(s1, "&gt;", k);
    SkipEntry(s1, EntityTable(), 4);
  }

  /** The "&lt;" entry turns "&lt;" into "<". */
  lemma LtPass()
    ensures ApplyFrom("&lt;", EntityTable(), 9) == ApplyFrom("<", EntityTable(), 10)
  {
    var s1: Text := "&lt;";
    assert EntityTable()[9] == ("&lt;", "<");
    assert Find(s1, "&lt;", 0) == Some(0) by {
      assert s1[0..4] == "&lt;";
    }
    assert s1[..0] + "<" + s1[4..] == "<";
    assert Replaced(s1, "&lt;", "<") == "<";
  }

  /** No later entry occurs in "<". */
  lemma TailPasses()
    ensures ApplyFrom("<", EntityTable(), 10) == "<"
  {
    SkipRange("<", EntityTable(), 10, |EntityTable()|, 4);
  }

  /** Entries longer than the text cannot occur in it, so a run of them leaves it unchanged. */
  lemma {:induction false} SkipRange(s: Text, table: Table, i: nat, j: nat, n: nat)
    requires Patterns(table)
    requires i <= j <= |table| && |s| < n
    requires forall k :: i <= k < j ==> |table[k].0| >= n
    ensures ApplyFrom(s, table, i) == ApplyFrom(s, table, j)
    decreases j - i
  {
    if i < j {
      SkipLong(s, table, i);
      SkipRange(s, table, i + 1, j, n);
    }
  }

  /** A pattern longer than the text cannot occur in it. */
  lemma SkipLong(s: Text, table: Table, i: nat)
    requires Patterns(table)
    requires i < |table| && |table[i].0| > |s|
    ensures ApplyFrom(s, table, i) == ApplyFrom(s, table, i + 1)
  {
    SkipEntry(s, table, i);
  }
}
