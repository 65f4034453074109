/**
 * The HTML parser's own string helpers and its tag scanner: lower-casing,
 * trimming, the tag name of an opening tag, the styles a tag asks for, and
 * ParseElement, which reads one element at a time while the parse loop
 * splits a document into elements and runs of text.
 */
module HtmlText {
  import opened MailTypes

  /** A std::string of the parser; each char stands for one byte. */
  type Text = string

  /** pat starts at position k of s. */
  predicate OccursAt(s: Text, pat: Text, k: int)
  {
    0 <= k && k + |pat| <= |s| && s[k..k + |pat|] == pat
  }

  /** std::string::find(pat, from): the first position at or after from where pat starts. */
  function Find(s: Text, pat: Text, from: nat): (r: Option<nat>)
    ensures r.Some? ==> from <= r.value && OccursAt(s, pat, r.value)
    ensures r.Some? ==> forall k :: from <= k < r.value ==> !OccursAt(s, pat, k)
    ensures r.None? ==> forall k :: from <= k ==> !OccursAt(s, pat, k)
    decreases |s| - from
  {
    if from + |pat| > |s| then None
    else if s[from..from + |pat|] == pat then Some(from)
    else Find(s, pat, from + 1)
  }

  /** ::tolower in the C locale: only A to Z change. */
  function LowerChar(c: char): char
  {
    if 'A' <= c <= 'Z' then (c as int + 32) as char else c
  }

  /** HtmlParser::ToLower */
  function ToLower(s: Text): (r: Text)
    ensures |r| == |s|
    ensures forall i :: 0 <= i < |s| ==> r[i] == LowerChar(s[i])
  {
    seq(|s|, i requires 0 <= i < |s| => LowerChar(s[i]))
  }

  /** Lower-casing leaves no upper-case letter, changes nothing else, and a second pass changes nothing. */
  lemma ToLowerProperties(s: Text)
    ensures forall i :: 0 <= i < |s| ==> !('A' <= ToLower(s)[i] <= 'Z')
    ensures forall i :: 0 <= i < |s| && !('A' <= s[i] <= 'Z') ==> ToLower(s)[i] == s[i]
    ensures ToLower(ToLower(s)) == ToLower(s)
  {
  }

  /** The characters Trim strips. */
  predicate IsTrimSpace(c: char)
  {
    c == ' ' || c == '\t' || c == '\n' || c == '\r'
  }

  /** find_first_not_of(" \t\n\r"), with |s| for npos. */
  function FirstNotSpace(s: Text): (i: nat)
    ensures i <= |s|
    ensures forall k :: 0 <= k < i ==> IsTrimSpace(s[k])
    ensures i < |s| ==> !IsTrimSpace(s[i])
  {
    if |s| == 0 || !IsTrimSpace(s[0]) then 0 else 1 + FirstNotSpace(s[1..])
  }

  /** find_last_not_of(" \t\n\r"), with -1 for npos. */
  function LastNotSpace(s: Text): (j: int)
    ensures -1 <= j < |s|
    ensures forall k :: j < k < |s| ==> IsTrimSpace(s[k])
    ensures j >= 0 ==> !IsTrimSpace(s[j])
  {
    if |s| == 0 then -1
    else if !IsTrimSpace(s[|s| - 1]) then |s| - 1
    else LastNotSpace(s[..|s| - 1])
  }

  /** HtmlParser::Trim */
  function Trim(s: Text): (r: Text)
    ensures r == [] <==> forall k :: 0 <= k < |s| ==> IsTrimSpace(s[k])
    ensures r != [] ==> !IsTrimSpace(r[0]) && !IsTrimSpace(r[|r| - 1])
    ensures r != [] ==> OccursAt(s, r, FirstNotSpace(s))
    ensures forall k :: 0 <= k < FirstNotSpace(s) ==> IsTrimSpace(s[k])
    ensures r != [] ==> forall k :: FirstNotSpace(s) + |r| <= k < |s| ==> IsTrimSpace(s[k])
  {
    var start := FirstNotSpace(s);
    if start == |s| then ""
    else
      var end := LastNotSpace(s);
      s[start..end + 1]
  }

  /** Trimming twice trims nothing more. */
  lemma TrimIdempotent(s: Text)
    ensures Trim(Trim(s)) == Trim(s)
  {
    var t := Trim(s);
    if t != [] {
      assert FirstNotSpace(t) == 0;
      assert LastNotSpace(t) == |t| - 1 by {
        if |t| > 0 {
          assert t[..|t| - 1] + [t[|t| - 1]] == t;
        }
      }
    }
  }

  /** The position of the first c in s, or |s|. */
  function FirstOf(s: Text, c: char): (i: nat)
    ensures i <= |s| && (i < |s| ==> s[i] == c)
    ensures forall k :: 0 <= k < i ==> s[k] != c
  {
    match Find(s, [c], 0)
    case None =>
      assert forall k :: 0 <= k < |s| ==> s[k] != c by {
        forall k | 0 <= k < |s|
          ensures s[k] != c
        {
          assert !OccursAt(s, [c], k);
          assert s[k..k + 1] == [s[k]];
        }
      }
      |s|
    case Some(i) =>
      assert forall k :: 0 <= k < i ==> s[k] != c by {
        forall k | 0 <= k < i
          ensures s[k] != c
        {
          assert !OccursAt(s, [c], k);
          assert s[k..k + 1] == [s[k]];
        }
      }
      assert s[i..i + 1] == [s[i]];
      i
  }

  /**
   * HtmlParser::ExtractTagName: the part of the tag before its first space
   * or '/', lower-cased. The name of a closing tag such as "/p" is empty.
   */
  function ExtractTagName(tagString: Text): (r: Text)
    ensures |r| <= |tagString|
    ensures forall k :: 0 <= k < |r| ==> r[k] == LowerChar(tagString[k]) && tagString[k] != ' ' && tagString[k] != '/'
    ensures |r| < |tagString| ==> tagString[|r|] == ' ' || tagString[|r|] == '/'
  {
    var space, slash := FirstOf(tagString, ' '), FirstOf(tagString, '/');
    var end := if space < slash then space else slash;
    ToLower(tagString[..end])
  }

  /** The tag name does not depend on the case the tag was written in. */
  lemma TagNameIgnoresCase(tagString: Text)
    ensures ExtractTagName(ToLower(tagString)) == ExtractTagName(tagString)
  {
  }

  /** The closing tag's name is empty, so it never matches an opening tag's name. */
  lemma ClosingTagNameEmpty(name: Text)
    ensures ExtractTagName("/" + name) == ""
  {
  }

  /** HtmlParser::ShouldBeBold, ShouldBeItalic and ShouldBeUnderlined: membership in the parser's tag tables. */
  predicate ShouldBeBold(tag: Text)
  {
    tag in {"b", "strong", "h1", "h2", "h3", "h4", "h5", "h6"}
  }

  predicate ShouldBeItalic(tag: Text)
  {
    tag in {"i", "em", "cite", "var"}
  }

  predicate ShouldBeUnderlined(tag: Text)
  {
    tag in {"u", "ins"}
  }

  /** No tag asks for two styles, and however an opening tag is cased and whatever attributes it has, its style is the same. */
  lemma StylesExclusive(tag: Text, tagString: Text)
    ensures !(ShouldBeBold(tag) && ShouldBeItalic(tag))
    ensures !(ShouldBeBold(tag) && ShouldBeUnderlined(tag))
    ensures !(ShouldBeItalic(tag) && ShouldBeUnderlined(tag))
    ensures ShouldBeBold(ExtractTagName(ToLower(tagString))) == ShouldBeBold(ExtractTagName(tagString))
  {
    TagNameIgnoresCase(tagString);
  }

  /** HtmlElement, without the attributes (which a regular expression extracts). */
  datatype HtmlElement = HtmlElement(tag: Text, content: Text)

  const EmptyElement := HtmlElement("", "")

  /** The tags ParseElement reads no content for. */
  predicate IsVoidTag(tag: Text)
  {
    tag in {"br", "hr", "img", "input", "meta", "link"}
  }

  /** What ParseElement returns, or that it reached `back()` of an empty tag string ("<>"), which is undefined. */
  datatype ParseOutcome = Parsed(element: HtmlElement, position: nat) | EmptyTagString

  /**
   * HtmlParser::ParseElement: at a '<', read the tag up to the first '>',
   * then, unless the tag closes itself, the content up to the first
   * matching closing tag (or to the end).
   */
  method ParseElement(html: Text, position: nat) returns (r: ParseOutcome)
    ensures !(position < |html| && html[position] == '<') ==> r == Parsed(EmptyElement, position)
    ensures r == EmptyTagString <==> position + 1 < |html| && html[position] == '<' && html[position + 1] == '>'
    ensures position < |html| && html[position] == '<' && r.Parsed? ==>
      position < r.position <= |html| && (r.position == |html| || html[r.position - 1] == '>')
    ensures r.Parsed? && !IsVoidTag(r.element.tag) ==>
      forall k :: 0 <= k < |r.element.content| ==> !OccursAt(r.element.content, "</" + r.element.tag + ">", k)
    ensures position < |html| && html[position] == '<' && Find(html, ">", position).None? ==> r == Parsed(EmptyElement, |html|)
    ensures position < |html| && html[position] == '<' && Find(html, ">", position).Some? && r.Parsed? ==>
      var e := Find(html, ">", position).value;
      position + 1 < e && r.element.tag == ExtractTagName(html[position + 1..e]) &&
      if html[e - 1] == '/' || IsVoidTag(r.element.tag) then r.element.content == "" && r.position == e + 1
      else ContentUpToClose(html, r.element.tag, e + 1, r.element.content, r.position)
  {
    if position >= |html| || html[position] != '<' {
      return Parsed(EmptyElement, position);
    }
    var tagEnd := Find(html, ">", position);
    if tagEnd.None? {
      if position + 1 < |html| {
        OneCharOccurs(html, position + 1, '>');
      }
      return Parsed(EmptyElement, |html|);
    }
    var e := tagEnd.value;
    GreaterAt(html, position, e);
    var tagString := html[position + 1..e];
    if |tagString| == 0 {
      return EmptyTagString;
    }
    var tag := ExtractTagName(tagString);
    if tagString[|tagString| - 1] == '/' || IsVoidTag(tag) {
      return Parsed(HtmlElement(tag, ""), e + 1);
    }
    var content, q := ReadContent(html, tag, e + 1);
    r := Parsed(HtmlElement(tag, content), q);
  }

  /**
   * content is the text of html from p up to the first closing tag for tag
   * starting at or after p, and q is just past that closing tag; with no
   * such closing tag, content is the rest of html and q its end.
   */
  predicate ContentUpToClose(html: Text, tag: Text, p: nat, content: Text, q: nat)
  {
    var c := p + |content|;
    c <= |html| && content == html[p..c] &&
    (forall k :: p <= k < c ==> !OccursAt(html, "</" + tag + ">", k)) &&
    (c < |html| ==> OccursAt(html, "</" + tag + ">", c) && q == c + |tag| + 3) &&
    (c == |html| ==> q == |html|)
  }

  /** The content and the position after it are determined by the text, the tag and the start. */
  lemma ContentUpToCloseUnique(html: Text, tag: Text, p: nat, c1: Text, q1: nat, c2: Text, q2: nat)
    requires ContentUpToClose(html, tag, p, c1, q1) && ContentUpToClose(html, tag, p, c2, q2)
    ensures c1 == c2 && q1 == q2
  {
    var closing := "</" + tag + ">";
    assert p + |c1| < p + |c2| ==> OccursAt(html, closing, p + |c1|);
    assert p + |c2| < p + |c1| ==> OccursAt(html, closing, p + |c2|);
  }

  /** The second half of ParseElement: the content up to the first closing tag for tag, and the position past that tag (or the end). */
  method ReadContent(html: Text, tag: Text, p: nat) returns (content: Text, q: nat)
    requires p <= |html|
    ensures p <= q <= |html| && (q == |html| || (0 < q && html[q - 1] == '>'))
    ensures forall k :: 0 <= k < |content| ==> !OccursAt(content, "</" + tag + ">", k)
    ensures ContentUpToClose(html, tag, p, content, q)
  {
    var closingTag := "</" + tag + ">";
    var closingPos := Find(html, closingTag, p);
    var c := if closingPos.None? then |html| else closingPos.value;
    NotInSlice(html, closingTag, p, c);
    content := html[p..c];
    if closingPos.None? {
      q := |html|;
    } else {
      assert html[c + |closingTag| - 1] == html[c..c + |closingTag|][|closingTag| - 1];
      q := c + |closingTag|;
    }
  }

  /** A one-character text occurs exactly where that character is. */
  lemma OneCharOccurs(s: Text, k: nat, c: char)
    requires k < |s|
    ensures OccursAt(s, [c], k) <==> s[k] == c
  {
    assert s[k..k + 1] == [s[k]];
  }

  /** The first '>' at or after a '<' closes an empty tag exactly when it comes right after the '<'. */
  lemma GreaterAt(html: Text, position: nat, e: nat)
    requires position < |html| && html[position] == '<'
    requires OccursAt(html, ">", e) && position <= e
    requires forall k :: position <= k < e ==> !OccursAt(html, ">", k)
    ensures position < e && html[e] == '>'
    ensures e == position + 1 <==> position + 1 < |html| && html[position + 1] == '>'
  {
    OneCharOccurs(html, e, '>');
    OneCharOccurs(html, position, '>');
    if position + 1 < |html| {
      OneCharOccurs(html, position + 1, '>');
    }
  }

  /** No occurrence starting in [p, c) of a text is an occurrence in its slice html[p..c]. */
  lemma NotInSlice(html: Text, pat: Text, p: nat, c: nat)
    requires p <= c <= |html|
    requires forall k :: p <= k < c ==> !OccursAt(html, pat, k)
    ensures forall k :: 0 <= k < c - p ==> !OccursAt(html[p..c], pat, k)
  {
    forall k | 0 <= k < c - p
      ensures !OccursAt(html[p..c], pat, k)
    {
      assert !OccursAt(html, pat, p + k);
      if k + |pat| <= c - p {
        var a, b := html[p..c][k..k + |pat|], html[p + k..p + k + |pat|];
        assert forall t :: 0 <= t < |pat| ==> a[t] == b[t];
        assert a == b;
      }
    }
  }

  /** What the parse loop produces: elements and the runs of text between them. */
  datatype Token = ElementToken(element: HtmlElement) | TextToken(text: Text)

  /**
   * The parse loop of HtmlParser::ParseHtmlToTerminal, after its regular
   * expression clean-up: at a '<' read an element, elsewhere read text up
   * to the next '<'. It ends because every step moves forward; it fails
   * (None) only where the document holds an empty tag "<>".
   */
  method Tokenize(html: Text) returns (tokens: Option<seq<Token>>)
    ensures tokens.Some? ==> |tokens.value| <= |html|
    ensures tokens.Some? ==> forall i :: 0 <= i < |tokens.value| && tokens.value[i].TextToken? ==>
      tokens.value[i].text != [] && forall k :: 0 <= k < |tokens.value[i].text| ==> tokens.value[i].text[k] != '<'
    ensures tokens.None? ==> exists k :: 0 <= k < |html| - 1 && html[k] == '<' && html[k + 1] == '>'
  {
    var position := 0;
    var result: seq<Token> := [];
    while position < |html|
      invariant position <= |html| && |result| <= position
      invariant forall i :: 0 <= i < |result| && result[i].TextToken? ==>
        result[i].text != [] && forall k :: 0 <= k < |result[i].text| ==> result[i].text[k] != '<'
      decreases |html| - position
    {
      if html[position] == '<' {
        var r := ParseElement(html, position);
        if r.EmptyTagString? {
          return None;
        }
        result := result + [ElementToken(r.element)];
        position := r.position;
      } else {
        var start := position;
        while position < |html| && html[position] != '<'
          invariant start < position <= |html| || position == start < |html|
          invariant forall k :: start <= k < position ==> html[k] != '<'
          decreases |html| - position
        {
          position := position + 1;
        }
        result := result + [TextToken(html[start..position])];
      }
    }
    return Some(result);
  }
}
