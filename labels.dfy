/** The table-of-contents label of a block (`getSubBlockText`): the indentation
    chosen by the text style, then the list-style marker, then the texts of the
    content runs joined by ",". */
module Labels {

  import opened Wrappers
  import opened Strings
  import opened Blocks

  /** U+3000 IDEOGRAPHIC SPACE, the unit of indentation. */
  const IdeographicSpace: char := '\U{3000}'

  const BulletMark: string := "\U{2022} "
  const ToggleMark: string := "\U{25B8} "
  const UncheckedMark: string := "\U{25A1} "
  const CheckedMark: string := "\U{2611} "
  const CanceledMark: string := "\U{2612} "

  /** How many indentation units a text style gets: none for a title, one to
      three for subtitle, heading and strong, four for any other style. */
  function IndentUnits(style: TextStyle): (n: nat)
    ensures n <= 4
    ensures n == 4 <==> style == OtherStyle
  {
    match style
    case Title => 0
    case Subtitle => 1
    case Heading => 2
    case Strong => 3
    case OtherStyle => 4
  }

  function Repeat(c: char, n: nat): (s: string)
    ensures |s| == n
    ensures forall i :: 0 <= i < n ==> s[i] == c
  {
    if n == 0 then "" else [c] + Repeat(c, n - 1)
  }

  function Indent(style: TextStyle): (s: string)
    ensures |s| == IndentUnits(style)
    ensures forall i :: 0 <= i < |s| ==> s[i] == IdeographicSpace
  {
    Repeat(IdeographicSpace, IndentUnits(style))
  }

  /** The marker put in front of the text for a list style. A numbered item is
      marked only when its ordinal is present and non-zero (JavaScript
      truthiness); a to-do item in an unknown state and a non-list block get
      no marker. */
  function ListPrefix(ls: ListStyle): (p: string)
    ensures p == "" || (|p| >= 2 && p[|p| - 1] == ' ')
  {
    match ls
    case NoList => ""
    case Numbered(ordinal) =>
      if ordinal.Some? && ordinal.value != 0 then IntToDecimal(ordinal.value) + ". " else ""
    case Bullet => BulletMark
    case Todo(state) =>
      (match state
       case Unchecked => UncheckedMark
       case Checked => CheckedMark
       case Canceled => CanceledMark
       case OtherState => "")
    case Toggle => ToggleMark
  }

  function Texts(content: seq<TextRun>): (texts: seq<string>)
    ensures |texts| == |content|
    ensures forall i :: 0 <= i < |content| ==> texts[i] == content[i].text
  {
    seq(|content|, i requires 0 <= i < |content| => content[i].text)
  }

  /** `content.map(x => x.text).join()`. */
  function ContentText(content: seq<TextRun>): (t: string)
    ensures |content| == 0 ==> t == ""
    ensures |content| == 1 ==> t == content[0].text
  {
    Join(Texts(content))
  }

  /** The label shown for a block in the table of contents. */
  function Label(b: Block): (r: string)
    ensures b.OtherBlock? ==> r == ""
    ensures b.TextBlock? ==> |r| >= IndentUnits(b.textStyle) + |ContentText(b.content)|
  {
    match b
    case OtherBlock(_) => ""
    case TextBlock(_, textStyle, listStyle, content) =>
      Indent(textStyle) + ListPrefix(listStyle) + ContentText(content)
  }

  /** The number of copies of U+3000 at the start of a string. */
  function LeadingSpaces(s: string): (n: nat)
    ensures n <= |s|
    ensures forall i :: 0 <= i < n ==> s[i] == IdeographicSpace
    ensures n < |s| ==> s[n] != IdeographicSpace
  {
    if |s| == 0 || s[0] != IdeographicSpace then 0 else 1 + LeadingSpaces(s[1..])
  }

  /** When there is at least one run and no run contains a comma, the joined
      content text splits back into the texts of the runs, one per run and in
      order. No runs give "", which splits into one empty piece. */
  lemma ContentTextReadsBack(content: seq<TextRun>)
    requires |content| >= 1
    requires forall i :: 0 <= i < |content| ==> NoComma(content[i].text)
    ensures Split(ContentText(content)) == Texts(content)
  {
    SplitJoin(Texts(content));
  }

  /** A block of any other type has the empty label. */
  lemma NonTextLabel(id: string)
    ensures Label(OtherBlock(id)) == ""
  {
  }

  /** The label of a text block is laid out as indentation, then marker, then
      content text: it is exactly as long as the three together, its first
      characters are the indentation units, the marker follows them, and it
      ends with the content text. */
  lemma LabelLayout(b: Block)
    requires b.TextBlock?
    ensures var k, p, t := IndentUnits(b.textStyle), ListPrefix(b.listStyle), ContentText(b.content);
      var r := Label(b);
      |r| == k + |p| + |t| &&
      (forall i :: 0 <= i < k ==> r[i] == IdeographicSpace) &&
      r[k..k + |p|] == p &&
      r[k + |p|..] == t
  {
  }

  /** The list prefix is empty exactly for a non-list block, a numbered item
      whose ordinal is absent or zero, and a to-do item in an unknown state;
      every non-empty prefix is a marker followed by one space, and never
      starts with U+3000. */
  lemma ListPrefixShape(ls: ListStyle)
    ensures ListPrefix(ls) == "" <==>
      ls.NoList? || (ls.Numbered? && (ls.ordinal == None || ls.ordinal == Some(0))) ||
      (ls.Todo? && ls.state == OtherState)
    ensures var p := ListPrefix(ls);
      p != "" ==> |p| >= 2 && p[|p| - 1] == ' ' && p[0] != IdeographicSpace
  {
  }

  /** A non-empty list prefix tells which list style the block has: two list
      styles with the same non-empty prefix are the same style, down to the
      ordinal and the to-do state. */
  lemma PrefixIdentifiesListStyle(a: ListStyle, b: ListStyle)
    requires ListPrefix(a) == ListPrefix(b) != ""
    ensures a == b
  {
    if a.Numbered? && b.Numbered? {
      var x, y := IntToDecimal(a.ordinal.value), IntToDecimal(b.ordinal.value);
      assert (x + ". ")[..|x|] == x;
      assert |x| == |y|;
      assert (y + ". ")[..|y|] == y;
      IntToDecimalInjective(a.ordinal.value, b.ordinal.value);
    }
  }

  lemma {:induction false} LeadingSpacesAfterIndent(n: nat, s: string)
    ensures LeadingSpaces(Repeat(IdeographicSpace, n) + s) == n + LeadingSpaces(s)
  {
    if n > 0 {
      var r := Repeat(IdeographicSpace, n) + s;
      assert r == [IdeographicSpace] + (Repeat(IdeographicSpace, n - 1) + s);
      assert r[1..] == Repeat(IdeographicSpace, n - 1) + s;
      LeadingSpacesAfterIndent(n - 1, s);
      assert LeadingSpaces(r) == 1 + LeadingSpaces(r[1..]);
    } else {
      assert Repeat(IdeographicSpace, n) + s == s;
    }
  }

  /** A label starts with exactly as many U+3000 as its style's indentation
      units when the block has a list marker; without one, the indentation is
      followed directly by the content text, whose own leading U+3000 add on. */
  lemma LabelIndentation(b: Block)
    requires b.TextBlock?
    ensures LeadingSpaces(Label(b)) ==
      IndentUnits(b.textStyle) +
      (if ListPrefix(b.listStyle) == "" then LeadingSpaces(ContentText(b.content)) else 0)
  {
    var p, t := ListPrefix(b.listStyle), ContentText(b.content);
    LeadingSpacesAfterIndent(IndentUnits(b.textStyle), p + t);
    assert Label(b) == Repeat(IdeographicSpace, IndentUnits(b.textStyle)) + (p + t);
    if p == "" {
      assert p + t == t;
    } else {
      ListPrefixShape(b.listStyle);
      assert (p + t)[0] == p[0];
    }
  }

  /** The renderer and the classifier agree: a text block is a header exactly
      when its label is indented by fewer than four units. */
  lemma HeaderIffShallowIndent(b: Block)
    requires b.TextBlock?
    ensures IsHeader(b) <==> IndentUnits(b.textStyle) < 4
  {
  }

  /** A to-do item checked off at heading level with the text "Buy milk"
      is listed as two indentation units, the checked box and the text. */
  lemma CheckedHeadingExample()
    ensures Label(TextBlock("b", Heading, Todo(Checked), [TextRun("Buy milk")]))
      == "\U{3000}\U{3000}\U{2611} Buy milk"
  {
  }

  /** Several content runs are separated by commas in the label. */
  lemma JoinedRunsExample()
    ensures Label(TextBlock("b", Title, Numbered(Some(2)), [TextRun("a"), TextRun("b")]))
      == "2. a,b"
  {
  }
}
