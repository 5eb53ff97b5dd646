/** The blocks of a Craft page as the outline view sees them, and the test that
    decides which of them are headers. */
module Blocks {

  import opened Wrappers

  /** The text style of a text block. Only the four header styles are told
      apart; every other style ("body", "caption", ...) is treated alike. */
  datatype TextStyle = Title | Subtitle | Heading | Strong | OtherStyle

  /** The state of a to-do item; OtherState stands for any value the host may
      send besides the three the view knows. */
  datatype TodoState = Unchecked | Checked | Canceled | OtherState

  /** The list style of a text block. A numbered item's ordinal may be absent. */
  datatype ListStyle =
    | NoList
    | Numbered(ordinal: Option<int>)
    | Bullet
    | Todo(state: TodoState)
    | Toggle

  /** One inline run of a text block's content. */
  datatype TextRun = TextRun(text: string)

  /** A block of the page: a text block with its styles and content, or a block
      of any other type, of which only the id matters here. */
  datatype Block =
    | TextBlock(id: string, textStyle: TextStyle, listStyle: ListStyle, content: seq<TextRun>)
    | OtherBlock(id: string)

  /** The styles that make a text block a header. */
  const HeaderStyles: set<TextStyle> := {Title, Subtitle, Heading, Strong}

  /** A block is a header when it is a text block whose style is one of the
      four header styles. */
  predicate IsHeader(b: Block)
    ensures IsHeader(b) ==> b.TextBlock?
  {
    b.TextBlock? && b.textStyle in HeaderStyles
  }

  /** Every block of another type is a non-header, and a text block is a header
      exactly when its style is not one of the other styles. */
  lemma HeaderClassification(b: Block)
    ensures b.OtherBlock? ==> !IsHeader(b)
    ensures b.TextBlock? ==> (IsHeader(b) <==> b.textStyle != OtherStyle)
  {
  }
}
