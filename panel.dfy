/** The state the table-of-contents panel keeps between polls: the blocks of
    the current page and the id of the highlighted header, with the two rules
    that change the highlight (a poll and a click). */
module Panel {

  import opened Blocks
  import opened Selection

  class TocPanel {
    var subBlocks: seq<Block>
    var selectedHeaderId: string

    /** Both start empty, as the component's initial state does. */
    constructor ()
      ensures subBlocks == [] && selectedHeaderId == ""
    {
      subBlocks := [];
      selectedHeaderId := "";
    }

    /** One poll, once the host has returned the page's blocks and the
        selection: the blocks are replaced, and the highlight moves only when
        the locator found a header; a "" result keeps the previous highlight. */
    method Refresh(pageBlocks: seq<Block>, selectedIds: seq<string>)
      modifies this
      ensures subBlocks == pageBlocks
      ensures var located := IdOf(pageBlocks, Locate(pageBlocks, selectedIds));
        selectedHeaderId == if located != "" then located else old(selectedHeaderId)
    {
      subBlocks := pageBlocks;
      var located := LocateSelectedHeader(pageBlocks, selectedIds);
      if located != "" {
        selectedHeaderId := located;
      }
    }

    /** A click on an entry highlights it whatever was highlighted before. */
    method Click(b: Block)
      modifies this
      ensures selectedHeaderId == b.id
      ensures subBlocks == old(subBlocks)
    {
      selectedHeaderId := b.id;
    }
  }
}
