/** Which header contains the editor's selection: the part of
    `refreshSelectedBlock` that runs after the host has returned the selection.
    The selected header is the last header at or before the first selected
    block, in page order. */
module Selection {

  import opened Wrappers
  import opened Blocks

  /** `blocks.findIndex(x => x.id === id)`, with None for -1. */
  function FindIndex(blocks: seq<Block>, id: string): (r: Option<nat>)
    ensures r.Some? ==> r.value < |blocks| && blocks[r.value].id == id
    ensures r.Some? ==> forall i :: 0 <= i < r.value ==> blocks[i].id != id
    ensures r.None? ==> forall i :: 0 <= i < |blocks| ==> blocks[i].id != id
  {
    if |blocks| == 0 then None
    else if blocks[0].id == id then Some(0)
    else
      match FindIndex(blocks[1..], id)
      case None => None
      case Some(k) => Some(k + 1)
  }

  /** The index of the last header among the first n blocks, if any. */
  function LastHeader(blocks: seq<Block>, n: nat): (r: Option<nat>)
    requires n <= |blocks|
    ensures r.Some? ==> r.value < n && IsHeader(blocks[r.value])
    ensures r.Some? ==> forall i :: r.value < i < n ==> !IsHeader(blocks[i])
    ensures r.None? ==> forall i :: 0 <= i < n ==> !IsHeader(blocks[i])
  {
    if n == 0 then None
    else if IsHeader(blocks[n - 1]) then Some(n - 1)
    else LastHeader(blocks, n - 1)
  }

  /** The index of the header that contains the selection: none for an empty
      selection or one whose first block is not on the page; otherwise the last
      header up to and including the first selected block. */
  function Locate(blocks: seq<Block>, selectedIds: seq<string>): (r: Option<nat>)
    ensures |selectedIds| == 0 ==> r.None?
    ensures r.Some? ==> r.value < |blocks| && IsHeader(blocks[r.value])
  {
    if |selectedIds| == 0 then None
    else
      match FindIndex(blocks, selectedIds[0])
      case None => None
      case Some(k) => LastHeader(blocks, k + 1)
  }

  /** The id reported for a located header; "" when there is none. */
  function IdOf(blocks: seq<Block>, found: Option<nat>): string
  {
    if found.Some? && found.value < |blocks| then blocks[found.value].id else ""
  }

  /** j is the last header at or before index k. */
  ghost predicate IsLastHeaderUpTo(blocks: seq<Block>, j: nat, k: nat)
  {
    j <= k < |blocks| && IsHeader(blocks[j]) &&
    forall i :: j < i <= k ==> !IsHeader(blocks[i])
  }

  /** k is where the id first occurs in the blocks. */
  ghost predicate IsFirstIndexOf(blocks: seq<Block>, id: string, k: nat)
  {
    k < |blocks| && blocks[k].id == id &&
    forall i :: 0 <= i < k ==> blocks[i].id != id
  }

  /** The locator scan: walks the blocks up to and including the first
      selected one, remembering the id of the last header it passes. */
  method LocateSelectedHeader(subBlocks: seq<Block>, selectedIds: seq<string>)
    returns (headerId: string)
    ensures headerId == IdOf(subBlocks, Locate(subBlocks, selectedIds))
    ensures |selectedIds| == 0 ==> headerId == ""
    ensures |selectedIds| > 0 && (forall i :: 0 <= i < |subBlocks| ==> subBlocks[i].id != selectedIds[0])
      ==> headerId == ""
  {
    if |selectedIds| == 0 {
      return "";
    }
    var currentId := selectedIds[0];
    var found := FindIndex(subBlocks, currentId);
    if found.None? {
      return "";
    }
    var upTo := subBlocks[..found.value + 1];
    headerId := "";
    for i := 0 to |upTo|
      invariant headerId == IdOf(subBlocks, LastHeader(subBlocks, i))
    {
      if IsHeader(upTo[i]) {
        headerId := upTo[i].id;
      }
    }
  }

  /** When the first selected block is on the page at index k, the locator
      finds header j exactly when j is the last header at or before k. */
  lemma LocateIsLastHeader(blocks: seq<Block>, selectedIds: seq<string>, k: nat, j: nat)
    requires |selectedIds| > 0 && IsFirstIndexOf(blocks, selectedIds[0], k)
    ensures Locate(blocks, selectedIds) == Some(j) <==> IsLastHeaderUpTo(blocks, j, k)
  {
  }

  /** The locator finds nothing exactly when the selection is empty, its first
      block is not on the page, or no header precedes or is that block. */
  lemma LocateNone(blocks: seq<Block>, selectedIds: seq<string>)
    ensures Locate(blocks, selectedIds).None? <==>
      |selectedIds| == 0 ||
      (forall i :: 0 <= i < |blocks| ==> blocks[i].id != selectedIds[0]) ||
      (exists k :: IsFirstIndexOf(blocks, selectedIds[0], k) &&
        forall i :: 0 <= i <= k ==> !IsHeader(blocks[i]))
  {
    if |selectedIds| > 0 {
      var found := FindIndex(blocks, selectedIds[0]);
      if found.Some? {
        var k := found.value;
        assert IsFirstIndexOf(blocks, selectedIds[0], k);
      }
    }
  }

  /** A selected block that is itself a header is its own section. */
  lemma SelectedHeaderIsItsOwnSection(blocks: seq<Block>, selectedIds: seq<string>, k: nat)
    requires |selectedIds| > 0 && IsFirstIndexOf(blocks, selectedIds[0], k)
    requires IsHeader(blocks[k])
    ensures Locate(blocks, selectedIds) == Some(k)
  {
    LocateIsLastHeader(blocks, selectedIds, k, k);
  }

  /** When no block has the empty id, the locator's result is "" exactly when
      it found no header; otherwise it is the id of a header on the page. */
  lemma LocatedIdNonEmpty(blocks: seq<Block>, selectedIds: seq<string>)
    requires forall i :: 0 <= i < |blocks| ==> blocks[i].id != ""
    ensures var id := IdOf(blocks, Locate(blocks, selectedIds));
      (id == "" <==> Locate(blocks, selectedIds).None?) &&
      (id != "" ==> exists j :: 0 <= j < |blocks| && IsHeader(blocks[j]) && blocks[j].id == id)
  {
  }
}
