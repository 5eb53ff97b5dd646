# Table-of-contents logic of the Craft TOC extension, in Dafny

The extension shows a table of contents for the current Craft page. Each poll
does three things:

- it decides which blocks of the page are headers;
- it renders a label for each header;
- it works out which header contains the editor's selection, so that this header
  can be highlighted.

This project models that logic from `src/app.tsx` and proves what it promises:

- `Blocks`: the page's blocks (a text block with text style, list style and
  content runs, or a block of any other type) and the header test
  `getIsTextHeaderBlock`.
- `Labels`: the label renderer `getSubBlockText`. It builds the indentation in
  U+3000 ideographic spaces, then the list marker, then the content texts joined
  by ",".
- `Strings`: JavaScript's `join()` with its default "," separator, proved
  against `split(",")` as its inverse. It also holds the decimal rendering of the
  ordinal inside a template literal, proved against parsing it back.
- `Selection`: the scan in `refreshSelectedBlock` that finds the last header at
  or before the first selected block. The scan is a method with a loop
  invariant, proved against the specification function `Locate`.
- `Panel`: the panel's state, with two rules for the highlighted header id. A
  poll overwrites it only with a non-empty locator result. A click sets it
  unconditionally.

The host calls that produce the page and the selection become parameters. The
page comes from `getCurrentPage` and the selection from `getSelection`.

Two details of the code shape the model:

- `getSubBlockText` joins the runs with JavaScript's default "," separator
  (src/app.tsx:119).
- The locator reports "not found" as "". The panel therefore cannot tell a
  header with an empty id from no header (`LocatedIdNonEmpty` states what holds
  when every id is non-empty).

## Model

| member | source | states |
|---|---|---|
| Blocks.HeaderClassification | src/app.tsx:107-113 | a block of another type is never a header; a text block is a header exactly when its style is title, subtitle, heading or strong |
| Labels.HeaderIffShallowIndent | src/app.tsx:142-153 | the classifier and the renderer agree: a text block is a header exactly when its label gets fewer than four indentation units |
| Labels.NonTextLabel | src/app.tsx:115-117 | a block that is not a text block has the empty label |
| Blocks.IsHeader | src/app.tsx:107-113 | a header is always a text block; its full characterisation is in `HeaderClassification` and `HeaderIffShallowIndent` |
| Labels.IndentUnits | src/app.tsx:142-153 | at most four units, and four exactly for a style other than the header styles; the exact count per style is in `LabelIndentation` |
| Labels.Indent | src/app.tsx:142-153 | the indentation is IndentUnits copies of U+3000 and nothing else |
| Labels.ListPrefix | src/app.tsx:120-141 | a marker is empty or ends in one space; when it is empty and what it identifies are in `ListPrefixShape` and `PrefixIdentifiesListStyle` |
| Labels.ContentText | src/app.tsx:119 | no runs give "" and a single run gives its text unchanged; `ContentTextReadsBack` shows the joined text of at least one run holds every run |
| Labels.ContentTextReadsBack | src/app.tsx:119 | when there is at least one run and no run contains a comma, the joined content text splits back into the run texts, one per run and in order |
| Labels.Label | src/app.tsx:115-155 | a non-text block gets ""; a text block's label is at least its indentation plus its content text long; the layout is in `LabelLayout` and `LabelIndentation` |
| Labels.LabelLayout | src/app.tsx:119-153 | the label is the indentation, then the list marker, then the joined content text, and its length is the sum of the three |
| Labels.LabelIndentation | src/app.tsx:142-153 | the label starts with exactly k U+3000 characters when there is a list marker (k = 0, 1, 2, 3, 4 for title, subtitle, heading, strong, other); without a marker, the content's own leading U+3000 characters add to k |
| Labels.ListPrefixShape | src/app.tsx:120-141 | the marker is empty exactly for no list, a numbered item whose ordinal is absent or 0, and a to-do item in an unknown state; any other marker ends in one space and does not start with U+3000 |
| Labels.PrefixIdentifiesListStyle | src/app.tsx:120-141 | two list styles with the same non-empty marker are equal, down to the ordinal and the to-do state |
| Labels.CheckedHeadingExample | src/app.tsx:129-148 | a checked to-do at heading level reading "Buy milk" is labelled with two U+3000, "☑ " and the text |
| Labels.JoinedRunsExample | src/app.tsx:119-144 | a title numbered 2 with runs "a" and "b" is labelled "2. a,b" |
| Strings.JoinSplit | src/app.tsx:119 | splitting a string at its commas and joining the pieces with "," gives the string back |
| Strings.SplitJoin | src/app.tsx:119 | joining one or more comma-free texts with "," and splitting at the commas gives the texts back |
| Strings.Join | src/app.tsx:119 | the joined text is as long as all texts together plus one separator between each two neighbours; `JoinSplit` and `SplitJoin` make `Split` its inverse |
| Strings.NatToDecimal | src/app.tsx:123 | the decimal form of an ordinal is non-empty and made of digits only |
| Strings.NoLeadingZero | src/app.tsx:123 | the decimal form of an ordinal starts with '0' only for zero |
| Strings.IntToDecimal | src/app.tsx:123 | the text is non-empty and starts with a minus sign exactly for a negative ordinal; `IntToDecimalRoundTrip` fixes its value |
| Strings.IntToDecimalRoundTrip | src/app.tsx:123 | parsing the decimal form of an ordinal gives the ordinal back |
| Strings.IntToDecimalInjective | src/app.tsx:123 | different ordinals get different decimal forms |
| Selection.FindIndex | src/app.tsx:89-92 | the index found is the first block with the selected id; none means no block has that id |
| Selection.LastHeader | src/app.tsx:94-99 | the index found is a header before the bound with no header after it before the bound; none means no header before the bound |
| Selection.Locate | src/app.tsx:84-100 | an empty selection finds nothing, and whatever is found is a header on the page; `LocateIsLastHeader` and `LocateNone` pin it down in both directions |
| Selection.LocateSelectedHeader | src/app.tsx:84-100 | the scan returns the id of the header `Locate` finds; it returns "" for an empty selection and for a selected block that is not on the page |
| Selection.LocateIsLastHeader | src/app.tsx:94-100 | when the first selected block is first found at index k, the locator finds header j exactly when j is the last header at or before k |
| Selection.LocateNone | src/app.tsx:84-100 | the locator finds nothing exactly when the selection is empty, the selected block is not on the page, or no header is at or before it |
| Selection.SelectedHeaderIsItsOwnSection | src/app.tsx:95-97 | a selected block that is itself a header is the header found, because the scanned slice includes it |
| Selection.LocatedIdNonEmpty | src/app.tsx:94-100 | when no block has the empty id, the result is "" exactly when no header was found; otherwise it is the id of a header on the page |
| Panel.TocPanel.constructor | src/app.tsx:18-19 | the panel starts with no blocks and no highlighted header |
| Panel.TocPanel.Refresh | src/app.tsx:25-30 | a poll replaces the blocks; the highlight becomes the located header id when that is non-empty and is kept otherwise |
| Panel.TocPanel.Click | src/app.tsx:43-46 | a click highlights the clicked block whatever was highlighted before, and leaves the blocks alone |

## Left out

- The React component, its JSX list and `ReactDOM.render` (src/app.tsx:6-54, 157-159) are presentation. Only the two rules that change the highlighted id are modelled.
- The dark-mode listener and the `dark` body class (src/app.tsx:7-14, 56-64) are host callbacks and DOM side effects.
- The one-second `setInterval` polling and the async `refresh` (src/app.tsx:21-32) are timer plumbing. `TocPanel.Refresh` models one completed poll.
- The host calls `getCurrentPage`, `getSelection` and `openURL`, and the errors thrown when they fail (src/app.tsx:66-82, 103-105), are foreign calls. They become the parameters of `Refresh` and `LocateSelectedHeader`. A failed `getCurrentPage` ends the poll before any state changes. A failed `getSelection` throws only after the new blocks are stored (src/app.tsx:26-29), so the blocks are replaced and the highlight is kept: the state `Refresh(pageBlocks, [])` produces.
- The page title and page id (src/app.tsx:16-17, 26-27, 73-74) are not modelled. The heading is the constant "Contents" (src/app.tsx:36). `pageId` is never read. `pageTitle` is read only as the effect dependency at src/app.tsx:32, where a change re-runs `refresh` and starts another interval timer. Block `spaceId` only feeds the `openURL` link.
- Ordinals are modelled as optional integers. `NaN`, fractional ordinals and the exponent form JavaScript uses for magnitudes of 10^21 and above are not modelled.
- Lengths are counted in Unicode characters, not in UTF-16 code units. All the markers and U+3000 take one unit either way.
- Text styles other than the four header styles are one variant, because the code treats them all alike. Likewise, to-do states other than unchecked, checked and canceled are one variant.
