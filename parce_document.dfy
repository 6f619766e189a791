/**
 * The parceqt Document: parce's document interface over a QTextDocument.
 * The text is read from and written to the QTextDocument; lines are its
 * blocks.
 */
module ParceDocument {
  import opened Wrappers
  import opened QtText
  import opened TextEdit

  /** A parce cursor: a start and an end, None for the end of the document. */
  datatype Cursor = Cursor(start: nat, end: Option<nat>)

  /** The block start or end find_start_of_block and find_end_of_block look at: the block holding position, or the last block past the end. */
  function BlockFor(lens: seq<nat>, position: nat): (b: nat)
    requires ValidLengths(lens)
    ensures b < |lens|
  {
    match FindBlock(lens, position)
    case Some(b) => b
    case None => |lens| - 1
  }

  class Document {
    const doc: TextDocument

    constructor (doc: TextDocument)
      ensures this.doc == doc
    {
      this.doc := doc;
    }

    /** __len__: characterCount() less the separator Qt keeps after the text, the length of the text. */
    function Len(): (n: nat)
      reads doc`text
      ensures n == |doc.text|
    {
      doc.CharacterCount() - 1
    }

    /**
     * _update_text: the changes applied from the last to the first, so that
     * every change's offsets are those of the text before the edit.
     */
    method UpdateText(changes: seq<Change>)
      requires ChangesOk(changes, |doc.text|)
      modifies doc`text
      ensures doc.text == Rebuild(old(doc.text), changes, 0)
      ensures |doc.text| == |old(doc.text)| - Removed(changes) + Added(changes)
    {
      ghost var before := doc.text;
      ApplyChanges(doc, changes);
      RebuildLength(before, changes, 0);
    }

    /** _get_text: what a cursor from end back to start selects, the text between them. */
    function GetText(start: nat, end: nat): (s: string)
      reads doc`text
      requires start <= Len() && end <= Len()
      ensures start <= end ==> s == doc.text[start..end]
      ensures end < start ==> s == doc.text[end..start]
    {
      SelectedText(doc.text, TextCursor(end, start))
    }

    /** text_changed: nothing to do, the tree builder follows the QTextDocument itself. */
    method TextChanged(start: nat, removed: nat, added: nat)
      ensures doc.text == old(doc.text) && doc.layouts == old(doc.layouts)
    {
    }

    /**
     * find_start_of_block: the first offset of the line holding position,
     * of the last line for a position past the end.
     */
    function FindStartOfBlock(position: nat): (r: nat)
      reads doc`text
      ensures r <= Min(position, |doc.text|)
      ensures r == 0 || doc.text[r - 1] == '\n'
      ensures forall j :: r <= j < Min(position, |doc.text|) ==> doc.text[j] != '\n'
    {
      var lens := doc.Lengths();
      var b := BlockFor(lens, position);
      LineAround(doc.text, lens, position, b);
      BlockPos(lens, b)
    }

    /**
     * find_end_of_block: the last offset of the line holding position, of
     * the last line for a position past the end: the offset of its '\n',
     * or the end of the text.
     */
    function FindEndOfBlock(position: nat): (r: nat)
      reads doc`text
      ensures Min(position, |doc.text|) <= r <= |doc.text|
      ensures r == |doc.text| || doc.text[r] == '\n'
      ensures forall j :: Min(position, |doc.text|) <= j < r ==> doc.text[j] != '\n'
    {
      var lens := doc.Lengths();
      var b := BlockFor(lens, position);
      LineAround(doc.text, lens, position, b);
      BlockPos(lens, b) + lens[b] - 1
    }

    /** Cursor.textCursor: anchored at the cursor's end (the document end for None), positioned at its start. */
    function TextCursorOf(c: Cursor): (tc: TextCursor)
      reads doc`text
      requires c.start <= Len() && (c.end.Some? ==> c.end.value <= Len())
      ensures tc.anchor <= |doc.text| && tc.position <= |doc.text|
      ensures tc.position == c.start
      ensures c.end.None? ==> tc.anchor == |doc.text|
      ensures c.end.Some? ==> tc.anchor == c.end.value
    {
      TextCursor(if c.end.None? then Len() else c.end.value, c.start)
    }
  }

  /** The block for a position is the line that holds it, or the last line. */
  lemma LineAround(text: string, lens: seq<nat>, position: nat, b: nat)
    requires lens == BlockLengths(text) && ValidLengths(lens) && b == BlockFor(lens, position)
    ensures var p, q := BlockPos(lens, b), BlockPos(lens, b) + lens[b] - 1;
      && p <= Min(position, |text|) <= q <= |text|
      && (p == 0 || text[p - 1] == '\n')
      && (q == |text| || text[q] == '\n')
      && (forall j :: p <= j < q ==> text[j] != '\n')
  {
    ShapedAt(text, b);
    LineAroundIn(text, lens, position, b);
  }

  /** LineAround for any block lengths that split the text into its lines. */
  lemma LineAroundIn(text: string, lens: seq<nat>, position: nat, b: nat)
    requires ValidLengths(lens) && Total(lens) == |text| + 1 && b == BlockFor(lens, position)
    requires LineShaped(text, lens, b)
    ensures var p, q := BlockPos(lens, b), BlockPos(lens, b) + lens[b] - 1;
      && p <= Min(position, |text|) <= q <= |text|
      && (p == 0 || text[p - 1] == '\n')
      && (q == |text| || text[q] == '\n')
      && (forall j :: p <= j < q ==> text[j] != '\n')
  {
    LineFacts(text, lens, b);
    var p, q := BlockPos(lens, b), BlockPos(lens, b) + lens[b] - 1;
    if position < Total(lens) {
      assert FindBlock(lens, position) == Some(b);
      assert p <= position <= q;
    } else {
      assert b == |lens| - 1;
    }
  }

  /** Block b of a text's blocks is one of its lines, and the blocks add up to the text and its separator. */
  lemma ShapedAt(text: string, b: nat)
    requires b < |BlockLengths(text)|
    ensures Total(BlockLengths(text)) == |text| + 1
    ensures LineShaped(text, BlockLengths(text), b)
  {
    BlockShape(text);
  }

  /** What a line-shaped block says, spelled out. */
  lemma LineFacts(text: string, lens: seq<nat>, b: nat)
    requires ValidLengths(lens) && b < |lens| && LineShaped(text, lens, b)
    ensures var p, q := BlockPos(lens, b), BlockPos(lens, b) + lens[b] - 1;
      && p <= q <= |text|
      && (q == |text| <==> b == |lens| - 1)
      && (p == 0 || text[p - 1] == '\n')
      && (q == |text| || text[q] == '\n')
      && (forall j :: p <= j < q ==> text[j] != '\n')
  {
  }

  /** The start and the end of the line holding a position bound a stretch without '\n'. */
  lemma SameLine(d: Document, position: nat)
    ensures d.FindStartOfBlock(position) <= d.FindEndOfBlock(position)
    ensures forall j :: d.FindStartOfBlock(position) <= j < d.FindEndOfBlock(position) ==> d.doc.text[j] != '\n'
  {
    var lens := d.doc.Lengths();
    LineAround(d.doc.text, lens, position, BlockFor(lens, position));
  }

  /** A cursor selects what _get_text gives between its start and its end. */
  lemma CursorSelects(d: Document, c: Cursor)
    requires c.start <= d.Len() && (c.end.Some? ==> c.end.value <= d.Len())
    ensures SelectedText(d.doc.text, d.TextCursorOf(c)) == d.GetText(c.start, if c.end.None? then d.Len() else c.end.value)
  {
  }
}
