/**
 * The livelexqt Document: livelex's document interface over a
 * QTextDocument. livelex collects the pending changes in the document
 * itself; the wrapper applies them to the QTextDocument.
 */
module LivelexDocument {
  import opened QtText
  import opened TextEdit

  class Document {
    const doc: TextDocument
    /** The changes livelex collected and not yet applied, sorted and not overlapping. */
    var changes: seq<Change>

    constructor (doc: TextDocument)
      ensures this.doc == doc && changes == []
    {
      this.doc := doc;
      changes := [];
    }

    /** __len__: characterCount() less the separator Qt keeps after the text, the length of the text. */
    function Len(): (n: nat)
      reads doc`text
      ensures n == |doc.text|
    {
      doc.CharacterCount() - 1
    }

    /**
     * _update_contents: the collected changes applied from the last to the
     * first, so that every change's offsets are those of the text before
     * the edit; the collected list itself is left to livelex.
     */
    method UpdateContents()
      requires ChangesOk(changes, |doc.text|)
      modifies doc`text
      ensures doc.text == Rebuild(old(doc.text), changes, 0)
      ensures |doc.text| == |old(doc.text)| - Removed(changes) + Added(changes)
    {
      ghost var before := doc.text;
      ApplyChanges(doc, changes);
      RebuildLength(before, changes, 0);
    }

    /** _get_contents: what a cursor from end back to start selects, the text between them. */
    function GetContents(start: nat, end: nat): (s: string)
      reads doc`text
      requires start <= Len() && end <= Len()
      ensures start <= end ==> s == doc.text[start..end]
      ensures end < start ==> s == doc.text[end..start]
    {
      SelectedText(doc.text, TextCursor(end, start))
    }

    /** contents_changed: nothing to do, the tree builder follows the QTextDocument itself. */
    method ContentsChanged(start: nat, removed: nat, added: nat)
      ensures doc.text == old(doc.text) && doc.layouts == old(doc.layouts) && changes == old(changes)
    {
    }
  }

  /**
   * After a single change is applied, the contents over the place it went to
   * are its text, and the contents before it are as they were.
   */
  lemma ChangeReadBack(text: string, c: Change)
    requires c.start <= c.end <= |text|
    ensures var after := Rebuild(text, [c], 0);
      && c.start + |c.text| <= |after|
      && after[c.start..c.start + |c.text|] == c.text
      && after[..c.start] == text[..c.start]
  {
    OneChange(text, c);
    InsertedSelected(text, TextCursor(c.end, c.start), c.text);
  }
}
