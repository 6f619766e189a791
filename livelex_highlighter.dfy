/**
 * The livelexqt SyntaxHighlighter: paints the tokens livelex finds for the
 * updated span onto the block layouts, one format per token action, and
 * keeps one highlighter per document.
 *
 * Whether an action lies within one of livelex's standard actions is decided
 * by livelex itself; an action here carries the set of standard actions it
 * lies within. The tokens of a span (tokens_range with adjacent equal
 * actions merged) are the oracle tokens(start, end).
 */
module LivelexHighlighter {
  import opened Wrappers
  import opened QtFormat
  import opened QtText
  import opened Painting

  /** The standard actions get_format looks at. */
  datatype StdAction = String | Name | Comment | Delimiter | Escape

  /** A token action, with the standard actions it lies within. */
  datatype Action = Action(name: string, within: set<StdAction>)

  /** A token of the tree: document positions [pos, end) and its action. */
  datatype Token = Token(pos: nat, end: nat, action: Action)

  /**
   * The foreground a format gets: Escape wins over every other colour,
   * Comment over String and Name, String over Name.
   */
  function ActionColor(a: Action): Option<Brush>
  {
    if Escape in a.within then Some(Global(DarkGreen))
    else if Comment in a.within then Some(Global(DarkGray))
    else if String in a.within then Some(Global(Red))
    else if Name in a.within then Some(Global(Blue))
    else None
  }

  /** The format of an action: its colour, italic for comments, bold for delimiters, nothing else. */
  function ActionFormat(a: Action): CharFormat
  {
    Empty.(foreground := ActionColor(a),
           italic := if Comment in a.within then Some(true) else None,
           weight := if Delimiter in a.within then Some(Bold) else None)
  }

  /** Builds the format for an action setting by setting, as get_format does. */
  method GetFormat(a: Action) returns (f: CharFormat)
    ensures f == ActionFormat(a)
  {
    f := Empty;
    if String in a.within {
      f := f.(foreground := Some(Global(Red)));
    } else if Name in a.within {
      f := f.(foreground := Some(Global(Blue)));
    }
    if Comment in a.within {
      f := f.(foreground := Some(Global(DarkGray)));
      f := f.(italic := Some(true));
    }
    if Delimiter in a.within {
      f := f.(weight := Some(Bold));
    }
    if Escape in a.within {
      f := f.(foreground := Some(Global(DarkGreen)));
    }
  }

  /** The precedence of the colours and the independence of italic and bold. */
  lemma FormatPrecedence(a: Action)
    ensures Escape in a.within ==> ActionFormat(a).foreground == Some(Global(DarkGreen))
    ensures Comment in a.within && Escape !in a.within ==> ActionFormat(a).foreground == Some(Global(DarkGray))
    ensures String in a.within && Comment !in a.within && Escape !in a.within ==> ActionFormat(a).foreground == Some(Global(Red))
    ensures ActionFormat(a).foreground == None <==>
      String !in a.within && Name !in a.within && Comment !in a.within && Escape !in a.within
    ensures (ActionFormat(a).italic == Some(true)) == (Comment in a.within)
    ensures (ActionFormat(a).weight == Some(Bold)) == (Delimiter in a.within)
    ensures ActionFormat(a).(foreground := None, italic := None, weight := None) == Empty
  {
  }

  /** The ranges to paint: each token with the format of its action. */
  function TokenRanges(ts: seq<Token>): (rs: seq<TextRange>)
    ensures |rs| == |ts|
    ensures forall i :: 0 <= i < |ts| ==> rs[i] == TextRange(ts[i].pos, ts[i].end, ActionFormat(ts[i].action))
  {
    if ts == [] then [] else [TextRange(ts[0].pos, ts[0].end, ActionFormat(ts[0].action))] + TokenRanges(ts[1..])
  }

  /** What livelex promises for any span: tokens inside it, ordered and not overlapping. */
  ghost predicate TokensOracle(tokens: (nat, nat) -> seq<Token>)
  {
    forall s: nat, e: nat :: RangesOk(TokenRanges(tokens(s, e)), s, e)
  }

  /**
   * The pass slot_updated makes for [start, end]: from the start of the
   * block holding start to the last position of the block holding end,
   * keeping none of the first block's formats.
   */
  function UpdatePass(lens: seq<nat>, start: nat, end: nat, tokens: (nat, nat) -> seq<Token>): (p: Pass)
    requires ValidLengths(lens) && start <= end < Total(lens)
    ensures p.lens == lens && p.first == BlockAt(lens, start) <= p.last == BlockAt(lens, end)
    ensures BlockPos(lens, p.first) <= start && end <= p.end == BlockEnd(lens, p.last) - 1
    ensures p.head == [] && p.ranges == TokenRanges(tokens(BlockPos(lens, p.first), p.end))
    ensures TokensOracle(tokens) ==> ValidPass(p)
  {
    var first := BlockAt(lens, start);
    var last := BlockAt(lens, end);
    BlockAtBefore(lens, start, last);
    BlockEndBefore(lens, last, |lens|);
    var e := BlockEnd(lens, last) - 1;
    Pass(lens, first, last, e, [], TokenRanges(tokens(BlockPos(lens, first), e)))
  }

  /** Maps each token to a range in the format get_format gives its action. */
  method FormatTokens(ts: seq<Token>) returns (rs: seq<TextRange>)
    ensures rs == TokenRanges(ts)
  {
    rs := [];
    var i := 0;
    while i < |ts|
      invariant i <= |ts| && |rs| == i
      invariant forall j :: 0 <= j < i ==> rs[j] == TextRange(ts[j].pos, ts[j].end, ActionFormat(ts[j].action))
    {
      var f := GetFormat(ts[i].action);
      rs := rs + [TextRange(ts[i].pos, ts[i].end, f)];
      i := i + 1;
    }
  }

  class SyntaxHighlighter {
    const doc: TextDocument

    /** Attaches to the document and, when the tree is there (hasRoot), paints the whole document. */
    constructor (doc: TextDocument, hasRoot: bool, tokens: (nat, nat) -> seq<Token>)
      requires doc.Valid() && TokensOracle(tokens)
      modifies doc`layouts
      ensures this.doc == doc
      ensures !hasRoot ==> doc.layouts == old(doc.layouts)
      ensures hasRoot ==>
        var lens := doc.Lengths();
        doc.layouts == Painted(UpdatePass(lens, 0, |doc.text|, tokens), old(doc.layouts), |lens|)
    {
      this.doc := doc;
      new;
      if hasRoot {
        var lens := doc.Lengths();
        ghost var L0 := doc.layouts;
        BlockAtUnique(lens, |doc.text|, |lens| - 1);
        SlotUpdated(0, |doc.text|, tokens);
        assert doc.layouts == Painted(UpdatePass(lens, 0, |doc.text|, tokens), L0, |lens|);
      }
    }

    /** Clears the highlighting of every block. */
    method Clear()
      modifies doc`layouts
      ensures |doc.layouts| == |old(doc.layouts)|
      ensures forall b :: 0 <= b < |doc.layouts| ==> doc.layouts[b] == []
    {
      ClearAll(doc);
    }

    /**
     * The tree was updated for [start, end]: repaints whole blocks from the
     * block holding start to the one holding end, discarding what the
     * first block held before.
     */
    method SlotUpdated(start: nat, end: nat, tokens: (nat, nat) -> seq<Token>)
      requires doc.Valid() && TokensOracle(tokens)
      requires start <= end < Total(doc.Lengths())
      modifies doc`layouts
      ensures doc.layouts == Painted(UpdatePass(doc.Lengths(), start, end, tokens), old(doc.layouts), BlockAt(doc.Lengths(), end) + 1)
    {
      var lens := doc.Lengths();
      var first := FindBlock(lens, start).value;
      BlockAtUnique(lens, start, first);
      var last := FindBlock(lens, end).value;
      BlockAtUnique(lens, end, last);
      var pos := BlockPos(lens, first);
      var e := BlockEnd(lens, last) - 1;
      var rs := FormatTokens(tokens(pos, e));
      var p := Pass(lens, first, last, e, [], rs);
      assert p == UpdatePass(lens, start, end, tokens);
      var _ := PaintRanges(doc, p, false, _ => false);
    }
  }

  /** The highlighters made so far, one per document (the class-level dictionary of instance()). */
  class Registry {
    var instances: map<TextDocument, SyntaxHighlighter>

    constructor ()
      ensures instances == map[]
    {
      instances := map[];
    }

    /**
     * The highlighter of a document: the one made before, or a new one,
     * which is remembered and, when the tree is there (hasRoot), paints
     * the whole document.
     */
    method Instance(document: TextDocument, hasRoot: bool, tokens: (nat, nat) -> seq<Token>) returns (h: SyntaxHighlighter)
      requires document.Valid() && TokensOracle(tokens)
      modifies this, document`layouts
      ensures document in old(instances) ==> h == old(instances[document]) && instances == old(instances) && document.layouts == old(document.layouts)
      ensures document !in old(instances) ==> fresh(h) && instances == old(instances)[document := h] && h.doc == document
      ensures document !in old(instances) && !hasRoot ==> document.layouts == old(document.layouts)
      ensures document !in old(instances) && hasRoot ==>
        var lens := document.Lengths();
        document.layouts == Painted(UpdatePass(lens, 0, |document.text|, tokens), old(document.layouts), |lens|)
    {
      if document in instances {
        return instances[document];
      }
      h := new SyntaxHighlighter(document, hasRoot, tokens);
      instances := instances[document := h];
    }
  }
}
