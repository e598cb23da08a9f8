/**
 * The patch-notes renderer of App.tsx (`MarkdownRenderer`): the text is split
 * into lines, each trimmed line is classed as blank, a `# ` or `## ` heading,
 * a `- ` list item or a paragraph, and consecutive list items are gathered
 * into one list that a blank line, a heading, a paragraph or the end of the
 * text closes. Inline formatting inside a line is not part of this model.
 */
module Markdown {
  import opened Common

  /** A rendered block: `<h1>`, `<h2>`, `<p>` or a `<ul>` of items. */
  datatype Block = Heading1(text: string) | Heading2(text: string) | Paragraph(text: string) | BulletList(items: seq<string>)

  /** What one trimmed line is. */
  datatype LineKind = Blank | H1(text: string) | H2(text: string) | Item(text: string) | Para(text: string)

  // -----------------------------------------------------------------------
  // Splitting into lines
  // -----------------------------------------------------------------------

  /** The lines joined back with `\n` between them. */
  function JoinLines(lines: seq<string>): string
    requires |lines| > 0
  {
    if |lines| == 1 then lines[0] else lines[0] + "\n" + JoinLines(lines[1..])
  }

  /** `content.split('\n')`: the pieces between line feeds, one more than there are line feeds. */
  function SplitLines(s: string): (lines: seq<string>)
    ensures |lines| > 0
    ensures forall k :: 0 <= k < |lines| ==> '\n' !in lines[k]
    ensures JoinLines(lines) == s
    decreases |s|
  {
    var i := IndexOf(s, '\n');
    if i < 0 then [s]
    else
      var rest := SplitLines(s[i + 1..]);
      assert s == s[..i] + "\n" + s[i + 1..];
      [s[..i]] + rest
  }

  // -----------------------------------------------------------------------
  // Classifying a line
  // -----------------------------------------------------------------------

  /** How a trimmed line is read; `# ` is tested before `## `, and both before `- `. */
  function KindOf(t: string): (k: LineKind)
    ensures k.Blank? <==> |t| == 0
    ensures k.H1? ==> t == "# " + k.text
    ensures k.H2? ==> t == "## " + k.text
    ensures k.Item? ==> t == "- " + k.text && !StartsWith(t, "# ")
    ensures k.Para? ==> k.text == t && |t| > 0
                        && !StartsWith(t, "# ") && !StartsWith(t, "## ") && !StartsWith(t, "- ")
  {
    if |t| == 0 then Blank
    else if StartsWith(t, "# ") then assert t == t[..2] + t[2..]; H1(t[2..])
    else if StartsWith(t, "## ") then assert t == t[..3] + t[3..]; H2(t[3..])
    else if StartsWith(t, "- ") then assert t == t[..2] + t[2..]; Item(t[2..])
    else Para(t)
  }

  /** How a line of the text is read: `line.trim()`, then `KindOf`. */
  function Classify(line: string): (k: LineKind)
    ensures k.Blank? <==> |Trim(line)| == 0
    ensures k.H1? ==> Trim(line) == "# " + k.text
    ensures k.H2? ==> Trim(line) == "## " + k.text
    ensures k.Item? ==> Trim(line) == "- " + k.text
    ensures k.Para? ==> k.text == Trim(line)
  {
    KindOf(Trim(line))
  }

  // -----------------------------------------------------------------------
  // Grouping, as a fold over the lines
  // -----------------------------------------------------------------------

  /** The blocks emitted so far and the list items not yet closed. */
  datatype Grouping = Grouping(elements: seq<Block>, listItems: seq<string>)

  /** `flushList`: the open items become one list, if there are any. */
  function Flush(g: Grouping): (f: Grouping)
    ensures f.listItems == []
    ensures |g.listItems| == 0 ==> f == g
    ensures |g.listItems| > 0 ==> f.elements == g.elements + [BulletList(g.listItems)]
  {
    if |g.listItems| > 0 then Grouping(g.elements + [BulletList(g.listItems)], []) else g
  }

  /** The block a non-blank, non-item line becomes. */
  function Standalone(k: LineKind): Block
    requires !k.Blank? && !k.Item?
  {
    match k
    case H1(t) => Heading1(t)
    case H2(t) => Heading2(t)
    case Para(t) => Paragraph(t)
  }

  /** One iteration of the line loop. */
  function Consume(g: Grouping, line: string): Grouping {
    var k := Classify(line);
    if k.Blank? then Flush(g)
    else if k.Item? then Grouping(g.elements, g.listItems + [k.text])
    else Grouping(Flush(g).elements + [Standalone(k)], [])
  }

  /** The state after the loop has seen `lines`. */
  function GroupLines(lines: seq<string>): Grouping {
    if |lines| == 0 then Grouping([], [])
    else Consume(GroupLines(lines[..|lines| - 1]), lines[|lines| - 1])
  }

  /**
   * The blocks shown for `lines`: the loop, then `flushList('final')`. Since
   * `flushList` adds a list only when items are open, no rendered list is empty.
   */
  function Blocks(lines: seq<string>): (r: seq<Block>)
    ensures ListsFilled(r)
  {
    GroupingFilled(lines);
    FlushKeeps(GroupLines(lines));
    Flush(GroupLines(lines)).elements
  }

  /** The rendering loop (`lines.forEach(...)`, then the final flush). */
  method Render(content: string) returns (elements: seq<Block>)
    ensures elements == Blocks(SplitLines(content))
  {
    var lines := SplitLines(content);
    elements := [];
    var listItems: seq<string> := [];
    for i := 0 to |lines|
      invariant Grouping(elements, listItems) == GroupLines(lines[..i])
    {
      assert lines[..i + 1][..i] == lines[..i];
      elements, listItems := VisitLine(elements, listItems, lines[i]);
    }
    assert lines[..|lines|] == lines;
    elements, listItems := FlushList(elements, listItems);
  }

  /** The loop's callback on one line. */
  method VisitLine(elements: seq<Block>, listItems: seq<string>, line: string)
    returns (elements': seq<Block>, listItems': seq<string>)
    ensures Grouping(elements', listItems') == Consume(Grouping(elements, listItems), line)
  {
    var trimmed := Trim(line);
    elements', listItems' := elements, listItems;
    if |trimmed| == 0 {
      elements', listItems' := FlushList(elements, listItems);
      return;
    }
    if StartsWith(trimmed, "# ") {
      elements', listItems' := FlushList(elements, listItems);
      elements' := elements' + [Heading1(trimmed[2..])];
    } else if StartsWith(trimmed, "## ") {
      elements', listItems' := FlushList(elements, listItems);
      elements' := elements' + [Heading2(trimmed[3..])];
    } else if StartsWith(trimmed, "- ") {
      listItems' := listItems + [trimmed[2..]];
    } else {
      elements', listItems' := FlushList(elements, listItems);
      elements' := elements' + [Paragraph(trimmed)];
    }
  }

  /** `flushList` on the loop's two variables. */
  method FlushList(elements: seq<Block>, listItems: seq<string>) returns (elements': seq<Block>, listItems': seq<string>)
    ensures Grouping(elements', listItems') == Flush(Grouping(elements, listItems))
  {
    elements', listItems' := elements, listItems;
    if |listItems| > 0 {
      elements' := elements + [BulletList(listItems)];
      listItems' := [];
    }
  }

  // -----------------------------------------------------------------------
  // What the grouping keeps
  // -----------------------------------------------------------------------

  /** The texts of the list-item lines, in order. */
  function Bullets(lines: seq<string>): seq<string> {
    if |lines| == 0 then []
    else
      var k := Classify(lines[|lines| - 1]);
      Bullets(lines[..|lines| - 1]) + (if k.Item? then [k.text] else [])
  }

  /** The blocks of the heading and paragraph lines, in order. */
  function Others(lines: seq<string>): seq<Block> {
    if |lines| == 0 then []
    else
      var k := Classify(lines[|lines| - 1]);
      Others(lines[..|lines| - 1]) + (if !k.Blank? && !k.Item? then [Standalone(k)] else [])
  }

  /** Every item of every list, in order. */
  function Items(blocks: seq<Block>): seq<string> {
    if |blocks| == 0 then []
    else Items(blocks[..|blocks| - 1]) + (if blocks[|blocks| - 1].BulletList? then blocks[|blocks| - 1].items else [])
  }

  /** The blocks that are not lists, in order. */
  function NonLists(blocks: seq<Block>): seq<Block> {
    if |blocks| == 0 then []
    else NonLists(blocks[..|blocks| - 1]) + (if blocks[|blocks| - 1].BulletList? then [] else [blocks[|blocks| - 1]])
  }

  /** No list is empty. */
  predicate ListsFilled(blocks: seq<Block>) {
    forall k :: 0 <= k < |blocks| && blocks[k].BulletList? ==> |blocks[k].items| > 0
  }

  lemma ItemsAppend(blocks: seq<Block>, b: Block)
    ensures Items(blocks + [b]) == Items(blocks) + (if b.BulletList? then b.items else [])
  {
    assert (blocks + [b])[..|blocks|] == blocks;
  }

  lemma NonListsAppend(blocks: seq<Block>, b: Block)
    ensures NonLists(blocks + [b]) == NonLists(blocks) + (if b.BulletList? then [] else [b])
  {
    assert (blocks + [b])[..|blocks|] == blocks;
  }

  /** Closing the open list keeps every item and adds no other block. */
  lemma FlushKeeps(g: Grouping)
    ensures Items(Flush(g).elements) == Items(g.elements) + g.listItems
    ensures NonLists(Flush(g).elements) == NonLists(g.elements)
    ensures ListsFilled(g.elements) ==> ListsFilled(Flush(g).elements)
  {
    if |g.listItems| > 0 {
      ItemsAppend(g.elements, BulletList(g.listItems));
      NonListsAppend(g.elements, BulletList(g.listItems));
    }
  }

  /** One line moves its item text, if it is an item, to the end of the items. */
  lemma ConsumeItems(g: Grouping, line: string)
    ensures Items(Consume(g, line).elements) + Consume(g, line).listItems
            == Items(g.elements) + g.listItems + (if Classify(line).Item? then [Classify(line).text] else [])
  {
    var k := Classify(line);
    FlushKeeps(g);
    if !k.Blank? && !k.Item? {
      ItemsAppend(Flush(g).elements, Standalone(k));
    }
  }

  /** One line adds its own block, if it is a heading or a paragraph, after the other blocks. */
  lemma ConsumeOthers(g: Grouping, line: string)
    ensures NonLists(Consume(g, line).elements)
            == NonLists(g.elements) + (if !Classify(line).Blank? && !Classify(line).Item? then [Standalone(Classify(line))] else [])
  {
    var k := Classify(line);
    FlushKeeps(g);
    if !k.Blank? && !k.Item? {
      NonListsAppend(Flush(g).elements, Standalone(k));
    }
  }

  lemma ConsumeFilled(g: Grouping, line: string)
    requires ListsFilled(g.elements)
    ensures ListsFilled(Consume(g, line).elements)
  {
    FlushKeeps(g);
  }

  /** The loop's invariant: the items emitted and still open are the item lines so far. */
  lemma {:induction false} GroupingKeepsItems(lines: seq<string>)
    ensures Items(GroupLines(lines).elements) + GroupLines(lines).listItems == Bullets(lines)
  {
    if |lines| > 0 {
      var init := lines[..|lines| - 1];
      GroupingKeepsItems(init);
      ConsumeItems(GroupLines(init), lines[|lines| - 1]);
    }
  }

  /** The loop's invariant: the other blocks emitted are the heading and paragraph lines so far. */
  lemma {:induction false} GroupingKeepsOthers(lines: seq<string>)
    ensures NonLists(GroupLines(lines).elements) == Others(lines)
  {
    if |lines| > 0 {
      var init := lines[..|lines| - 1];
      GroupingKeepsOthers(init);
      ConsumeOthers(GroupLines(init), lines[|lines| - 1]);
    }
  }

  /** The loop's invariant: no emitted list is empty. */
  lemma {:induction false} GroupingFilled(lines: seq<string>)
    ensures ListsFilled(GroupLines(lines).elements)
  {
    if |lines| > 0 {
      var init := lines[..|lines| - 1];
      GroupingFilled(init);
      ConsumeFilled(GroupLines(init), lines[|lines| - 1]);
    }
  }

  /** Every list-item line's text appears, in order, across the lists, and nothing else does. */
  lemma ItemsKept(lines: seq<string>)
    ensures Items(Blocks(lines)) == Bullets(lines)
  {
    GroupingKeepsItems(lines);
    FlushKeeps(GroupLines(lines));
  }

  /** Every heading and paragraph line gives exactly its own block, in order. */
  lemma OthersKept(lines: seq<string>)
    ensures NonLists(Blocks(lines)) == Others(lines)
  {
    GroupingKeepsOthers(lines);
    FlushKeeps(GroupLines(lines));
  }

  /** Lines that are all list items stay open as one list. */
  lemma {:induction false} ItemRunStaysOpen(lines: seq<string>)
    requires forall k :: 0 <= k < |lines| ==> Classify(lines[k]).Item?
    ensures GroupLines(lines) == Grouping([], Bullets(lines))
  {
    if |lines| > 0 {
      ItemRunStaysOpen(lines[..|lines| - 1]);
    }
  }

  /** Consecutive list items with nothing between them are rendered as one single list. */
  lemma ItemRunIsOneList(lines: seq<string>)
    requires |lines| > 0
    requires forall k :: 0 <= k < |lines| ==> Classify(lines[k]).Item?
    ensures Blocks(lines) == [BulletList(Bullets(lines))]
    ensures |Bullets(lines)| == |lines|
  {
    ItemRunStaysOpen(lines);
    BulletsOfItems(lines);
  }

  lemma {:induction false} BulletsOfItems(lines: seq<string>)
    requires forall k :: 0 <= k < |lines| ==> Classify(lines[k]).Item?
    ensures |Bullets(lines)| == |lines|
  {
    if |lines| > 0 {
      BulletsOfItems(lines[..|lines| - 1]);
    }
  }
}
