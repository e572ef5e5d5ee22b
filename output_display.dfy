/** The artifact section editor of `OutputDisplay.tsx`: the generated HTML is
    cut into editable blocks at its `h1`/`h2` headings, a block's content
    can be replaced, and the refine and AI-instruction inputs ignore blank
    text. */
module OutputDisplay {
  import opened Wrappers
  import opened Strings
  import opened GeminiService

  /** A top-level child of the parsed document body: its tag name as the
      DOM reports it and its `outerHTML`. */
  datatype Child = Child(tag: string, html: string)

  datatype Block = Block(id: string, content: string)

  /** `tagName.toLowerCase()` is `h1` or `h2`. */
  predicate IsHeading(c: Child) {
    Lower(c.tag) == "h1" || Lower(c.tag) == "h2"
  }

  /** `block-${n}`. */
  function BlockId(n: nat): string {
    "block-" + NatToString(n)
  }

  /** Different block numbers give different ids. */
  lemma BlockIdInjective(a: nat, b: nat)
    ensures BlockId(a) == BlockId(b) <==> a == b
  {
    if BlockId(a) == BlockId(b) {
      assert NatToString(a) == BlockId(a)[6..] == BlockId(b)[6..] == NatToString(b);
      NatToStringInjective(a, b);
    }
  }

  /** All children's HTML, in document order. */
  function Html(children: seq<Child>): string {
    if children == [] then "" else Html(children[..|children| - 1]) + children[|children| - 1].html
  }

  /** All blocks' contents, in order. */
  function Contents(blocks: seq<Block>): string {
    if blocks == [] then "" else Contents(blocks[..|blocks| - 1]) + blocks[|blocks| - 1].content
  }

  function HeadingCount(children: seq<Child>): nat {
    if children == [] then 0
    else HeadingCount(children[..|children| - 1]) + (if IsHeading(children[|children| - 1]) then 1 else 0)
  }

  predicate AllNonBlank(children: seq<Child>) {
    forall i | 0 <= i < |children| :: !IsBlank(children[i].html)
  }

  predicate NumberedInOrder(blocks: seq<Block>) {
    forall k | 0 <= k < |blocks| :: blocks[k].id == BlockId(k)
  }

  /** What every list of blocks the editor builds satisfies: ids
      `block-0`, `block-1`, ... in order, and no blank block. */
  predicate WellFormed(blocks: seq<Block>) {
    NumberedInOrder(blocks) && forall k | 0 <= k < |blocks| :: !IsBlank(blocks[k].content)
  }

  lemma HtmlSnoc(children: seq<Child>, i: int)
    requires 0 <= i < |children|
    ensures Html(children[..i + 1]) == Html(children[..i]) + children[i].html
    ensures HeadingCount(children[..i + 1]) == HeadingCount(children[..i]) + (if IsHeading(children[i]) then 1 else 0)
  {
    assert children[..i + 1][..i] == children[..i];
  }

  lemma ContentsSnoc(blocks: seq<Block>, b: Block)
    ensures Contents(blocks + [b]) == Contents(blocks) + b.content
  {
    assert (blocks + [b])[..|blocks|] == blocks;
  }

  lemma WellFormedSnoc(blocks: seq<Block>, b: Block)
    requires WellFormed(blocks) && b.id == BlockId(|blocks|) && !IsBlank(b.content)
    ensures WellFormed(blocks + [b])
    ensures Contents(blocks + [b]) == Contents(blocks) + b.content
  {
    var r := blocks + [b];
    ContentsSnoc(blocks, b);
    forall k | 0 <= k < |r|
      ensures r[k].id == BlockId(k) && !IsBlank(r[k].content)
    {
      if k < |blocks| {
        assert r[k] == blocks[k];
        assert blocks[k].id == BlockId(k) && !IsBlank(blocks[k].content);
      } else {
        assert r[k] == b;
      }
    }
  }

  lemma Assoc(a: string, b: string, c: string)
    ensures (a + b) + c == a + (b + c)
  {
  }

  /** What holds after the first `i` children have been visited. */
  ghost predicate Accumulated(children: seq<Child>, i: int, blocks: seq<Block>, current: string) {
    0 <= i <= |children| && WellFormed(blocks)
    && (AllNonBlank(children) ==> Contents(blocks) + current == Html(children[..i]))
    && (AllNonBlank(children) && i > 0 ==>
          !IsBlank(current) && |blocks| + HeadingCount(children[..1]) == HeadingCount(children[..i]))
    && (AllNonBlank(children) && i == 0 ==> current == "")
    && (IsBlank(Html(children[..i])) ==> blocks == [] && IsBlank(current))
  }

  /** One turn of the loop keeps `Accumulated`. */
  lemma AccumulateStep(children: seq<Child>, i: int, blocks: seq<Block>, current: string)
    requires Accumulated(children, i, blocks, current) && i < |children|
    ensures IsHeading(children[i]) && !IsBlank(current) ==>
      Accumulated(children, i + 1, blocks + [Block(BlockId(|blocks|), current)], "" + children[i].html)
    ensures !(IsHeading(children[i]) && !IsBlank(current)) ==>
      Accumulated(children, i + 1, blocks, current + children[i].html)
  {
    var child := children[i];
    HtmlSnoc(children, i);
    BlankAppend(Html(children[..i]), child.html);
    if IsHeading(child) && !IsBlank(current) {
      var b := Block(BlockId(|blocks|), current);
      WellFormedSnoc(blocks, b);
      Assoc(Contents(blocks), current, child.html);
      assert "" + child.html == child.html;
    } else {
      Assoc(Contents(blocks), current, child.html);
      BlankAppend(current, child.html);
    }
  }

  /** The `forEach` over the body's children: the blocks closed so far
      and the content still accumulating when the children run out. */
  method Accumulate(children: seq<Child>) returns (blocks: seq<Block>, current: string)
    ensures Accumulated(children, |children|, blocks, current)
  {
    blocks := [];
    current := "";
    var currentId := 0;
    for i := 0 to |children|
      invariant currentId == |blocks|
      invariant Accumulated(children, i, blocks, current)
    {
      var child := children[i];
      AccumulateStep(children, i, blocks, current);
      // `currentBlockContent.trim()` is truthy exactly when the content
      // is not blank (TrimEmptyIffBlank).
      if IsHeading(child) && !IsBlank(current) {
        blocks := blocks + [Block(BlockId(currentId), current)];
        currentId := currentId + 1;
        current := "";
      }
      current := current + child.html;
    }
  }

  /** The `useEffect` that parses a freshly generated artifact: every
      `h1`/`h2` child closes the block accumulated so far (unless it is
      blank) and starts a new one; the last block is closed at the end; and
      when no block came out of the children, the raw content, if not
      blank, becomes the single block `block-0`. */
  method SplitBlocks(children: seq<Child>, raw: string) returns (blocks: seq<Block>)
    ensures WellFormed(blocks)
    ensures AllNonBlank(children) && children != [] ==> Contents(blocks) == Html(children)
    ensures AllNonBlank(children) && children != [] ==>
      |blocks| == HeadingCount(children) + (if IsHeading(children[0]) then 0 else 1)
    ensures IsBlank(Html(children)) ==> blocks == (if IsBlank(raw) then [] else [Block(BlockId(0), raw)])
  {
    var current;
    blocks, current := Accumulate(children);
    assert children[..|children|] == children;
    if children != [] {
      assert HeadingCount(children[..1]) == if IsHeading(children[0]) then 1 else 0 by {
        assert children[..1][..0] == [];
      }
    }

    if !IsBlank(current) {
      WellFormedSnoc(blocks, Block(BlockId(|blocks|), current));
      blocks := blocks + [Block(BlockId(|blocks|), current)];
    }

    if |blocks| == 0 && !IsBlank(raw) {
      blocks := [Block(BlockId(0), raw)];
    }
  }

  /** `handleBlockUpdate`: the block with the given id gets the new
      content; ids, order and every other block stay as they were. */
  function UpdateBlock(blocks: seq<Block>, id: string, newContent: string): (r: seq<Block>)
    ensures |r| == |blocks|
    ensures forall k | 0 <= k < |r| :: r[k].id == blocks[k].id
    ensures forall k | 0 <= k < |r| :: blocks[k].id == id ==> r[k].content == newContent
    ensures forall k | 0 <= k < |r| :: blocks[k].id != id ==> r[k] == blocks[k]
  {
    seq(|blocks|, k requires 0 <= k < |blocks| =>
      if blocks[k].id == id then blocks[k].(content := newContent) else blocks[k])
  }

  /** On the editor's own blocks an update by `block-n` rewrites block `n`
      and nothing else, and the numbering survives. */
  lemma UpdateNumberedBlock(blocks: seq<Block>, n: nat, newContent: string)
    requires NumberedInOrder(blocks) && n < |blocks|
    ensures var r := UpdateBlock(blocks, BlockId(n), newContent);
      NumberedInOrder(r) && r[n] == Block(BlockId(n), newContent)
      && forall k | 0 <= k < |r| && k != n :: r[k] == blocks[k]
  {
    var r := UpdateBlock(blocks, BlockId(n), newContent);
    forall k | 0 <= k < |r| && k != n
      ensures r[k] == blocks[k]
    {
      BlockIdInjective(k, n);
    }
  }

  /** The last of two updates to the same block wins. */
  lemma UpdateBlockLastWins(blocks: seq<Block>, id: string, first: string, second: string)
    ensures UpdateBlock(UpdateBlock(blocks, id, first), id, second) == UpdateBlock(blocks, id, second)
  {
  }

  /** An update naming no block changes nothing. */
  lemma UpdateUnknownBlock(blocks: seq<Block>, id: string, newContent: string)
    requires forall k | 0 <= k < |blocks| :: blocks[k].id != id
    ensures UpdateBlock(blocks, id, newContent) == blocks
  {
  }

  /** What pressing Enter (or the arrow button) in the refine input does:
      the request sent to `onRefine`, if any, and the input's new text. */
  datatype RefineOutcome = RefineOutcome(sent: Option<string>, input: string)

  /** `if (refineInput.trim()) { onRefine(refineInput); setRefineInput(''); }` */
  function SubmitRefine(input: string): (r: RefineOutcome)
    ensures r.sent.Some? <==> !IsBlank(input)
    ensures r.sent.Some? ==> r.sent.value == input && r.input == ""
    ensures r.sent.None? ==> r.input == input
  {
    TrimEmptyIffBlank(input);
    if Trim(input) != "" then RefineOutcome(Some(input), "") else RefineOutcome(None, input)
  }

  /** A second press right after a request was sent sends nothing. */
  lemma SubmitRefineOnce(input: string)
    ensures SubmitRefine(SubmitRefine(input).input).sent.None?
  {
  }

  /** The editor of one block (`SectionBlock`): its own copy of the
      content and the AI-instruction panel. */
  class SectionEditor {
    const id: string
    var content: string
    var instruction: string
    var aiOpen: bool
    var isLoading: bool

    constructor(block: Block)
      ensures id == block.id && content == block.content
      ensures instruction == "" && !aiOpen && !isLoading
    {
      id := block.id;
      content := block.content;
      instruction := "";
      aiOpen := false;
      isLoading := false;
    }

    /** `handleAiSubmit`: a blank instruction does nothing; otherwise the
        refined section (or the old one, when refining failed) replaces the
        content and is reported to the parent, and the panel closes with
        its input cleared. */
    method AiSubmit(reply: TextReply) returns (update: Option<Block>)
      modifies this
      ensures IsBlank(old(instruction)) ==>
        update.None? && content == old(content) && instruction == old(instruction)
        && aiOpen == old(aiOpen) && isLoading == old(isLoading)
      ensures !IsBlank(old(instruction)) ==>
        content == RefineText(reply, old(content)) && update == Some(Block(id, content))
        && instruction == "" && !aiOpen && !isLoading
    {
      TrimEmptyIffBlank(instruction);
      if Trim(instruction) == "" {
        return None;
      }
      isLoading := true;
      var refined := RefineText(reply, content);
      content := refined;
      update := Some(Block(id, refined));
      aiOpen := false;
      instruction := "";
      isLoading := false;
    }

    /** The effect that follows the parent: when the block's content changes
        from outside (an update reported by this editor or a new artifact
        keyed the same), the local copy is replaced and nothing is reported. */
    method Sync(block: Block)
      requires block.id == id
      modifies this
      ensures content == block.content
      ensures instruction == old(instruction) && aiOpen == old(aiOpen) && isLoading == old(isLoading)
    {
      content := block.content;
    }

    /** The `onBlur` of the editable area: changed HTML is kept and
        reported to the parent, unchanged HTML is ignored. */
    method Blur(html: string) returns (update: Option<Block>)
      modifies this
      ensures content == html
      ensures update.Some? <==> html != old(content)
      ensures update.Some? ==> update.value == Block(id, html)
      ensures instruction == old(instruction) && aiOpen == old(aiOpen) && isLoading == old(isLoading)
    {
      update := None;
      if html != content {
        content := html;
        update := Some(Block(id, html));
      }
    }
  }

  /** The artifact modal's state in `OutputDisplay`: the blocks and the
      refine input. */
  class ArtifactEditor {
    var blocks: seq<Block>
    var refineInput: string

    constructor()
      ensures blocks == [] && refineInput == ""
    {
      blocks := [];
      refineInput := "";
    }

    /** A newly generated artifact replaces the blocks by its split: one
        block per heading plus the preamble, holding the whole HTML, or the
        raw text (if any) when the children are blank. */
    method Load(children: seq<Child>, raw: string)
      modifies this
      ensures WellFormed(blocks) && refineInput == old(refineInput)
      ensures AllNonBlank(children) && children != [] ==> Contents(blocks) == Html(children)
      ensures AllNonBlank(children) && children != [] ==>
        |blocks| == HeadingCount(children) + (if IsHeading(children[0]) then 0 else 1)
      ensures IsBlank(Html(children)) ==> blocks == (if IsBlank(raw) then [] else [Block(BlockId(0), raw)])
    {
      blocks := SplitBlocks(children, raw);
    }

    /** `handleBlockUpdate`, called back by a section editor. */
    method OnBlockUpdate(update: Option<Block>)
      modifies this
      ensures update.None? ==> blocks == old(blocks)
      ensures update.Some? ==> blocks == UpdateBlock(old(blocks), update.value.id, update.value.content)
      ensures refineInput == old(refineInput)
    {
      if update.Some? {
        blocks := UpdateBlock(blocks, update.value.id, update.value.content);
      }
    }

    /** The refine input's Enter key and button. */
    method Refine() returns (sent: Option<string>)
      modifies this
      ensures sent == SubmitRefine(old(refineInput)).sent
      ensures refineInput == SubmitRefine(old(refineInput)).input
      ensures blocks == old(blocks)
    {
      var outcome := SubmitRefine(refineInput);
      sent := outcome.sent;
      refineInput := outcome.input;
    }
  }
}
