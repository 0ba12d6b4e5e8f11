/** The block selection of the `order-imports` rule
    (codemodder/codemods/order_imports.py): top-level import blocks are kept or
    dropped by the line filter applied to their first statement, and the tree is
    handed to the reordering transform only when some block survives. */
module OrderImports {
  import opened Syntax
  import opened LineScope

  /** A top-level import statement: its text and its position in the file. */
  datatype ImportNode = ImportNode(text: string, pos: Position)

  /** A block of consecutive top-level imports, as the gathering visitor reports
      it; it is never empty. */
  type Block = b: seq<ImportNode> | |b| > 0 witness [ImportNode("import os", Position(1, 1))]

  /** A block is kept when its anchor, the first statement, is in scope. */
  predicate Kept(block: Block, filter: LineFilter)
  {
    InScope(block[0].pos, filter)
  }

  /** The blocks the loop in `transform_module_impl` collects, in order. */
  function KeptBlocks(blocks: seq<Block>, filter: LineFilter): seq<Block>
  {
    if blocks == [] then []
    else
      var last := blocks[|blocks| - 1];
      KeptBlocks(blocks[..|blocks| - 1], filter) + (if Kept(last, filter) then [last] else [])
  }

  /** A block survives iff it is one of the gathered blocks and its anchor is in scope. */
  lemma {:induction false} KeptBlocksMembers(blocks: seq<Block>, filter: LineFilter)
    ensures forall b :: b in KeptBlocks(blocks, filter) <==> b in blocks && Kept(b, filter)
  {
    if blocks != [] {
      var init := blocks[..|blocks| - 1];
      KeptBlocksMembers(init, filter);
      assert blocks == init + [blocks[|blocks| - 1]];
    }
  }

  /** Selection distributes over concatenation, so kept blocks keep their
      relative order. */
  lemma {:induction false} KeptBlocksAppend(a: seq<Block>, b: seq<Block>, filter: LineFilter)
    ensures KeptBlocks(a + b, filter) == KeptBlocks(a, filter) + KeptBlocks(b, filter)
  {
    if b == [] {
      assert a + b == a;
    } else {
      var init := b[..|b| - 1];
      KeptBlocksAppend(a, init, filter);
      assert (a + b)[..|a + b| - 1] == a + init;
    }
  }

  /** The loop of `transform_module_impl` that filters the gathered blocks. */
  method FilterBlocks(blocks: seq<Block>, filter: LineFilter) returns (filtered: seq<Block>)
    ensures filtered == KeptBlocks(blocks, filter)
  {
    filtered := [];
    var i := 0;
    while i < |blocks|
      invariant 0 <= i <= |blocks|
      invariant filtered == KeptBlocks(blocks[..i], filter)
    {
      var block := blocks[i];
      var anchor := block[0];
      if InScope(anchor.pos, filter) {
        filtered := filtered + [block];
      }
      assert blocks[..i + 1][..i] == blocks[..i];
      i := i + 1;
    }
    assert blocks[..i] == blocks;
  }

  /** `transform_module_impl`: `blocks` is what the gathering visitor found in
      `tree`, `reorder` the reordering transform applied to the kept blocks. */
  method TransformModuleImpl(tree: Module, blocks: seq<Block>, filter: LineFilter,
                             reorder: (Module, seq<Block>) -> Module) returns (r: Module)
    ensures KeptBlocks(blocks, filter) == [] ==> r == tree
    ensures KeptBlocks(blocks, filter) != [] ==> r == reorder(tree, KeptBlocks(blocks, filter))
  {
    var filtered := FilterBlocks(blocks, filter);
    if filtered != [] {
      r := reorder(tree, filtered);
    } else {
      r := tree;
    }
  }

  /** No block survives exactly when no gathered block has its anchor in scope;
      the tree then comes back unchanged. */
  lemma {:induction false} NothingKeptIff(blocks: seq<Block>, filter: LineFilter)
    ensures KeptBlocks(blocks, filter) == [] <==> forall i :: 0 <= i < |blocks| ==> !Kept(blocks[i], filter)
  {
    if blocks != [] {
      var init := blocks[..|blocks| - 1];
      NothingKeptIff(init, filter);
      assert forall i :: 0 <= i < |init| ==> init[i] == blocks[i];
    }
  }
}
