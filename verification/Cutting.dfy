/** Lists cut at their heads: release headings, category headings, or list items. */
module Cutting {
  datatype Block<L> = Block(head: L, body: seq<L>)

  datatype Cuts<L> = Cuts(lead: seq<L>, blocks: seq<Block<L>>)

  /** What stands before the first head, and every head with what follows it up to the next. */
  function Cut<L>(isHead: L -> bool, lines: seq<L>): Cuts<L> {
    if lines == [] then Cuts([], [])
    else
      var rest := Cut(isHead, lines[1..]);
      if isHead(lines[0]) then Cuts([], [Block(lines[0], rest.lead)] + rest.blocks)
      else Cuts([lines[0]] + rest.lead, rest.blocks)
  }

  function Whole<L>(b: Block<L>): seq<L> { [b.head] + b.body }

  function Uncut<L>(blocks: seq<Block<L>>): seq<L> {
    if blocks == [] then [] else Whole(blocks[0]) + Uncut(blocks[1..])
  }

  predicate Headless<L>(isHead: L -> bool, lines: seq<L>) {
    forall i :: 0 <= i < |lines| ==> !isHead(lines[i])
  }

  predicate GoodBlock<L>(isHead: L -> bool, b: Block<L>) {
    isHead(b.head) && Headless(isHead, b.body)
  }

  predicate GoodBlocks<L>(isHead: L -> bool, blocks: seq<Block<L>>) {
    forall i :: 0 <= i < |blocks| ==> GoodBlock(isHead, blocks[i])
  }

  // ---- sequences, one element at a time ----

  lemma SnocEmpty<T>(s: seq<T>, x: T)
    requires s == []
    ensures s + [x] == [x] && [x][0] == x && [x][1..] == []
  {
  }

  lemma SnocTail<T>(s: seq<T>, x: T)
    requires s != []
    ensures (s + [x])[0] == s[0] && (s + [x])[1..] == s[1..] + [x]
  {
  }

  lemma Assoc<T>(a: seq<T>, b: seq<T>, c: seq<T>)
    ensures (a + b) + c == a + (b + c)
  {
  }

  /** Cutting loses nothing, and every head is at the front of its block. */
  lemma UncutFirst<L>(first: Block<L>, rest: seq<Block<L>>)
    ensures Uncut([first] + rest) == [first.head] + (first.body + Uncut(rest))
  {
    assert ([first] + rest)[1..] == rest;
  }

  lemma {:induction false} CutWhole<L>(isHead: L -> bool, lines: seq<L>)
    ensures var c := Cut(isHead, lines);
      c.lead + Uncut(c.blocks) == lines && Headless(isHead, c.lead) && GoodBlocks(isHead, c.blocks)
  {
    if lines != [] {
      CutWhole(isHead, lines[1..]);
      var rest := Cut(isHead, lines[1..]);
      if isHead(lines[0]) {
        UncutFirst(Block(lines[0], rest.lead), rest.blocks);
      }
    }
  }

  lemma {:induction false} CutHeadless<L>(isHead: L -> bool, a: seq<L>, b: seq<L>)
    requires Headless(isHead, a)
    ensures Cut(isHead, a + b) == Cuts(a + Cut(isHead, b).lead, Cut(isHead, b).blocks)
  {
    if a == [] {
      assert a + b == b;
    } else {
      assert (a + b)[1..] == a[1..] + b;
      CutHeadless(isHead, a[1..], b);
      assert [a[0]] + (a[1..] + Cut(isHead, b).lead) == a + Cut(isHead, b).lead;
    }
  }

  /** The one way to cut: headless lead, then good blocks. */
  lemma {:induction false} CutUnique<L>(isHead: L -> bool, lead: seq<L>, blocks: seq<Block<L>>)
    requires Headless(isHead, lead) && GoodBlocks(isHead, blocks)
    ensures Cut(isHead, lead + Uncut(blocks)) == Cuts(lead, blocks)
    decreases |blocks|
  {
    CutHeadless(isHead, lead, Uncut(blocks));
    if blocks != [] {
      var b := blocks[0];
      assert GoodBlock(isHead, b);
      CutUnique(isHead, b.body, blocks[1..]);
      var tail := b.body + Uncut(blocks[1..]);
      assert Uncut(blocks) == [b.head] + tail;
      assert Uncut(blocks)[1..] == tail;
      assert [b] + blocks[1..] == blocks;
    }
    assert lead + [] == lead;
  }

  lemma {:induction false} UncutJoin<L>(a: seq<Block<L>>, b: seq<Block<L>>)
    ensures Uncut(a + b) == Uncut(a) + Uncut(b)
  {
    if a == [] {
      assert a + b == b;
    } else {
      assert (a + b)[1..] == a[1..] + b;
      UncutJoin(a[1..], b);
    }
  }

  lemma {:induction false} UncutMembers<L>(blocks: seq<Block<L>>, x: L)
    ensures x in Uncut(blocks) <==> exists i :: 0 <= i < |blocks| && x in Whole(blocks[i])
  {
    if blocks != [] {
      UncutMembers(blocks[1..], x);
      if i :| 0 <= i < |blocks| - 1 && x in Whole(blocks[1..][i]) { assert x in Whole(blocks[i + 1]); }
      if i :| 0 <= i < |blocks| && x in Whole(blocks[i]) {
        if i > 0 { assert x in Whole(blocks[1..][i - 1]); }
      }
    }
  }

  method TakeUntilHead<L>(isHead: L -> bool, lines: seq<L>, from: nat) returns (taken: seq<L>, index: nat)
    requires from <= |lines|
    ensures from <= index <= |lines| && taken == lines[from..index] && Headless(isHead, taken)
    ensures index < |lines| ==> isHead(lines[index])
  {
    taken, index := [], from;
    while index < |lines| && !isHead(lines[index])
      invariant from <= index <= |lines| && taken == lines[from..index] && Headless(isHead, taken)
    {
      taken := taken + [lines[index]];
      index := index + 1;
    }
  }

  /** The lines from `start` to `index` are in blocks. */
  ghost predicate Collected<L>(isHead: L -> bool, lines: seq<L>, start: nat, index: nat, blocks: seq<Block<L>>) {
    start <= index <= |lines| && GoodBlocks(isHead, blocks) && lines[start..] == Uncut(blocks) + lines[index..]
  }

  lemma CollectBlock<L>(isHead: L -> bool, lines: seq<L>, start: nat, from: nat, index: nat, blocks: seq<Block<L>>,
                        b: Block<L>)
    requires Collected(isHead, lines, start, from, blocks) && from < index <= |lines| && GoodBlock(isHead, b)
    requires b.head == lines[from] && b.body == lines[from + 1..index]
    ensures Collected(isHead, lines, start, index, blocks + [b])
  {
    UncutJoin(blocks, [b]);
    UncutOne(b);
    SliceBlock(lines, from, index, b);
    assert (Uncut(blocks) + Whole(b)) + lines[index..] == Uncut(blocks) + (Whole(b) + lines[index..]);
  }

  lemma UncutOne<L>(b: Block<L>)
    ensures Uncut([b]) == Whole(b)
  {
    assert [b][1..] == [];
  }

  lemma SliceBlock<L>(lines: seq<L>, from: nat, index: nat, b: Block<L>)
    requires from < index <= |lines| && b.head == lines[from] && b.body == lines[from + 1..index]
    ensures lines[from..] == Whole(b) + lines[index..]
  {
  }

  /** The index-driven loop that all three parsers share. */
  method CutLines<L>(isHead: L -> bool, lines: seq<L>) returns (cuts: Cuts<L>)
    ensures cuts == Cut(isHead, lines)
  {
    var lead, index := TakeUntilHead(isHead, lines, 0);
    ghost var start := index;
    var blocks: seq<Block<L>> := [];
    while index < |lines|
      invariant Collected(isHead, lines, start, index, blocks)
      invariant index < |lines| ==> isHead(lines[index])
      decreases |lines| - index
    {
      var head, from := lines[index], index;
      var body, next := TakeUntilHead(isHead, lines, index + 1);
      CollectBlock(isHead, lines, start, from, next, blocks, Block(head, body));
      blocks, index := blocks + [Block(head, body)], next;
    }
    assert lines == lead + lines[start..];
    assert lines[index..] == [];
    assert lines[start..] == Uncut(blocks);
    CutUnique(isHead, lead, blocks);
    cuts := Cuts(lead, blocks);
  }

  // ---- the same cut, seen through a map ----

  function Map<A, B>(f: A -> B, s: seq<A>): (r: seq<B>)
    ensures |r| == |s| && forall i :: 0 <= i < |s| ==> r[i] == f(s[i])
  {
    seq(|s|, i requires 0 <= i < |s| => f(s[i]))
  }

  function MapBlock<A, B>(f: A -> B, b: Block<A>): Block<B> {
    Block(f(b.head), Map(f, b.body))
  }

  function MapBlocks<A, B>(f: A -> B, blocks: seq<Block<A>>): (r: seq<Block<B>>)
    ensures |r| == |blocks| && forall i :: 0 <= i < |blocks| ==> r[i] == MapBlock(f, blocks[i])
  {
    seq(|blocks|, i requires 0 <= i < |blocks| => MapBlock(f, blocks[i]))
  }

  lemma {:induction false} CutMapped<A(!new), B>(f: A -> B, isHeadA: A -> bool, isHeadB: B -> bool, lines: seq<A>)
    requires forall a :: isHeadA(a) == isHeadB(f(a))
    ensures var c := Cut(isHeadA, lines);
      Cut(isHeadB, Map(f, lines)) == Cuts(Map(f, c.lead), MapBlocks(f, c.blocks))
  {
    if lines != [] {
      CutMapped(f, isHeadA, isHeadB, lines[1..]);
      assert Map(f, lines)[1..] == Map(f, lines[1..]);
    }
  }
}
