/**
 * The sentence-block chunker of `ContentProcessor.dividir_por_frases`.
 *
 * Sentence detection is done by a language model outside this model, so the
 * list of sentences is the input. Sentences are packed greedily into blocks:
 * before a sentence is added, the current block is flushed when its word
 * count plus the sentence's would exceed `maxTokens`; the sentence is then
 * added whatever its size. The flush test runs even while the current block
 * is empty, so a first sentence that alone exceeds the bound produces a
 * leading empty block `""`.
 */
module ContentProcessor {
  import opened Text

  /** Concatenation of the sentence groups, in order. */
  function Flatten(groups: seq<seq<string>>): seq<string>
    decreases |groups|
  {
    if groups == [] then [] else Flatten(groups[..|groups| - 1]) + groups[|groups| - 1]
  }

  lemma FlattenAppend(groups: seq<seq<string>>, g: seq<string>)
    ensures Flatten(groups + [g]) == Flatten(groups) + g
  {
    assert (groups + [g])[..|groups|] == groups;
  }

  /**
   * The loop's state after some sentences: the groups already flushed into
   * `blocos` and the sentences of `bloco_atual`.
   */
  datatype Packing = Packing(closed: seq<seq<string>>, current: seq<string>)

  /** One iteration of the loop, for sentence `frase`. */
  function Step(p: Packing, frase: string, maxTokens: int): Packing {
    if SumWords(p.current) + WordCount(frase) > maxTokens then
      Packing(p.closed + [p.current], [frase])
    else
      Packing(p.closed, p.current + [frase])
  }

  /** The loop's state after all of `frases`. */
  function Pack(frases: seq<string>, maxTokens: int): Packing
    decreases |frases|
  {
    if frases == [] then Packing([], [])
    else Step(Pack(frases[..|frases| - 1], maxTokens), frases[|frases| - 1], maxTokens)
  }

  /** The loop state after one more sentence is one `Step` further. */
  lemma PackPrefix(frases: seq<string>, i: nat, maxTokens: int)
    requires i < |frases|
    ensures Pack(frases[..i + 1], maxTokens) == Step(Pack(frases[..i], maxTokens), frases[i], maxTokens)
  {
    assert frases[..i + 1][..i] == frases[..i];
  }

  /** The sentence groups behind the returned blocks: the final non-empty current group is flushed too. */
  function Groups(frases: seq<string>, maxTokens: int): seq<seq<string>> {
    var p := Pack(frases, maxTokens);
    if p.current != [] then p.closed + [p.current] else p.closed
  }

  /** The blocks `dividir_por_frases` returns: each group joined with single spaces. */
  function Blocks(frases: seq<string>, maxTokens: int): seq<string> {
    var groups := Groups(frases, maxTokens);
    seq(|groups|, i requires 0 <= i < |groups| => Join(groups[i]))
  }

  /** The bound `max_tokens` takes when the caller gives none. */
  const MaxTokensDefault: int := 500

  /**
   * Greedy packing of `frases` into blocks of at most `maxTokens`
   * whitespace-separated words (`MaxTokensDefault` when omitted).
   */
  method DividirPorFrases(frases: seq<string>, maxTokens: int := MaxTokensDefault) returns (blocos: seq<string>)
    ensures blocos == Blocks(frases, maxTokens)
  {
    blocos := [];
    var blocoAtual: seq<string> := [];
    var tokenCount := 0;
    ghost var closed: seq<seq<string>> := [];
    for i := 0 to |frases|
      invariant Packing(closed, blocoAtual) == Pack(frases[..i], maxTokens)
      invariant tokenCount == SumWords(blocoAtual)
      invariant |blocos| == |closed|
      invariant forall j :: 0 <= j < |blocos| ==> blocos[j] == Join(closed[j])
    {
      var frase := frases[i];
      var numTokens := WordCount(frase);
      PackPrefix(frases, i, maxTokens);
      if tokenCount + numTokens > maxTokens {
        AppendBlock(blocos, closed, blocoAtual);
        blocos := blocos + [Join(blocoAtual)];
        closed := closed + [blocoAtual];
        blocoAtual := [];
        tokenCount := 0;
      }
      SumWordsAppend(blocoAtual, frase);
      blocoAtual := blocoAtual + [frase];
      tokenCount := tokenCount + numTokens;
    }
    assert frases[..|frases|] == frases;
    if blocoAtual != [] {
      AppendBlock(blocos, closed, blocoAtual);
      blocos := blocos + [Join(blocoAtual)];
      closed := closed + [blocoAtual];
    }
    assert closed == Groups(frases, maxTokens);
  }

  /** Appending a group and its joined block keeps the blocks the groups joined. */
  lemma AppendBlock(blocos: seq<string>, closed: seq<seq<string>>, g: seq<string>)
    requires |blocos| == |closed|
    requires forall j :: 0 <= j < |blocos| ==> blocos[j] == Join(closed[j])
    ensures forall j :: 0 <= j < |blocos| + 1 ==> (blocos + [Join(g)])[j] == Join((closed + [g])[j])
  {
  }

  // ---------------------------------------------------------------------
  // What the packing guarantees
  // ---------------------------------------------------------------------

  /** Group `j + 1` of the loop state, where the current group follows the last closed one. */
  function NextGroup(p: Packing, j: nat): seq<string>
    requires j < |p.closed|
  {
    if j + 1 < |p.closed| then p.closed[j + 1] else p.current
  }

  /** The flush before `next` happened because `g` plus the first sentence of `next` would exceed the bound. */
  predicate Flushed(g: seq<string>, next: seq<string>, maxTokens: int) {
    next != [] && SumWords(g) + WordCount(next[0]) > maxTokens
  }

  /** A group over the bound holds at most one sentence. */
  predicate Bounded(g: seq<string>, maxTokens: int) {
    SumWords(g) > maxTokens ==> |g| <= 1
  }

  /** The closed groups and the current one, read in order, are the sentences seen so far. */
  ghost predicate Partitions(p: Packing, prefix: seq<string>) {
    && Flatten(p.closed) + p.current == prefix
    && |p.closed| <= |prefix|
    && (prefix == [] ==> p.closed == [] && p.current == [])
    && (prefix != [] ==> p.current != [])
  }

  /** Only the first closed group can be empty, and it is empty exactly when the first sentence alone is over the bound. */
  ghost predicate EmptyOnlyFirst(p: Packing, prefix: seq<string>, maxTokens: int) {
    && (forall j :: 0 < j < |p.closed| ==> p.closed[j] != [])
    && (prefix != [] ==> ((|p.closed| > 0 && p.closed[0] == []) <==> WordCount(prefix[0]) > maxTokens))
  }

  ghost predicate AllBounded(p: Packing, maxTokens: int) {
    && (forall j :: 0 <= j < |p.closed| ==> Bounded(p.closed[j], maxTokens))
    && Bounded(p.current, maxTokens)
  }

  ghost predicate AllFlushed(p: Packing, maxTokens: int) {
    forall j :: 0 <= j < |p.closed| ==> Flushed(p.closed[j], NextGroup(p, j), maxTokens)
  }

  /** What holds of the loop state after the sentences `prefix`. */
  ghost predicate PackedFrom(p: Packing, prefix: seq<string>, maxTokens: int) {
    && Partitions(p, prefix)
    && EmptyOnlyFirst(p, prefix, maxTokens)
    && AllBounded(p, maxTokens)
    && AllFlushed(p, maxTokens)
  }

  /** A flush closes the current group and starts a new one with the sentence. */
  lemma FlushPreserves(p: Packing, prefix: seq<string>, frase: string, maxTokens: int)
    requires PackedFrom(p, prefix, maxTokens)
    requires SumWords(p.current) + WordCount(frase) > maxTokens
    ensures PackedFrom(Packing(p.closed + [p.current], [frase]), prefix + [frase], maxTokens)
  {
    var q := Packing(p.closed + [p.current], [frase]);
    var prefix' := prefix + [frase];
    FlushPartitions(p, prefix, frase);
    FlushEmptyOnlyFirst(p, prefix, frase, maxTokens);
    assert SumWords([frase]) == WordCount(frase) by { SumWordsAppend([], frase); }
    assert AllBounded(q, maxTokens);
    FlushFlushed(p, frase, maxTokens);
  }

  lemma FlushPartitions(p: Packing, prefix: seq<string>, frase: string)
    requires Partitions(p, prefix)
    ensures Partitions(Packing(p.closed + [p.current], [frase]), prefix + [frase])
  {
    FlattenAppend(p.closed, p.current);
  }

  lemma FlushEmptyOnlyFirst(p: Packing, prefix: seq<string>, frase: string, maxTokens: int)
    requires Partitions(p, prefix) && EmptyOnlyFirst(p, prefix, maxTokens)
    requires SumWords(p.current) + WordCount(frase) > maxTokens
    ensures EmptyOnlyFirst(Packing(p.closed + [p.current], [frase]), prefix + [frase], maxTokens)
  {
    var q := Packing(p.closed + [p.current], [frase]);
    var prefix' := prefix + [frase];
    if prefix == [] {
      assert prefix'[0] == frase;
      assert q.closed == [[]];
    } else {
      assert prefix'[0] == prefix[0];
      assert q.closed[0] == if |p.closed| > 0 then p.closed[0] else p.current;
    }
  }

  lemma FlushFlushed(p: Packing, frase: string, maxTokens: int)
    requires AllFlushed(p, maxTokens)
    requires SumWords(p.current) + WordCount(frase) > maxTokens
    ensures AllFlushed(Packing(p.closed + [p.current], [frase]), maxTokens)
  {
    var q := Packing(p.closed + [p.current], [frase]);
    forall j | 0 <= j < |q.closed|
      ensures Flushed(q.closed[j], NextGroup(q, j), maxTokens)
    {
      if j < |p.closed| {
        assert q.closed[j] == p.closed[j];
        assert NextGroup(q, j) == NextGroup(p, j);
      } else {
        assert q.closed[j] == p.current && NextGroup(q, j) == [frase];
      }
    }
  }

  /** Without a flush the sentence joins the current group, which stays within the bound. */
  lemma ExtendPreserves(p: Packing, prefix: seq<string>, frase: string, maxTokens: int)
    requires PackedFrom(p, prefix, maxTokens)
    requires SumWords(p.current) + WordCount(frase) <= maxTokens
    ensures PackedFrom(Packing(p.closed, p.current + [frase]), prefix + [frase], maxTokens)
  {
    var q := Packing(p.closed, p.current + [frase]);
    var prefix' := prefix + [frase];
    assert Partitions(q, prefix');
    assert prefix != [] ==> prefix'[0] == prefix[0];
    assert EmptyOnlyFirst(q, prefix', maxTokens);
    SumWordsAppend(p.current, frase);
    assert AllBounded(q, maxTokens);
    ExtendFlushed(p, frase, maxTokens);
  }

  lemma ExtendFlushed(p: Packing, frase: string, maxTokens: int)
    requires AllFlushed(p, maxTokens) && (p.closed != [] ==> p.current != [])
    ensures AllFlushed(Packing(p.closed, p.current + [frase]), maxTokens)
  {
    var q := Packing(p.closed, p.current + [frase]);
    forall j | 0 <= j < |q.closed|
      ensures Flushed(q.closed[j], NextGroup(q, j), maxTokens)
    {
      if j + 1 == |p.closed| {
        assert NextGroup(p, j)[0] == NextGroup(q, j)[0];
      }
    }
  }

  /** One iteration of the loop keeps `PackedFrom`, whichever branch it takes. */
  lemma StepPreserves(p: Packing, prefix: seq<string>, frase: string, maxTokens: int, q: Packing, prefix': seq<string>)
    requires PackedFrom(p, prefix, maxTokens)
    requires q == Step(p, frase, maxTokens) && prefix' == prefix + [frase]
    ensures PackedFrom(q, prefix', maxTokens)
  {
    if SumWords(p.current) + WordCount(frase) > maxTokens {
      FlushPreserves(p, prefix, frase, maxTokens);
    } else {
      ExtendPreserves(p, prefix, frase, maxTokens);
    }
  }

  /** The state `Pack` computes satisfies `PackedFrom`, by induction on the sentences. */
  lemma {:induction false} PackInvariant(frases: seq<string>, maxTokens: int)
    ensures PackedFrom(Pack(frases, maxTokens), frases, maxTokens)
    decreases |frases|
  {
    if frases == [] {
      assert Pack(frases, maxTokens) == Packing([], []);
    } else {
      var init, last := frases[..|frases| - 1], frases[|frases| - 1];
      PackInvariant(init, maxTokens);
      assert init + [last] == frases;
      StepPreserves(Pack(init, maxTokens), init, last, maxTokens, Pack(frases, maxTokens), frases);
    }
  }

  /** Block `i` has as many words as its sentence group. */
  lemma BlockWords(frases: seq<string>, maxTokens: int, i: nat)
    requires i < |Blocks(frases, maxTokens)|
    ensures |Blocks(frases, maxTokens)| == |Groups(frases, maxTokens)|
    ensures Blocks(frases, maxTokens)[i] == Join(Groups(frases, maxTokens)[i])
    ensures WordCount(Blocks(frases, maxTokens)[i]) == SumWords(Groups(frases, maxTokens)[i])
  {
    JoinWordCount(Groups(frases, maxTokens)[i]);
  }

  /**
   * No blocks for no sentences; otherwise the last block is non-empty and
   * there is at most one block more than there are sentences.
   */
  lemma BlockCount(frases: seq<string>, maxTokens: int)
    ensures frases == [] <==> Blocks(frases, maxTokens) == []
    ensures frases != [] ==> Groups(frases, maxTokens)[|Groups(frases, maxTokens)| - 1] != []
    ensures |Blocks(frases, maxTokens)| <= |frases| + 1
  {
    PackInvariant(frases, maxTokens);
  }

  /** Reading the groups in order gives back the input sentences, and each block is its group joined by spaces. */
  lemma GroupsPartitionSentences(frases: seq<string>, maxTokens: int)
    ensures Flatten(Groups(frases, maxTokens)) == frases
    ensures |Blocks(frases, maxTokens)| == |Groups(frases, maxTokens)|
    ensures forall i :: 0 <= i < |Groups(frases, maxTokens)| ==>
              Blocks(frases, maxTokens)[i] == Join(Groups(frases, maxTokens)[i])
  {
    var p := Pack(frases, maxTokens);
    PackInvariant(frases, maxTokens);
    if p.current != [] {
      FlattenAppend(p.closed, p.current);
    }
  }

  /** Every group index below the last one has a successor group that starts with the sentence that forced the flush. */
  lemma GroupAt(frases: seq<string>, maxTokens: int, i: nat)
    requires i < |Groups(frases, maxTokens)|
    ensures frases != []
    ensures Bounded(Groups(frases, maxTokens)[i], maxTokens)
    ensures i > 0 ==> Groups(frases, maxTokens)[i] != []
    ensures i + 1 < |Groups(frases, maxTokens)| ==>
              Flushed(Groups(frases, maxTokens)[i], Groups(frases, maxTokens)[i + 1], maxTokens)
  {
    var p := Pack(frases, maxTokens);
    PackInvariant(frases, maxTokens);
    if i < |p.closed| {
      assert i + 1 < |Groups(frases, maxTokens)| ==> Groups(frases, maxTokens)[i + 1] == NextGroup(p, i);
    }
  }

  /** A block of two or more sentences stays within `maxTokens` words. */
  lemma MultiSentenceBlockWithinBound(frases: seq<string>, maxTokens: int, i: nat)
    requires i < |Blocks(frases, maxTokens)|
    requires |Groups(frases, maxTokens)[i]| >= 2
    ensures WordCount(Blocks(frases, maxTokens)[i]) <= maxTokens
  {
    BlockWords(frases, maxTokens, i);
    GroupAt(frases, maxTokens, i);
  }

  /**
   * A block over `maxTokens` words is one sentence that alone is over the
   * bound, or the leading empty block when the bound is negative.
   */
  lemma OversizedBlockIsOneSentence(frases: seq<string>, maxTokens: int, i: nat)
    requires i < |Blocks(frases, maxTokens)|
    requires WordCount(Blocks(frases, maxTokens)[i]) > maxTokens
    ensures || (|Groups(frases, maxTokens)[i]| == 1 && WordCount(Groups(frases, maxTokens)[i][0]) > maxTokens)
            || (i == 0 && Blocks(frases, maxTokens)[0] == "" && maxTokens < 0)
  {
    var g := Groups(frases, maxTokens)[i];
    BlockWords(frases, maxTokens, i);
    GroupAt(frases, maxTokens, i);
    if |g| == 1 {
      assert g == [] + [g[0]];
      SumWordsAppend([], g[0]);
    }
  }

  /**
   * Packing is greedy: a block and the first sentence of the next block
   * together exceed `maxTokens`, so no block could have taken one more
   * sentence.
   */
  lemma GreedyPacking(frases: seq<string>, maxTokens: int, i: nat)
    requires i + 1 < |Blocks(frases, maxTokens)|
    ensures Groups(frases, maxTokens)[i + 1] != []
    ensures WordCount(Blocks(frases, maxTokens)[i]) + WordCount(Groups(frases, maxTokens)[i + 1][0]) > maxTokens
  {
    BlockWords(frases, maxTokens, i);
    GroupAt(frases, maxTokens, i);
  }

  /**
   * Only the first block can be empty, and it is the empty string exactly
   * when the first sentence alone exceeds `maxTokens`.
   */
  lemma OnlyFirstBlockEmpty(frases: seq<string>, maxTokens: int)
    ensures forall i :: 0 < i < |Groups(frases, maxTokens)| ==> Groups(frases, maxTokens)[i] != []
    ensures frases != [] ==>
              (Groups(frases, maxTokens)[0] == [] <==> WordCount(frases[0]) > maxTokens)
    ensures frases != [] && WordCount(frases[0]) > maxTokens ==> Blocks(frases, maxTokens)[0] == ""
  {
    var p := Pack(frases, maxTokens);
    var groups := Groups(frases, maxTokens);
    PackInvariant(frases, maxTokens);
    assert EmptyOnlyFirst(p, frases, maxTokens);
    assert groups == if p.current != [] then p.closed + [p.current] else p.closed;
    forall i | 0 < i < |groups|
      ensures groups[i] != []
    {
      if i < |p.closed| {
        assert groups[i] == p.closed[i];
      }
    }
    if frases != [] {
      assert p.current != [];
      if |p.closed| == 0 {
        assert groups[0] == p.current;
      } else {
        assert groups[0] == p.closed[0];
      }
    }
  }
}
