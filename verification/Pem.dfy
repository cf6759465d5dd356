/** Splitting key files into PEM blocks. The boundary lines are those of section 3 of RFC 7468. */
module Pem {
  import opened Common

  // "-----END ", "-----" and "ENCRYPTED" in ASCII.
  const END: Bytes := [45, 45, 45, 45, 45, 69, 78, 68, 32]
  const DASHES: Bytes := [45, 45, 45, 45, 45]
  const ENCRYPTED: Bytes := [69, 78, 67, 82, 89, 80, 84, 69, 68]

  /** Space, tab, line feed, form feed and carriage return. */
  predicate IsWhitespace(b: byte) {
    b == 32 || b == 9 || b == 10 || b == 12 || b == 13
  }

  predicate AllWhitespace(s: Bytes) {
    forall i :: 0 <= i < |s| ==> IsWhitespace(s[i])
  }

  predicate OccursAt(haystack: Bytes, needle: Bytes, i: int) {
    0 <= i && i + |needle| <= |haystack| && haystack[i..i + |needle|] == needle
  }

  function FindFrom(haystack: Bytes, needle: Bytes, start: nat): (r: Option<nat>)
    ensures r.Some? ==> start <= r.value <= |haystack| - |needle|
    decreases |haystack| - start
  {
    if start + |needle| > |haystack| then None
    else if OccursAt(haystack, needle, start) then Some(start)
    else if start < |haystack| then FindFrom(haystack, needle, start + 1)
    else None
  }

  /** The position of the first window of `haystack` equal to `needle`. */
  function Find(haystack: Bytes, needle: Bytes): (r: Option<nat>)
    ensures r.Some? ==> r.value <= |haystack| - |needle|
  {
    FindFrom(haystack, needle, 0)
  }

  ghost predicate FirstOccurrence(haystack: Bytes, needle: Bytes, from: nat, i: nat) {
    from <= i && OccursAt(haystack, needle, i) && forall j :: from <= j < i ==> !OccursAt(haystack, needle, j)
  }

  lemma {:induction false} FindFromIsFirst(haystack: Bytes, needle: Bytes, start: nat)
    ensures match FindFrom(haystack, needle, start)
            case Some(i) => FirstOccurrence(haystack, needle, start, i)
            case None => forall j :: start <= j ==> !OccursAt(haystack, needle, j)
    decreases |haystack| - start
  {
    if start < |haystack| && !OccursAt(haystack, needle, start) {
      FindFromIsFirst(haystack, needle, start + 1);
    }
  }

  /** The search answers with the first occurrence exactly when there is one. */
  lemma FindIsFirst(haystack: Bytes, needle: Bytes, i: nat)
    ensures Find(haystack, needle) == Some(i) <==> FirstOccurrence(haystack, needle, 0, i)
    ensures Find(haystack, needle).None? <==> forall j :: !OccursAt(haystack, needle, j)
  {
    FindFromIsFirst(haystack, needle, 0);
    if FirstOccurrence(haystack, needle, 0, i) {
      var k := Find(haystack, needle).value;
      assert !(k < i);
    }
  }

  lemma FindIsBounded(haystack: Bytes, needle: Bytes, i: nat)
    requires OccursAt(haystack, needle, i)
    ensures Find(haystack, needle).Some? && Find(haystack, needle).value <= i
  {
    hide Find, OccursAt;
    FindIsFirst(haystack, needle, 0);
    FindIsFirst(haystack, needle, Find(haystack, needle).value);
  }

  predicate IsEncryptedPem(pem: Bytes) {
    Find(pem, ENCRYPTED).Some?
  }

  lemma OccursInExtension(prefix: Bytes, s: Bytes, suffix: Bytes, needle: Bytes, i: int)
    requires 0 <= i && i + |needle| <= |s|
    ensures OccursAt(prefix + s + suffix, needle, |prefix| + i) == OccursAt(s, needle, i)
  {
    assert (prefix + s + suffix)[|prefix| + i..|prefix| + i + |needle|] == s[i..i + |needle|];
  }

  lemma EncryptedPemInExtension(prefix: Bytes, s: Bytes, suffix: Bytes)
    requires IsEncryptedPem(s)
    ensures IsEncryptedPem(prefix + s + suffix)
  {
    var i := Find(s, ENCRYPTED).value;
    FindIsFirst(s, ENCRYPTED, i);
    OccursInExtension(prefix, s, suffix, ENCRYPTED, i);
    FindIsFirst(prefix + s + suffix, ENCRYPTED, 0);
  }

  /** Where the first block of `s` ends: after the first dashes that follow the first end marker. */
  function BlockEnd(s: Bytes): (r: Option<nat>)
    ensures r.Some? ==> |END| + |DASHES| <= r.value <= |s|
  {
    var start := Find(s, END);
    if start.None? then None else
    var labelAt := start.value + |END|;
    var close := Find(s[labelAt..], DASHES);
    if close.None? then None else Some(labelAt + close.value + |DASHES|)
  }

  /** Says directly, without searching, that the first block of `s` ends at `e`. */
  ghost predicate EndsAt(s: Bytes, start: nat, close: nat, e: nat) {
    && e == close + |DASHES|
    && FirstOccurrence(s, END, 0, start)
    && FirstOccurrence(s, DASHES, start + |END|, close)
  }

  lemma OccurrencesInSlice(s: Bytes, needle: Bytes, from: nat)
    requires from <= |s|
    ensures forall i :: from <= i ==> OccursAt(s[from..], needle, i - from) == OccursAt(s, needle, i)
  {
    forall i | from <= i
      ensures OccursAt(s[from..], needle, i - from) == OccursAt(s, needle, i)
    {
      if i + |needle| <= |s| {
        assert s[from..][i - from..i - from + |needle|] == s[i..i + |needle|];
      }
    }
  }

  lemma FirstInSlice(s: Bytes, needle: Bytes, from: nat, i: nat)
    requires from <= |s| && from <= i
    ensures FirstOccurrence(s[from..], needle, 0, i - from) <==> FirstOccurrence(s, needle, from, i)
  {
    OccurrencesInSlice(s, needle, from);
    if FirstOccurrence(s, needle, from, i) {
      forall j | 0 <= j < i - from
        ensures !OccursAt(s[from..], needle, j)
      {
        assert !OccursAt(s, needle, from + j);
        assert OccursAt(s[from..], needle, from + j - from) == OccursAt(s, needle, from + j);
      }
    }
    if FirstOccurrence(s[from..], needle, 0, i - from) {
      forall j | from <= j < i
        ensures !OccursAt(s, needle, j)
      {
        assert !OccursAt(s[from..], needle, j - from);
      }
    }
  }

  lemma BlockEndMeans(s: Bytes, start: nat, close: nat, e: nat)
    requires EndsAt(s, start, close, e)
    ensures BlockEnd(s) == Some(e)
  {
    FindIsFirst(s, END, start);
    FirstInSlice(s, DASHES, start + |END|, close);
    FindIsFirst(s[start + |END|..], DASHES, close - (start + |END|));
  }

  lemma BlockEndWitness(s: Bytes) returns (start: nat, close: nat)
    requires BlockEnd(s).Some?
    ensures EndsAt(s, start, close, BlockEnd(s).value)
  {
    start := Find(s, END).value;
    FindIsFirst(s, END, start);
    var labelAt := start + |END|;
    var offset := Find(s[labelAt..], DASHES).value;
    FindIsFirst(s[labelAt..], DASHES, offset);
    close := labelAt + offset;
    FirstInSlice(s, DASHES, labelAt, close);
  }

  /** The first block of `s` ends at `e` exactly if `e` is right behind the first dashes that follow the
      first end marker; it has no end exactly if there is no marker, or no dashes follow it. */
  lemma BlockEndIs(s: Bytes, e: nat)
    ensures BlockEnd(s) == Some(e) <==> exists start: nat, close: nat :: EndsAt(s, start, close, e)
  {
    hide BlockEnd;
    if start: nat, close: nat :| EndsAt(s, start, close, e) {
      BlockEndMeans(s, start, close, e);
    }
    if BlockEnd(s) == Some(e) {
      var start, close := BlockEndWitness(s);
    }
  }

  lemma OccurrencesInPrefix(a: Bytes, b: Bytes, needle: Bytes)
    ensures forall i :: 0 <= i <= |a| - |needle| ==> OccursAt(a + b, needle, i) == OccursAt(a, needle, i)
  {
    forall i | 0 <= i <= |a| - |needle|
      ensures OccursAt(a + b, needle, i) == OccursAt(a, needle, i)
    {
      assert (a + b)[i..i + |needle|] == a[i..i + |needle|];
    }
  }

  /** A block boundary depends on nothing after it. */
  lemma BlockEndStable(a: Bytes, b: Bytes, e: nat)
    requires e <= |a|
    ensures BlockEnd(a) == Some(e) <==> BlockEnd(a + b) == Some(e)
  {
    OccurrencesInPrefix(a, b, END);
    OccurrencesInPrefix(a, b, DASHES);
    if BlockEnd(a) == Some(e) {
      var start, close := BlockEndWitness(a);
      BlockEndMeans(a + b, start, close, e);
    } else if BlockEnd(a + b) == Some(e) {
      var start, close := BlockEndWitness(a + b);
      BlockEndMeans(a, start, close, e);
    }
  }

  /** The blocks of a key file. Text after the last end line counts as a block unless it is blank. */
  function PemBlocks(pem: Bytes): (r: seq<Bytes>)
    decreases |pem|
  {
    match BlockEnd(pem)
    case Some(e) => [pem[..e]] + PemBlocks(pem[e..])
    case None => if AllWhitespace(pem) then [] else [pem]
  }

  /** What follows the last end line. */
  function Unclosed(pem: Bytes): (r: Bytes)
    decreases |pem|
  {
    match BlockEnd(pem)
    case Some(e) => Unclosed(pem[e..])
    case None => pem
  }

  /** The blank text that belongs to no block. */
  function Dropped(pem: Bytes): (r: Bytes) {
    if AllWhitespace(Unclosed(pem)) then Unclosed(pem) else []
  }

  method SplitPem(pem: Bytes) returns (blocks: seq<Bytes>)
    ensures blocks == PemBlocks(pem)
  {
    blocks := [];
    var rest := pem;
    while true
      invariant PemBlocks(pem) == blocks + PemBlocks(rest)
      decreases |rest|
    {
      var start := Find(rest, END);
      if start.None? {
        break;
      }
      var labelAt := start.value + |END|;
      var close := Find(rest[labelAt..], DASHES);
      if close.None? {
        break;
      }
      var end := labelAt + close.value + |DASHES|;
      assert BlockEnd(rest) == Some(end);
      ConcatAssociative(blocks, [rest[..end]], PemBlocks(rest[end..]));
      blocks := blocks + [rest[..end]];
      rest := rest[end..];
    }
    assert BlockEnd(rest).None?;
    if !AllWhitespace(rest) {
      blocks := blocks + [rest];
    }
  }

  /** A closed block ends exactly where its own first end line does. */
  predicate Closed(block: Bytes) {
    BlockEnd(block) == Some(|block|)
  }

  /** The declarative meaning of splitting: consecutive blocks and a blank remainder make up the
      file, and every block is closed, except that the last may be unclosed text, which is not
      blank and is followed by nothing. */
  ghost predicate IsSplit(pem: Bytes, blocks: seq<Bytes>, dropped: Bytes) {
    && Flatten(blocks) + dropped == pem
    && AllWhitespace(dropped)
    && forall i :: 0 <= i < |blocks| ==>
         || Closed(blocks[i])
         || (i == |blocks| - 1 && BlockEnd(blocks[i]).None? && !AllWhitespace(blocks[i]) && dropped == [])
  }

  lemma OccurrenceHead(haystack: Bytes, needle: Bytes, i: int)
    requires OccursAt(haystack, needle, i) && needle != []
    ensures haystack[i] == needle[0]
  {
    assert haystack[i] == haystack[i..i + |needle|][0];
  }

  lemma WhitespaceHoldsNoBlock(w: Bytes)
    requires AllWhitespace(w)
    ensures BlockEnd(w).None?
  {
    if Find(w, END).Some? {
      FindIsFirst(w, END, Find(w, END).value);
      OccurrenceHead(w, END, Find(w, END).value);
    }
  }

  /** Any split is the computed one. */
  lemma {:induction false} SplitIsUnique(pem: Bytes, blocks: seq<Bytes>, dropped: Bytes)
    requires IsSplit(pem, blocks, dropped)
    ensures blocks == PemBlocks(pem) && dropped == Dropped(pem)
    decreases |blocks|
  {
    hide BlockEnd, AllWhitespace;
    if blocks == [] {
      assert pem == dropped;
      WhitespaceHoldsNoBlock(pem);
    } else {
      var b, rest := blocks[0], Flatten(blocks[1..]) + dropped;
      assert pem == b + rest;
      if Closed(b) {
        BlockEndStable(b, rest, |b|);
        assert pem[..|b|] == b && pem[|b|..] == rest;
        SplitIsUnique(rest, blocks[1..], dropped);
        assert blocks == [b] + blocks[1..];
      } else {
        assert blocks == [b] && pem == b;
      }
    }
  }

  /** A closed block in front of a split text gives a split text. */
  lemma SplitWithClosedBlock(first: Bytes, pem: Bytes, blocks: seq<Bytes>, dropped: Bytes)
    requires Closed(first) && IsSplit(pem, blocks, dropped)
    ensures IsSplit(first + pem, [first] + blocks, dropped)
  {
    hide BlockEnd;
    var all := [first] + blocks;
    assert all[1..] == blocks;
    ConcatAssociative(first, Flatten(blocks), dropped);
    forall i | 1 <= i < |all|
      ensures all[i] == blocks[i - 1]
    {
    }
  }

  lemma {:induction false} SplitExists(pem: Bytes)
    ensures IsSplit(pem, PemBlocks(pem), Dropped(pem))
    decreases |pem|
  {
    hide BlockEnd;
    if BlockEnd(pem).Some? {
      var e := BlockEnd(pem).value;
      SplitExists(pem[e..]);
      assert pem == pem[..e] + pem[e..];
      BlockEndStable(pem[..e], pem[e..], e);
      SplitWithClosedBlock(pem[..e], pem[e..], PemBlocks(pem[e..]), Dropped(pem[e..]));
    } else {
      assert Flatten([pem]) == pem;
    }
  }

  /** The code's splitting is the only minimal partition of the file. */
  lemma SplitCharacterised(pem: Bytes, blocks: seq<Bytes>, dropped: Bytes)
    ensures IsSplit(pem, blocks, dropped) <==> blocks == PemBlocks(pem) && dropped == Dropped(pem)
  {
    SplitExists(pem);
    if IsSplit(pem, blocks, dropped) {
      SplitIsUnique(pem, blocks, dropped);
    }
  }

  /** Blank text in front of a key file moves into its first block and is dropped if there is none. */
  function Prepend(w: Bytes, blocks: seq<Bytes>): (r: seq<Bytes>) {
    if blocks == [] then [] else [w + blocks[0]] + blocks[1..]
  }

  lemma NoEndInsideWhitespace(w: Bytes, b: Bytes, i: nat)
    requires AllWhitespace(w) && i < |w|
    ensures !OccursAt(w + b, END, i)
  {
    if OccursAt(w + b, END, i) {
      OccurrenceHead(w + b, END, i);
    }
  }

  lemma OccurrencesShift(w: Bytes, b: Bytes, needle: Bytes)
    ensures forall i :: |w| <= i ==> OccursAt(w + b, needle, i) == OccursAt(b, needle, i - |w|)
  {
    forall i | |w| <= i
      ensures OccursAt(w + b, needle, i) == OccursAt(b, needle, i - |w|)
    {
      if i + |needle| <= |w + b| {
        assert w + b + [] == w + b;
        OccursInExtension(w, b, [], needle, i - |w|);
      }
    }
  }

  lemma FirstOccurrenceShifts(w: Bytes, b: Bytes, needle: Bytes, from: nat, i: nat)
    ensures FirstOccurrence(b, needle, from, i) <==> FirstOccurrence(w + b, needle, |w| + from, |w| + i)
  {
    OccurrencesShift(w, b, needle);
    if FirstOccurrence(w + b, needle, |w| + from, |w| + i) {
      forall j | from <= j < i
        ensures !OccursAt(b, needle, j)
      {
        assert !OccursAt(w + b, needle, |w| + j);
      }
    }
  }

  /** Blank text in front of `b` moves the end of its first block and does nothing else. */
  lemma EndsAtShifts(w: Bytes, b: Bytes, start: nat, close: nat, e: nat)
    requires AllWhitespace(w)
    ensures EndsAt(b, start, close, e) <==> EndsAt(w + b, |w| + start, |w| + close, |w| + e)
  {
    FirstOccurrenceShifts(w, b, END, 0, start);
    FirstOccurrenceShifts(w, b, DASHES, start + |END|, close);
    forall j | 0 <= j < |w|
      ensures !OccursAt(w + b, END, j)
    {
      NoEndInsideWhitespace(w, b, j);
    }
  }

  lemma WhitespaceShiftsBlockEnd(w: Bytes, b: Bytes)
    requires AllWhitespace(w)
    ensures BlockEnd(w + b) == if BlockEnd(b).Some? then Some(|w| + BlockEnd(b).value) else None
  {
    hide BlockEnd;
    if BlockEnd(b).Some? {
      var e := BlockEnd(b).value;
      var start, close := BlockEndWitness(b);
      EndsAtShifts(w, b, start, close, e);
      BlockEndMeans(w + b, |w| + start, |w| + close, |w| + e);
    } else if BlockEnd(w + b).Some? {
      var e := BlockEnd(w + b).value;
      var start, close := BlockEndWitness(w + b);
      if start < |w| {
        NoEndInsideWhitespace(w, b, start);
      }
      EndsAtShifts(w, b, start - |w|, close - |w|, e - |w|);
      BlockEndMeans(b, start - |w|, close - |w|, e - |w|);
    }
  }

  lemma WhitespaceConcat(w: Bytes, b: Bytes)
    requires AllWhitespace(w)
    ensures AllWhitespace(w + b) <==> AllWhitespace(b)
  {
    forall i | 0 <= i < |b|
      ensures (w + b)[|w| + i] == b[i]
    {
    }
  }

  lemma PrependToCons(w: Bytes, first: Bytes, rest: seq<Bytes>)
    ensures Prepend(w, [first] + rest) == [w + first] + rest
    ensures Prepend(w, [first]) == [w + first]
  {
    assert ([first] + rest)[1..] == rest;
  }

  lemma PemBlocksUnfold(pem: Bytes)
    ensures BlockEnd(pem).Some? ==>
      PemBlocks(pem) == [pem[..BlockEnd(pem).value]] + PemBlocks(pem[BlockEnd(pem).value..])
    ensures BlockEnd(pem).None? ==> PemBlocks(pem) == if AllWhitespace(pem) then [] else [pem]
  {
    hide BlockEnd;
  }

  lemma NoBlocksMeansBlank(text: Bytes)
    ensures PemBlocks(text) == [] <==> AllWhitespace(text)
  {
    if AllWhitespace(text) {
      WhitespaceHoldsNoBlock(text);
    }
  }

  lemma WhitespacePrefixCuts(w: Bytes, b: Bytes, e: nat)
    requires e <= |b|
    ensures (w + b)[..|w| + e] == w + b[..e] && (w + b)[|w| + e..] == b[e..]
  {
  }

  lemma WhitespacePrefixSplits(w: Bytes, b: Bytes)
    requires AllWhitespace(w)
    ensures PemBlocks(w + b) == Prepend(w, PemBlocks(b))
  {
    hide BlockEnd, PemBlocks, AllWhitespace, Prepend;
    PemBlocksUnfold(w + b);
    PemBlocksUnfold(b);
    WhitespaceShiftsBlockEnd(w, b);
    match BlockEnd(b)
    case Some(e) =>
      WhitespacePrefixCuts(w, b, e);
      PrependToCons(w, b[..e], PemBlocks(b[e..]));
    case None =>
      WhitespaceConcat(w, b);
      PrependToCons(w, b, []);
      PrependToNone(w);
  }

  lemma PrependToNone(w: Bytes)
    ensures Prepend(w, []) == []
  {
  }

  /** Splitting is compositional: when `a` leaves only blank text after its last end line, a longer
      file splits into the blocks of `a` and then those of `b`, the first of which takes over the
      blank text. */
  lemma {:induction false} SplitOfConcatenation(a: Bytes, b: Bytes)
    requires AllWhitespace(Unclosed(a))
    ensures PemBlocks(a + b) == PemBlocks(a) + Prepend(Unclosed(a), PemBlocks(b))
    decreases |a|
  {
    if BlockEnd(a).Some? {
      var e := BlockEnd(a).value;
      BlockEndStable(a, b, e);
      assert (a + b)[..e] == a[..e];
      assert (a + b)[e..] == a[e..] + b;
      SplitOfConcatenation(a[e..], b);
      ConcatAssociative([a[..e]], PemBlocks(a[e..]), Prepend(Unclosed(a), PemBlocks(b)));
    } else {
      WhitespacePrefixSplits(a, b);
    }
  }

  /** The text after the last end line of a joined file is that of its last part, or, when that has
      no block, both remainders together. */
  lemma UnclosedOfBlockAndMore(a: Bytes, b: Bytes)
    requires BlockEnd(a).Some?
    ensures Unclosed(a + b) == Unclosed(a[BlockEnd(a).value..] + b)
  {
    hide BlockEnd;
    var e := BlockEnd(a).value;
    BlockEndStable(a, b, e);
    assert (a + b)[e..] == a[e..] + b;
  }

  lemma UnclosedAfterBlank(w: Bytes, b: Bytes)
    requires AllWhitespace(w) && BlockEnd(b).Some?
    ensures Unclosed(w + b) == Unclosed(b)
  {
    hide BlockEnd;
    WhitespaceShiftsBlockEnd(w, b);
    var e := BlockEnd(b).value;
    assert (w + b)[|w| + e..] == b[e..];
  }

  /** Joining two single-block files leaves the blank text of the second. */
  lemma UnclosedOfConcatenation(a: Bytes, b: Bytes)
    requires IsOneBlock(a) && IsOneBlock(b)
    ensures Unclosed(a + b) == BlankAfter(b)
  {
    hide BlockEnd, Unclosed;
    UnclosedOfBlockAndMore(a, b);
    UnclosedAfterBlank(BlankAfter(a), b);
    OneBlockSplits(b);
  }

  /** One block, closed by an end line and followed by nothing but blank text. */
  predicate IsOneBlock(pem: Bytes) {
    BlockEnd(pem).Some? && AllWhitespace(pem[BlockEnd(pem).value..])
  }

  function BlockOf(pem: Bytes): (r: Bytes)
    requires BlockEnd(pem).Some?
  {
    pem[..BlockEnd(pem).value]
  }

  function BlankAfter(pem: Bytes): (r: Bytes)
    requires BlockEnd(pem).Some?
  {
    pem[BlockEnd(pem).value..]
  }

  lemma OneBlockSplits(pem: Bytes)
    requires IsOneBlock(pem)
    ensures PemBlocks(pem) == [BlockOf(pem)] && Unclosed(pem) == BlankAfter(pem)
  {
    WhitespaceHoldsNoBlock(BlankAfter(pem));
  }

  lemma BlockOfIsClosed(pem: Bytes)
    requires BlockEnd(pem).Some?
    ensures Closed(BlockOf(pem))
  {
    hide BlockEnd;
    assert pem == BlockOf(pem) + BlankAfter(pem);
    BlockEndStable(BlockOf(pem), BlankAfter(pem), |BlockOf(pem)|);
  }

  lemma ClosedIsOneBlock(block: Bytes, tail: Bytes)
    requires Closed(block)
    ensures BlockEnd(block + tail) == Some(|block|) && (block + tail)[..|block|] == block
    ensures (block + tail)[|block|..] == tail
  {
    hide BlockEnd;
    BlockEndStable(block, tail, |block|);
  }

  lemma BlankBytes(s: Bytes)
    ensures AllWhitespace(s) <==> forall i :: 0 <= i < |s| ==> s[i] in {9, 10, 12, 13, 32}
  {
  }

  /** What follows a closed block goes uncounted exactly if each of its bytes is a tab, a line feed, a
      form feed, a carriage return or a space. */
  lemma TailIsDropped(block: Bytes, tail: Bytes)
    requires Closed(block)
    ensures PemBlocks(block + tail) == [block] <==> forall i :: 0 <= i < |tail| ==> tail[i] in {9, 10, 12, 13, 32}
    ensures PemBlocks(block + tail) != [block] ==> |PemBlocks(block + tail)| >= 2
  {
    hide BlockEnd, PemBlocks, AllWhitespace;
    ClosedIsOneBlock(block, tail);
    PemBlocksUnfold(block + tail);
    NoBlocksMeansBlank(tail);
    BlankBytes(tail);
    assert ([block] + PemBlocks(tail))[1..] == PemBlocks(tail);
  }

  /** The marker, the dashes and the mark, spelled out. */
  lemma Spelling()
    ensures END == Ascii("-----END ") && DASHES == Ascii("-----") && ENCRYPTED == Ascii("ENCRYPTED")
  {
  }

  /** Two single-block files joined end to end are two blocks, in order. */
  lemma TwoBlockFileSplits(first: Bytes, second: Bytes)
    requires IsOneBlock(first) && IsOneBlock(second)
    ensures PemBlocks(first + second) == [BlockOf(first), BlankAfter(first) + BlockOf(second)]
  {
    OneBlockSplits(first);
    OneBlockSplits(second);
    SplitOfConcatenation(first, second);
  }
}
