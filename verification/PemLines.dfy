/** The description of the splitter speaks of end lines. The code looks for the marker, and for the
    dashes after it, anywhere in the text. Here the two are compared on all inputs. */
module PemLines {
  import opened Common
  import opened Pem

  // A line ends at a line feed or a carriage return.
  predicate IsLineBreak(b: byte) {
    b == 10 || b == 13
  }

  predicate LineStart(s: Bytes, i: nat) {
    i == 0 || (i <= |s| && IsLineBreak(s[i - 1]))
  }

  predicate LineEnd(s: Bytes, i: nat) {
    i == |s| || (i < |s| && IsLineBreak(s[i]))
  }

  /** `s[from..to]` is a whole line: END, a label, DASHES. */
  predicate EndLine(s: Bytes, from: nat, to: nat) {
    && LineStart(s, from) && LineEnd(s, to)
    && from + |END| + |DASHES| <= to <= |s|
    && OccursAt(s, END, from) && OccursAt(s, DASHES, to - |DASHES|)
    && forall i :: from <= i < to ==> !IsLineBreak(s[i])
  }

  ghost predicate FirstEndLine(s: Bytes, from: nat, to: nat) {
    EndLine(s, from, to) && forall i, j :: EndLine(s, i, j) ==> from <= i
  }

  /** Where the first block ends according to the description: after the first end line. */
  ghost function LineBlockEnd(s: Bytes): (r: Option<nat>)
    ensures r.Some? ==> |END| + |DASHES| <= r.value <= |s|
  {
    if to, from :| FirstEndLine(s, from, to) then Some(to) else None
  }

  lemma EndLineUnique(s: Bytes, from: nat, to: nat, to': nat)
    requires EndLine(s, from, to) && EndLine(s, from, to')
    ensures to == to'
  {
  }

  /** Where there is an end line, there is a first one. */
  lemma {:induction false} FirstEndLineExists(s: Bytes, from: nat, to: nat)
    requires EndLine(s, from, to)
    ensures exists i, j :: FirstEndLine(s, i, j)
    decreases from
  {
    hide EndLine;
    if i: nat, j: nat :| EndLine(s, i, j) && i < from {
      FirstEndLineExists(s, i, j);
    } else {
      assert FirstEndLine(s, from, to);
    }
  }

  lemma LineBlockEndIs(s: Bytes, from: nat, to: nat)
    requires FirstEndLine(s, from, to)
    ensures LineBlockEnd(s) == Some(to)
  {
    hide EndLine;
    forall i, j | FirstEndLine(s, i, j)
      ensures j == to
    {
      assert i == from;
      EndLineUnique(s, from, to, j);
    }
  }

  lemma MarkerBytes(s: Bytes, i: nat)
    requires OccursAt(s, END, i)
    ensures s[i + 8] == 32 && forall k :: i <= k < i + 8 ==> s[k] != 32
    ensures OccursAt(s, DASHES, i)
  {
    assert s[i + 8] == s[i..i + |END|][8];
    forall k | i <= k < i + 8
      ensures s[k] == END[k - i]
    {
      assert s[k] == s[i..i + |END|][k - i];
    }
    assert END[..|DASHES|] == DASHES;
    assert s[i..i + |DASHES|] == END[..|DASHES|];
  }

  /** Two markers do not overlap: a marker ends in a space and holds no other. */
  lemma MarkersAreApart(s: Bytes, i: nat, j: nat)
    requires OccursAt(s, END, i) && OccursAt(s, END, j) && i < j
    ensures i + |END| <= j
  {
    MarkerBytes(s, i);
    MarkerBytes(s, j);
  }

  /** An end line lies behind what the code takes for the end of the first block, or is that end's own
      line. */
  lemma EndLineIsNotBefore(s: Bytes, from: nat, to: nat)
    requires EndLine(s, from, to)
    ensures BlockEnd(s).Some? && Find(s, END).Some? && Find(s, END).value <= from && BlockEnd(s).value <= to
    ensures Find(s, END).value < from ==> BlockEnd(s).value < to
  {
    hide BlockEnd, Find;
    FindIsBounded(s, END, from);
    var start := Find(s, END).value;
    FindIsFirst(s, END, start);
    if start < from {
      MarkersAreApart(s, start, from);
      MarkerBytes(s, from);
    }
    var close := if start < from then from else to - |DASHES|;
    DashesBound(s, start, close);
  }

  lemma DashesBound(s: Bytes, start: nat, close: nat)
    requires Find(s, END) == Some(start) && start + |END| <= close && OccursAt(s, DASHES, close)
    ensures BlockEnd(s).Some? && BlockEnd(s).value <= close + |DASHES|
  {
    var labelAt := start + |END|;
    assert s[labelAt..][close - labelAt..close - labelAt + |DASHES|] == s[close..close + |DASHES|];
    FindIsBounded(s[labelAt..], DASHES, close - labelAt);
  }

  /** The first marker starts a line, and the first dashes after it end that line. */
  predicate MarkerOnLine(s: Bytes) {
    && Find(s, END).Some? && BlockEnd(s).Some?
    && var from, to := Find(s, END).value, BlockEnd(s).value;
    LineStart(s, from) && LineEnd(s, to) && forall i :: from <= i < to ==> !IsLineBreak(s[i])
  }

  lemma MarkerOnLineIsEndLine(s: Bytes)
    requires BlockEnd(s).Some?
    ensures Find(s, END).Some?
    ensures MarkerOnLine(s) <==> EndLine(s, Find(s, END).value, BlockEnd(s).value)
  {
    var start, close := BlockEndWitness(s);
    FindIsFirst(s, END, start);
  }

  /** The code ends the first block where the description does, if and only if there is no block or
      its marker is on a line of its own. */
  lemma BlockEndsOnLine(s: Bytes)
    ensures BlockEnd(s) == LineBlockEnd(s) <==> BlockEnd(s).None? || MarkerOnLine(s)
    ensures LineBlockEnd(s).Some? ==> BlockEnd(s).Some? && BlockEnd(s).value <= LineBlockEnd(s).value
  {
    hide EndLine, BlockEnd, MarkerOnLine;
    if BlockEnd(s).Some? {
      MarkerOnLineIsEndLine(s);
      if MarkerOnLine(s) {
        var from, to := Find(s, END).value, BlockEnd(s).value;
        forall i, j | EndLine(s, i, j)
          ensures from <= i
        {
          EndLineIsNotBefore(s, i, j);
        }
        LineBlockEndIs(s, from, to);
      }
    }
    if LineBlockEnd(s).Some? {
      var to, from :| FirstEndLine(s, from, to);
      LineBlockEndIs(s, from, to);
      EndLineIsNotBefore(s, from, to);
    }
  }

  // ---- The whole file ----

  /** The blocks according to the description. */
  ghost function LineBlocks(pem: Bytes): (r: seq<Bytes>)
    decreases |pem|
  {
    match LineBlockEnd(pem)
    case Some(e) => [pem[..e]] + LineBlocks(pem[e..])
    case None => if AllWhitespace(pem) then [] else [pem]
  }

  /** Every block that is followed by anything ends with an end line. */
  predicate CutsOnLines(pem: Bytes)
    decreases |pem|
  {
    match BlockEnd(pem)
    case Some(e) => e == |pem| || (MarkerOnLine(pem) && CutsOnLines(pem[e..]))
    case None => true
  }

  lemma LastBlock(pem: Bytes)
    requires BlockEnd(pem) == Some(|pem|)
    ensures PemBlocks(pem) == [pem] == LineBlocks(pem)
  {
    hide BlockEnd, LineBlockEnd, AllWhitespace;
    BlockEndsOnLine(pem);
    assert pem[..|pem|] == pem && pem[|pem|..] == [];
    NothingLeft();
    if AllWhitespace(pem) {
      WhitespaceHoldsNoBlock(pem);
    }
  }

  lemma NothingLeft()
    ensures PemBlocks([]) == [] == LineBlocks([])
  {
    hide BlockEnd, LineBlockEnd;
    WhitespaceHoldsNoBlock([]);
    BlockEndsOnLine([]);
  }

  /** The code splits a file as its description says, if and only if every block that is followed by
      anything ends with an end line. */
  lemma {:induction false} SplitsOnLines(pem: Bytes)
    ensures PemBlocks(pem) == LineBlocks(pem) <==> CutsOnLines(pem)
    decreases |pem|
  {
    hide BlockEnd, LineBlockEnd, MarkerOnLine, AllWhitespace;
    BlockEndsOnLine(pem);
    match BlockEnd(pem)
    case None =>
    case Some(e) =>
      if e == |pem| {
        LastBlock(pem);
      } else {
        SplitsOnLines(pem[e..]);
        if LineBlockEnd(pem) != Some(e) {
          FirstBlocksDiffer(pem, e);
        }
        assert ([pem[..e]] + PemBlocks(pem[e..]))[1..] == PemBlocks(pem[e..]);
        assert ([pem[..e]] + LineBlocks(pem[e..]))[1..] == LineBlocks(pem[e..]);
      }
  }

  lemma FirstBlocksDiffer(pem: Bytes, e: nat)
    requires BlockEnd(pem) == Some(e) && e < |pem| && LineBlockEnd(pem) != Some(e)
    ensures PemBlocks(pem) != LineBlocks(pem)
  {
    hide BlockEnd, LineBlockEnd;
    assert |PemBlocks(pem)[0]| == e;
    assert LineBlocks(pem) == [] || |LineBlocks(pem)[0]| != e;
  }

  /** A marker closed on the next line is an end for the code and no end line for the description. */
  lemma MarkerAcrossLines()
    ensures var pem := END + [10] + DASHES + [65];
            |PemBlocks(pem)| == 2 && LineBlocks(pem) == [pem]
  {
    hide BlockEnd, LineBlockEnd, PemBlocks;
    var pem := END + [10] + DASHES + [65];
    assert pem[9] == 10 && pem[15] == 65;
    assert OccursAt(pem, END, 0) && OccursAt(pem, DASHES, 10) && !OccursAt(pem, DASHES, 9);
    BlockEndMeans(pem, 0, 10, 15);
    NoEndLineAcross(pem);
    PemBlocksUnfold(pem);
    PemBlocksUnfold([65]);
    var rest: Bytes := [65];
    assert !IsWhitespace(pem[0]) && !IsWhitespace(rest[0]);
    assert pem[15..] == rest;
  }

  lemma NoEndLineAcross(pem: Bytes)
    requires |pem| == 16 && OccursAt(pem, END, 0) && pem[9] == 10
    ensures LineBlockEnd(pem).None?
  {
    assert IsLineBreak(pem[9]);
    forall from: nat, to: nat
      ensures !EndLine(pem, from, to)
    {
    }
  }
}
