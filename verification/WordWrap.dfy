/** The word wrapping of option descriptions. */
module WordWrap {
  /** A printed line and the separator dropped after it: nothing, a space or a newline. */
  datatype Piece = Piece(line: string, gap: string)

  /** What a C string holds at `i`: past its end, the terminator. */
  function At(s: string, i: nat): char {
    if i < |s| then s[i] else '\0'
  }

  /** The length of the stretch from `n` on, up to a newline, the end or the width. */
  function Scan(text: string, width: nat, n: nat): (r: nat)
    requires n <= width && n <= |text|
    ensures n <= r <= width && r <= |text|
    ensures forall i :: n <= i < r ==> text[i] != '\n'
    ensures r == width || r == |text| || text[r] == '\n'
    decreases width - n
  {
    if n < |text| && n < width && text[n] != '\n' then Scan(text, width, n + 1) else n
  }

  /** The last space at or before `n`, or zero. */
  function BackUp(text: string, n: nat): (r: nat)
    ensures r <= n && (r > 0 ==> At(text, r) == ' ')
    ensures forall k :: r < k <= n ==> At(text, k) != ' '
  {
    if n > 0 && At(text, n) != ' ' then BackUp(text, n - 1) else n
  }

  /** The length of the next line. */
  function Chunk(text: string, width: nat): nat {
    var n := Scan(text, width, 0);
    if n < width then n
    else
      var p := BackUp(text, n);
      if p < width / 2 then width else p
  }

  /** The separator skipped after a line of length `n`. */
  function Gap(text: string, n: nat): string {
    if n < |text| && (text[n] == ' ' || text[n] == '\n') then [text[n]] else []
  }

  // ---------------------------------------------------------------- where lines end

  /** The first `n` characters are there and hold no newline. */
  ghost predicate Clear(text: string, n: nat) {
    n <= |text| && forall i :: 0 <= i < n ==> text[i] != '\n'
  }

  /** A space at `k` that is neither beyond the width nor in the first half of the line. */
  ghost predicate GoodSpace(text: string, width: nat, k: nat) {
    width / 2 <= k <= width && k < |text| && text[k] == ' '
  }

  /**
   A line ends at a newline or at the end of the text when that comes before the width.
   Otherwise it ends at the last good space, and in mid-word only when there is none.
   */
  ghost predicate BreaksAt(text: string, width: nat, n: nat) {
    if Clear(text, width) then
      && n <= width
      && (forall k: nat :: GoodSpace(text, width, k) ==> GoodSpace(text, width, n) && k <= n)
      && (!GoodSpace(text, width, n) ==> n == width)
    else
      n < width && Clear(text, n) && (n == |text| || text[n] == '\n')
  }

  lemma ChunkBreaks(text: string, width: nat)
    requires width >= 2
    ensures BreaksAt(text, width, Chunk(text, width))
    ensures Clear(text, Chunk(text, width))
  {
    var n := Scan(text, width, 0);
    if n == width {
      assert Clear(text, width);
      var p := BackUp(text, n);
      assert forall k: nat :: GoodSpace(text, width, k) ==> At(text, k) == ' ';
      if width / 2 <= p { assert GoodSpace(text, width, p); }
    }
  }

  lemma BreakIsUnique(text: string, width: nat, m: nat, n: nat)
    requires BreaksAt(text, width, m) && BreaksAt(text, width, n)
    ensures m == n
  {
    if Clear(text, width) {
      assert GoodSpace(text, width, m) <==> GoodSpace(text, width, n);
    }
  }

  /** Every line of every text makes progress exactly when the width is at least two. */
  lemma ProgressExactly(width: nat)
    ensures (forall text: string :: |text| > 0 ==> 0 < Chunk(text, width) + |Gap(text, Chunk(text, width))|)
            <==> width >= 2
  {
    if width >= 2 {
      forall text: string | |text| > 0 ensures 0 < Chunk(text, width) + |Gap(text, Chunk(text, width))| {
        var n := Scan(text, width, 0);
      }
    } else {
      var text := "ab";
      assert Chunk(text, width) == 0 && Gap(text, 0) == [] by {
        if width == 1 {
          assert Scan(text, 1, 0) == Scan(text, 1, 1) == 1;
          assert BackUp(text, 1) == BackUp(text, 0) == 0;
        }
      }
    }
  }

  // ---------------------------------------------------------------- the loop

  /** The description, put together again from the lines and what was dropped after them. */
  function Rejoin(pieces: seq<Piece>): string {
    if |pieces| == 0 then []
    else
      var last := pieces[|pieces| - 1];
      Rejoin(pieces[..|pieces| - 1]) + (last.line + last.gap)
  }

  /** A line that fits, holds no newline, and ends where it should in the text it was cut from; a space or newline behind it is dropped. */
  ghost predicate CutFrom(text: string, width: nat, p: Piece) {
    && BreaksAt(text, width, |p.line|) && Clear(text, |p.line|)
    && p.line == text[..|p.line|]
    && p.gap == if |p.line| < |text| && text[|p.line|] in {' ', '\n'} then [text[|p.line|]] else []
  }

  /** Each piece is cut from what the ones before it leave. */
  ghost predicate Wraps(text: string, width: nat, pieces: seq<Piece>) {
    forall k :: 0 <= k < |pieces| ==>
      |Rejoin(pieces[..k])| <= |text| && CutFrom(text[|Rejoin(pieces[..k])|..], width, pieces[k])
  }

  lemma PieceFits(text: string, width: nat, p: Piece)
    requires width >= 2 && CutFrom(text, width, p)
    ensures |p.line| <= width && '\n' !in p.line && p.gap in {"", " ", "\n"}
    ensures p.gap == [] ==> |p.line| == |text| || (|p.line| == width && !exists k: nat :: GoodSpace(text, width, k))
  {
    if |p.line| < |text| && p.gap == [] {
      assert !GoodSpace(text, width, |p.line|);
    }
  }

  method NextChunk(text: string, width: nat) returns (n: nat)
    ensures n == Chunk(text, width)
  {
    n := 0;
    while n < |text| && n < width && text[n] != '\n'
      invariant n <= width && n <= |text| && Scan(text, width, 0) == Scan(text, width, n)
    {
      n := n + 1;
    }
    if n == width {
      while n > 0 && At(text, n) != ' '
        invariant n <= width && BackUp(text, width) == BackUp(text, n)
      {
        n := n - 1;
      }
      if n < width / 2 { n := width; }
    }
  }

  /** Lossless and bounded: the lines and what was dropped between them are the description. */
  method Wrap(description: string, width: nat) returns (pieces: seq<Piece>)
    requires width >= 2
    ensures Rejoin(pieces) == description
    ensures Wraps(description, width, pieces)
    ensures forall k :: 0 <= k < |pieces| ==>
              |pieces[k].line| <= width && '\n' !in pieces[k].line && pieces[k].gap in {"", " ", "\n"}
  {
    pieces := [];
    var cur, length := 0, |description|;
    while length > 0
      invariant 0 <= length && cur + length == |description|
      invariant Rejoin(pieces) == description[..cur]
      invariant Wraps(description, width, pieces)
    {
      hide Chunk, Rejoin, Wraps, CutFrom;
      var text := description[cur..];
      var n := NextChunk(text, width);
      ChunkProgress(text, width);
      ChunkIsCut(text, width);
      var gap := "";
      if At(text, n) == ' ' || At(text, n) == '\n' {
        gap := [text[n]];
        cur := cur + 1;
        length := length - 1;
      }
      cur := cur + n;
      length := length - n;
      var p := Piece(text[..n], gap);
      assert gap == Gap(text, n) && |Rejoin(pieces)| + |p.line + p.gap| == cur;
      WrapsExtend(description, width, pieces, p);
      pieces := pieces + [p];
    }
    assert description[..cur] == description;
    PiecesFit(description, width, pieces);
  }

  lemma ChunkIsCut(text: string, width: nat)
    requires width >= 2
    ensures var n := Chunk(text, width); n <= |text| && CutFrom(text, width, Piece(text[..n], Gap(text, n)))
  {
    hide Chunk, BreaksAt;
    ChunkBreaks(text, width);
  }

  lemma ChunkProgress(text: string, width: nat)
    requires width >= 2 && |text| > 0
    ensures Chunk(text, width) <= |text| && 0 < Chunk(text, width) + |Gap(text, Chunk(text, width))|
  {
    ChunkBreaks(text, width);
    ProgressExactly(width);
  }

  lemma PiecesFit(text: string, width: nat, pieces: seq<Piece>)
    requires width >= 2 && Wraps(text, width, pieces)
    ensures forall k :: 0 <= k < |pieces| ==>
              |pieces[k].line| <= width && '\n' !in pieces[k].line && pieces[k].gap in {"", " ", "\n"}
  {
    hide Rejoin, CutFrom;
    forall k | 0 <= k < |pieces|
      ensures |pieces[k].line| <= width && '\n' !in pieces[k].line && pieces[k].gap in {"", " ", "\n"}
    {
      PieceFits(text[|Rejoin(pieces[..k])|..], width, pieces[k]);
    }
  }

  lemma WrapsExtend(text: string, width: nat, pieces: seq<Piece>, p: Piece)
    requires Wraps(text, width, pieces) && |Rejoin(pieces)| <= |text| && Rejoin(pieces) == text[..|Rejoin(pieces)|]
    requires CutFrom(text[|Rejoin(pieces)|..], width, p)
    ensures Wraps(text, width, pieces + [p])
    ensures Rejoin(pieces + [p]) == Rejoin(pieces) + (p.line + p.gap)
    ensures |Rejoin(pieces + [p])| <= |text| && Rejoin(pieces + [p]) == text[..|Rejoin(pieces + [p])|]
  {
    hide BreaksAt, Clear;
    var all := pieces + [p];
    assert all[..|pieces|] == pieces;
    CutIsPrefix(text, |Rejoin(pieces)|, width, p);
    forall k | 0 <= k < |all|
      ensures |Rejoin(all[..k])| <= |text| && CutFrom(text[|Rejoin(all[..k])|..], width, all[k])
    {
      if k < |pieces| { assert all[..k] == pieces[..k] && all[k] == pieces[k]; }
    }
  }

  lemma CutIsPrefix(text: string, r: nat, width: nat, p: Piece)
    requires r <= |text| && CutFrom(text[r..], width, p)
    ensures var n := r + |p.line| + |p.gap|; n <= |text| && text[..n] == text[..r] + (p.line + p.gap)
  {}

  // ---------------------------------------------------------------- the width in use

  const LINE_LENGTH: int := 80
  const MIN_DESCRIPTION_LENGTH: int := 30

  /** The width left for descriptions beside an option column of `offset`: always enough for the loop to end. */
  function LineWidth(offset: nat): (w: nat)
    ensures w >= 30 && w >= 80 - offset && (w == 30 || w == 80 - offset)
  {
    if LINE_LENGTH - offset < MIN_DESCRIPTION_LENGTH then MIN_DESCRIPTION_LENGTH else LINE_LENGTH - offset
  }

  /** A description beside an option column of any width: the loop ends, and nothing is lost. */
  method Describe(description: string, offset: nat) returns (pieces: seq<Piece>)
    ensures Rejoin(pieces) == description && Wraps(description, LineWidth(offset), pieces)
    ensures forall k :: 0 <= k < |pieces| ==>
              |pieces[k].line| <= LineWidth(offset) && '\n' !in pieces[k].line && pieces[k].gap in {"", " ", "\n"}
  {
    pieces := Wrap(description, LineWidth(offset));
  }
}
