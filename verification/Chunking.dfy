/**
 Splitting text into chunks of bounded word count for the remote compressor, and
 the chunk-by-chunk fallback (src/core/llm_compress.py).
 */
module Chunking {
  import opened Options
  import opened Texts

  // ---------- Paragraphs ----------

  /** The stripped non-blank lines. */
  function Stripped(lines: seq<string>): seq<string> {
    if lines == [] then []
    else Stripped(lines[..|lines| - 1])
         + if Strip(lines[|lines| - 1]) != [] then [Strip(lines[|lines| - 1])] else []
  }

  function Paragraphs(text: string): seq<string> {
    Stripped(Lines(text))
  }

  lemma {:induction false} StrippedKeepsWords(lines: seq<string>)
    ensures AllWords(Stripped(lines)) == AllWords(lines)
    ensures forall p <- Stripped(lines) :: Words(p) != []
    decreases |lines|
  {
    if lines != [] {
      var n := |lines| - 1;
      var front, last := Stripped(lines[..n]), Strip(lines[n]);
      StrippedKeepsWords(lines[..n]);
      StripKeepsWords(lines[n]);
      if last != [] {
        AllWordsAppend(front, last);
      } else {
        assert front + [] == front && AllWords(front) + [] == AllWords(front);
      }
    }
  }

  lemma ParagraphsKeepWords(text: string)
    ensures AllWords(Paragraphs(text)) == Words(text)
    ensures forall p <- Paragraphs(text) :: Words(p) != []
  {
    LinesKeepWords(text);
    StrippedKeepsWords(Lines(text));
  }

  // ---------- Chunking ----------

  datatype Chunks = Chunked(chunks: seq<string>) | ZeroStep

  ghost predicate WithinBounds(chunks: seq<string>, maxWords: int) {
    forall c <- chunks :: 1 <= |Words(c)| <= maxWords
  }

  /** Words there would be room for in `count` full chunks. */
  function Room(count: nat, maxWords: int): int {
    count * maxWords
  }

  lemma RoomGrows(count: nat, more: nat, maxWords: int)
    ensures Room(count + more, maxWords) == Room(count, maxWords) + Room(more, maxWords)
    ensures Room(1, maxWords) == maxWords
  {}

  function Slack(chunks: seq<string>, maxWords: int): int {
    3 * |AllWords(chunks)| - Room(|chunks|, maxWords)
  }

  /**
   The amortised argument behind the bound on the number of chunks: either the chunks emitted
   so far are a third full on average, or the words that follow make up for the last one.
   */
  ghost predicate Amortised(chunks: seq<string>, following: int, maxWords: int) {
    && (Slack(chunks, maxWords) >= 0 || Slack(chunks, maxWords) + 3 * following > 2 * maxWords)
    && (chunks != [] ==> Slack(chunks, maxWords) >= 3 - maxWords)
  }

  /** Piece number k is made of the words from k * maxWords on, maxWords of them or as many as are left. */
  predicate IsPiece(pieces: seq<string>, words: seq<string>, maxWords: int, k: nat)
    requires k < |pieces|
  {
    var from, to := Room(k, maxWords), Room(k + 1, maxWords);
    && 0 <= from <= |words|
    && pieces[k] == Join(' ', if from <= to <= |words| then words[from..to] else words[from..])
  }

  /** All the words, cut every maxWords words. */
  ghost predicate IsCut(pieces: seq<string>, words: seq<string>, maxWords: int) {
    && |words| <= Room(|pieces|, maxWords) < |words| + maxWords
    && forall k: nat :: k < |pieces| ==> IsPiece(pieces, words, maxWords, k)
  }

  lemma PieceAdded(pieces: seq<string>, piece: string, words: seq<string>, maxWords: int, end: int)
    requires forall k: nat :: k < |pieces| ==> IsPiece(pieces, words, maxWords, k)
    requires maxWords >= 1 && Room(|pieces|, maxWords) < end <= |words|
    requires end == Room(|pieces|, maxWords) + maxWords || (end == |words| && end < Room(|pieces|, maxWords) + maxWords)
    requires 0 <= Room(|pieces|, maxWords) && piece == Join(' ', words[Room(|pieces|, maxWords)..end])
    ensures forall k: nat :: k < |pieces + [piece]| ==> IsPiece(pieces + [piece], words, maxWords, k)
  {
    RoomGrows(|pieces|, 1, maxWords);
    forall k: nat | k < |pieces + [piece]|
      ensures IsPiece(pieces + [piece], words, maxWords, k)
    {
      if k < |pieces| {
        assert IsPiece(pieces, words, maxWords, k);
      } else if end == |words| {
        assert words[Room(k, maxWords)..end] == words[Room(k, maxWords)..];
      }
    }
  }

  /** The pieces of a paragraph longer than maxWords: `range` refuses a zero step and is empty for a negative one. */
  method CutLong(words: seq<string>, maxWords: int) returns (r: Chunks)
    requires maxWords < |words| && forall w <- words :: IsWord(w)
    ensures maxWords == 0 ==> r == ZeroStep
    ensures maxWords < 0 ==> r == Chunked([])
    ensures maxWords >= 1 ==>
              && r.Chunked? && AllWords(r.chunks) == words && WithinBounds(r.chunks, maxWords)
              && Room(|r.chunks|, maxWords) < |words| + maxWords && IsCut(r.chunks, words, maxWords)
  {
    if maxWords == 0 {
      return ZeroStep;
    }
    var pieces := [];
    var i := 0;
    while i < |words| && maxWords > 0
      invariant 0 <= i
      invariant maxWords < 0 ==> pieces == []
      invariant maxWords >= 1 ==> i < |words| + maxWords && Room(|pieces|, maxWords) == i
      invariant AllWords(pieces) == words[..if i <= |words| then i else |words|]
      invariant maxWords >= 1 ==> WithinBounds(pieces, maxWords)
      invariant forall k: nat :: k < |pieces| ==> IsPiece(pieces, words, maxWords, k)
      decreases |words| - i
    {
      var end := if i + maxWords <= |words| then i + maxWords else |words|;
      var piece := Join(' ', words[i..end]);
      JoinedWords(words[i..end]);
      AllWordsAppend(pieces, piece);
      RoomGrows(|pieces|, 1, maxWords);
      assert words[..i] + words[i..end] == words[..end];
      PieceAdded(pieces, piece, words, maxWords, end);
      pieces := pieces + [piece];
      i := i + maxWords;
    }
    assert words[..|words|] == words;
    return Chunked(pieces);
  }

  /** Closing the current chunk: the words that did not fit make up for it. */
  lemma FlushKeepsBounds(chunks: seq<string>, current: seq<string>, following: int, maxWords: int)
    requires WithinBounds(chunks, maxWords) && 1 <= |AllWords(current)| <= maxWords
    requires Amortised(chunks, |AllWords(current)|, maxWords)
    ensures var flushed := chunks + [Join('\n', current)];
            && WithinBounds(flushed, maxWords)
            && AllWords(flushed) == AllWords(chunks) + AllWords(current)
            && Slack(flushed, maxWords) >= 3 - maxWords
            && (|AllWords(current)| + following > maxWords ==> Amortised(flushed, following, maxWords))
  {
    JoinKeepsWords('\n', current);
    AllWordsAppend(chunks, Join('\n', current));
    RoomGrows(|chunks|, 1, maxWords);
  }

  /** The pieces of a long paragraph pay for themselves and for the chunk closed before them. */
  lemma PiecesKeepBounds(chunks: seq<string>, pieces: seq<string>, maxWords: int)
    requires WithinBounds(chunks, maxWords) && WithinBounds(pieces, maxWords)
    requires maxWords < |AllWords(pieces)| && Room(|pieces|, maxWords) < |AllWords(pieces)| + maxWords
    requires Amortised(chunks, |AllWords(pieces)|, maxWords) && maxWords >= 1
    ensures WithinBounds(chunks + pieces, maxWords)
    ensures AllWords(chunks + pieces) == AllWords(chunks) + AllWords(pieces)
    ensures Amortised(chunks + pieces, 0, maxWords)
  {
    AllWordsConcat(chunks, pieces);
    RoomGrows(|chunks|, |pieces|, maxWords);
    assert chunks == [] ==> Slack(chunks, maxWords) == 0;
  }

  /** Where the loop stands: `read` is what the paragraphs seen so far said. */
  ghost predicate Progress(read: seq<string>, chunks: seq<string>, current: seq<string>, length: int, maxWords: int) {
    && (current == [] <==> length == 0)
    && length == |AllWords(current)|
    && (maxWords < 1 ==> chunks == [] && current == [] && (maxWords == 0 ==> read == []))
    && (maxWords >= 1 ==>
          && AllWords(chunks) + AllWords(current) == read
          && length <= maxWords
          && WithinBounds(chunks, maxWords)
          && Amortised(chunks, length, maxWords))
  }

  /** Paragraph p comes next and the current chunk has been closed if p does not fit behind it. */
  ghost predicate Ready(read: seq<string>, chunks: seq<string>, current: seq<string>, length: int, maxWords: int,
                        p: string)
  {
    && (current == [] <==> length == 0)
    && length == |AllWords(current)|
    && (maxWords < 1 ==> chunks == [] && current == [] && (maxWords == 0 ==> read == []))
    && (length + |Words(p)| > maxWords ==> current == [])
    && (maxWords >= 1 ==>
          && AllWords(chunks) + AllWords(current) == read
          && WithinBounds(chunks, maxWords)
          && Amortised(chunks, length + |Words(p)|, maxWords))
  }

  lemma ClosingMakesReady(read: seq<string>, chunks: seq<string>, current: seq<string>, length: int, maxWords: int,
                          p: string)
    requires Progress(read, chunks, current, length, maxWords)
    ensures if length + |Words(p)| > maxWords && current != []
            then Ready(read, chunks + [Join('\n', current)], [], 0, maxWords, p)
            else Ready(read, chunks, current, length, maxWords, p)
  {
    if length + |Words(p)| > maxWords && current != [] {
      FlushKeepsBounds(chunks, current, |Words(p)|, maxWords);
      assert read + AllWords([]) == read;
    }
  }

  lemma ShortJoins(read: seq<string>, chunks: seq<string>, current: seq<string>, length: int, maxWords: int, p: string)
    requires Ready(read, chunks, current, length, maxWords, p) && 1 <= |Words(p)| <= maxWords
    ensures Progress(read + Words(p), chunks, current + [p], length + |Words(p)|, maxWords)
  {
    AllWordsAppend(current, p);
    Regroup(AllWords(chunks), AllWords(current), Words(p));
  }

  lemma LongJoins(read: seq<string>, chunks: seq<string>, pieces: seq<string>, maxWords: int, p: string)
    requires Ready(read, chunks, [], 0, maxWords, p) && maxWords < |Words(p)| && maxWords != 0
    requires maxWords < 0 ==> pieces == []
    requires maxWords >= 1 ==>
               AllWords(pieces) == Words(p) && WithinBounds(pieces, maxWords)
               && Room(|pieces|, maxWords) < |Words(p)| + maxWords
    ensures Progress(read + Words(p), chunks + pieces, [], 0, maxWords)
  {
    if maxWords >= 1 {
      PiecesKeepBounds(chunks, pieces, maxWords);
      assert AllWords(chunks) + AllWords([]) == AllWords(chunks);
      assert AllWords(chunks + pieces) + AllWords([]) == AllWords(chunks + pieces);
    }
  }

  // ---------- How the paragraphs are laid out ----------

  /** Whole paragraphs on lines of one chunk, or a long paragraph and the chunks it is cut into. */
  datatype Block = Whole(paragraphs: seq<string>) | Long(paragraph: string, pieces: seq<string>)

  ghost predicate Proper(b: Block, maxWords: int) {
    match b
    case Whole(ps) => ps != [] && |AllWords(ps)| <= maxWords
    case Long(p, pieces) => |Words(p)| > maxWords && IsCut(pieces, Words(p), maxWords)
  }

  function ParagraphsOf(blocks: seq<Block>): seq<string> {
    if blocks == [] then []
    else ParagraphsOf(blocks[..|blocks| - 1])
         + match blocks[|blocks| - 1]
           case Whole(ps) => ps
           case Long(p, _) => [p]
  }

  function ChunksOf(blocks: seq<Block>): seq<string> {
    if blocks == [] then []
    else ChunksOf(blocks[..|blocks| - 1])
         + match blocks[|blocks| - 1]
           case Whole(ps) => [Join('\n', ps)]
           case Long(_, pieces) => pieces
  }

  /** The first paragraph that comes next would not have fitted in. */
  ghost predicate FullFor(b: Block, next: seq<string>, maxWords: int) {
    b.Whole? && next != [] ==> |AllWords(b.paragraphs)| + |Words(next[0])| > maxWords
  }

  /** Block number k starts with a paragraph that did not fit in the block before. */
  ghost predicate GreedyAt(blocks: seq<Block>, k: nat, maxWords: int)
    requires 0 < k < |blocks|
  {
    blocks[k].Whole? ==> FullFor(blocks[k - 1], blocks[k].paragraphs, maxWords)
  }

  /**
   The chunks are a greedy layout of the paragraphs: each paragraph comes once, in order, whole if
   it fits in a chunk; and no chunk ends before a paragraph that would have fitted in.
   */
  ghost predicate IsLayout(blocks: seq<Block>, paragraphs: seq<string>, chunks: seq<string>, maxWords: int) {
    && ParagraphsOf(blocks) == paragraphs
    && ChunksOf(blocks) == chunks
    && (forall b <- blocks :: Proper(b, maxWords))
    && forall k :: 0 < k < |blocks| ==> GreedyAt(blocks, k, maxWords)
  }

  /** A layout of what is closed, and the open chunk after it. */
  ghost predicate LaidOut(blocks: seq<Block>, closed: seq<string>, chunks: seq<string>, current: seq<string>,
                          maxWords: int)
  {
    && IsLayout(blocks, closed, chunks, maxWords)
    && (blocks != [] ==> FullFor(blocks[|blocks| - 1], current, maxWords))
    && (blocks != [] && current == [] ==> blocks[|blocks| - 1].Long?)
    && |AllWords(current)| <= maxWords
  }

  lemma LayoutGrows(blocks: seq<Block>, paragraphs: seq<string>, chunks: seq<string>, maxWords: int, b: Block)
    requires IsLayout(blocks, paragraphs, chunks, maxWords) && Proper(b, maxWords)
    requires b.Whole? && blocks != [] ==> FullFor(blocks[|blocks| - 1], b.paragraphs, maxWords)
    ensures IsLayout(blocks + [b],
                     paragraphs + (if b.Whole? then b.paragraphs else [b.paragraph]),
                     chunks + (if b.Whole? then [Join('\n', b.paragraphs)] else b.pieces), maxWords)
  {
    var all := blocks + [b];
    assert all[..|blocks|] == blocks;
    forall k | 0 < k < |all|
      ensures GreedyAt(all, k, maxWords)
    {
      if k < |blocks| { assert GreedyAt(blocks, k, maxWords); }
    }
  }

  /** Closing the open chunk. */
  lemma ClosingLays(blocks: seq<Block>, closed: seq<string>, chunks: seq<string>, current: seq<string>, maxWords: int)
    requires LaidOut(blocks, closed, chunks, current, maxWords) && current != []
    ensures IsLayout(blocks + [Whole(current)], closed + current, chunks + [Join('\n', current)], maxWords)
  {
    LayoutGrows(blocks, closed, chunks, maxWords, Whole(current));
  }

  /** A paragraph that fits goes behind the open chunk. */
  lemma ShortLays(blocks: seq<Block>, closed: seq<string>, chunks: seq<string>, current: seq<string>, maxWords: int,
                  p: string)
    requires LaidOut(blocks, closed, chunks, current, maxWords) && |AllWords(current)| + |Words(p)| <= maxWords
    ensures LaidOut(blocks, closed, chunks, current + [p], maxWords)
  {
    AllWordsAppend(current, p);
  }

  /** A paragraph that does not fit opens a chunk of its own behind the one just closed. */
  lemma ShortLaysAfresh(blocks: seq<Block>, closed: seq<string>, chunks: seq<string>, current: seq<string>,
                        maxWords: int, p: string)
    requires LaidOut(blocks, closed, chunks, current, maxWords) && current != []
    requires |AllWords(current)| + |Words(p)| > maxWords && |Words(p)| <= maxWords
    ensures LaidOut(blocks + [Whole(current)], closed + current, chunks + [Join('\n', current)], [p], maxWords)
  {
    ClosingLays(blocks, closed, chunks, current, maxWords);
    AllWordsAppend([], p);
    assert [] + [p] == [p];
  }

  lemma LongLays(blocks: seq<Block>, closed: seq<string>, chunks: seq<string>, maxWords: int, p: string,
                 pieces: seq<string>)
    requires IsLayout(blocks, closed, chunks, maxWords) && Proper(Long(p, pieces), maxWords) && maxWords >= 1
    ensures LaidOut(blocks + [Long(p, pieces)], closed + [p], chunks + pieces, [], maxWords)
  {
    LayoutGrows(blocks, closed, chunks, maxWords, Long(p, pieces));
  }

  /** What one turn of the loop does to the closed chunks and the open one. */
  ghost predicate Turned(p: string, chunks: seq<string>, current: seq<string>, maxWords: int,
                         pieces: seq<string>, chunks': seq<string>, current': seq<string>)
  {
    var closing := |AllWords(current)| + |Words(p)| > maxWords && current != [];
    var flushed := if closing then chunks + [Join('\n', current)] else chunks;
    if |Words(p)| > maxWords
    then IsCut(pieces, Words(p), maxWords) && chunks' == flushed + pieces && current' == []
    else chunks' == flushed && current' == (if closing then [] else current) + [p]
  }

  /** One turn of the loop keeps the layout, and adds the paragraph to it. */
  lemma TurnLays(blocks: seq<Block>, closed: seq<string>, chunks: seq<string>, current: seq<string>, maxWords: int,
                 p: string, pieces: seq<string>, chunks': seq<string>, current': seq<string>)
    returns (blocks': seq<Block>, closed': seq<string>)
    requires maxWords >= 1 && LaidOut(blocks, closed, chunks, current, maxWords)
    requires Turned(p, chunks, current, maxWords, pieces, chunks', current')
    ensures LaidOut(blocks', closed', chunks', current', maxWords)
    ensures closed' + current' == closed + current + [p]
  {
    blocks', closed' := blocks, closed;
    if |AllWords(current)| + |Words(p)| > maxWords && current != [] {
      blocks', closed' := blocks + [Whole(current)], closed + current;
      if |Words(p)| > maxWords {
        ClosingLays(blocks, closed, chunks, current, maxWords);
        LongLays(blocks', closed', chunks + [Join('\n', current)], maxWords, p, pieces);
        blocks', closed' := blocks' + [Long(p, pieces)], closed' + [p];
      } else {
        ShortLaysAfresh(blocks, closed, chunks, current, maxWords, p);
        assert [] + [p] == [p];
      }
    } else if |Words(p)| > maxWords {
      LongLays(blocks, closed, chunks, maxWords, p, pieces);
      blocks', closed' := blocks + [Long(p, pieces)], closed + [p];
    } else {
      ShortLays(blocks, closed, chunks, current, maxWords, p);
    }
  }

  /** One turn of the loop, for paragraph p: the state it leaves, or the refusal of a zero step. */
  method AddParagraph(p: string, chunks: seq<string>, current: seq<string>, length: int, maxWords: int,
                      ghost read: seq<string>)
    returns (r: Chunks, current': seq<string>, length': int, ghost pieces: seq<string>)
    requires Words(p) != [] && Progress(read, chunks, current, length, maxWords)
    ensures r.ZeroStep? <==> maxWords == 0
    ensures r.Chunked? ==> Progress(read + Words(p), r.chunks, current', length', maxWords)
    ensures r.Chunked? && maxWords >= 1 ==> Turned(p, chunks, current, maxWords, pieces, r.chunks, current')
  {
    var words := Words(p);
    var flushed := chunks;
    current', length', pieces := current, length, [];
    ClosingMakesReady(read, chunks, current, length, maxWords, p);
    if length + |words| > maxWords && current != [] {
      flushed := chunks + [Join('\n', current)];
      current', length' := [], 0;
    }
    if |words| > maxWords {
      WordsAreWords(p);
      r := CutLong(words, maxWords);
      if r.Chunked? {
        pieces := r.chunks;
        LongJoins(read, flushed, r.chunks, maxWords, p);
        r := Chunked(flushed + r.chunks);
      }
    } else {
      ShortJoins(read, flushed, current', length', maxWords, p);
      r, current', length' := Chunked(flushed), current' + [p], length' + |words|;
    }
  }

  ghost predicate Delivered(read: seq<string>, chunks: seq<string>, maxWords: int) {
    && (maxWords >= 1 ==>
          && AllWords(chunks) == read && WithinBounds(chunks, maxWords)
          && (read != [] ==> Room(|chunks|, maxWords) + 3 <= 3 * |read| + maxWords))
    && (maxWords < 1 ==> chunks == [])
  }

  lemma FinishDelivers(read: seq<string>, chunks: seq<string>, current: seq<string>, length: int, maxWords: int)
    requires Progress(read, chunks, current, length, maxWords)
    ensures Delivered(read, if current != [] then chunks + [Join('\n', current)] else chunks, maxWords)
  {
    if current != [] {
      FlushKeepsBounds(chunks, current, 0, maxWords);
    } else {
      assert AllWords(chunks) + AllWords(current) == AllWords(chunks);
    }
  }

  /** The layout holds the paragraphs seen so far, the open chunk being the last of them. */
  ghost predicate SoFar(blocks: seq<Block>, closed: seq<string>, chunks: seq<string>, current: seq<string>,
                        maxWords: int, seen: seq<string>)
  {
    LaidOut(blocks, closed, chunks, current, maxWords) && closed + current == seen
  }

  lemma PrefixGrows(paragraphs: seq<string>, k: nat)
    requires k < |paragraphs|
    ensures paragraphs[k] in paragraphs && paragraphs[..k + 1] == paragraphs[..k] + [paragraphs[k]]
    ensures AllWords(paragraphs[..k + 1]) == AllWords(paragraphs[..k]) + Words(paragraphs[k])
  {
    assert paragraphs[..k + 1] == paragraphs[..k] + [paragraphs[k]];
    AllWordsAppend(paragraphs[..k], paragraphs[k]);
  }

  /** One turn of the loop: progress and layout. */
  method Turn(p: string, chunks: seq<string>, current: seq<string>, length: int, maxWords: int,
              ghost seen: seq<string>, ghost blocks: seq<Block>, ghost closed: seq<string>)
    returns (r: Chunks, current': seq<string>, length': int, ghost blocks': seq<Block>, ghost closed': seq<string>)
    requires Words(p) != [] && Progress(AllWords(seen), chunks, current, length, maxWords)
    requires maxWords >= 1 ==> SoFar(blocks, closed, chunks, current, maxWords, seen)
    ensures r.ZeroStep? <==> maxWords == 0
    ensures r.Chunked? ==> Progress(AllWords(seen) + Words(p), r.chunks, current', length', maxWords)
    ensures r.Chunked? && maxWords >= 1 ==> SoFar(blocks', closed', r.chunks, current', maxWords, seen + [p])
  {
    ghost var pieces;
    blocks', closed' := blocks, closed;
    r, current', length', pieces := AddParagraph(p, chunks, current, length, maxWords, AllWords(seen));
    if maxWords >= 1 {
      blocks', closed' := TurnLays(blocks, closed, chunks, current, maxWords, p, pieces, r.chunks, current');
    }
  }

  lemma FinishLays(blocks: seq<Block>, closed: seq<string>, chunks: seq<string>, current: seq<string>, maxWords: int)
    returns (all: seq<Block>)
    requires LaidOut(blocks, closed, chunks, current, maxWords)
    ensures IsLayout(all, closed + current,
                     if current != [] then chunks + [Join('\n', current)] else chunks, maxWords)
  {
    all := blocks;
    if current != [] {
      ClosingLays(blocks, closed, chunks, current, maxWords);
      all := blocks + [Whole(current)];
    } else {
      assert closed + current == closed;
    }
  }

  /** What the loop and the final flush make of the paragraphs. */
  method ChunkParagraphs(paragraphs: seq<string>, maxWords: int) returns (r: Chunks, ghost blocks: seq<Block>)
    requires forall p <- paragraphs :: Words(p) != []
    ensures r.ZeroStep? <==> maxWords == 0 && paragraphs != []
    ensures r.Chunked? ==> Delivered(AllWords(paragraphs), r.chunks, maxWords)
    ensures r.Chunked? && maxWords >= 1 ==> IsLayout(blocks, paragraphs, r.chunks, maxWords)
  {
    var chunks: seq<string>, currentChunk: seq<string>, currentLength: int := [], [], 0;
    ghost var closed: seq<string> := [];
    blocks := [];
    for k := 0 to |paragraphs|
      invariant Progress(AllWords(paragraphs[..k]), chunks, currentChunk, currentLength, maxWords)
      invariant maxWords == 0 ==> k == 0
      invariant maxWords >= 1 ==> SoFar(blocks, closed, chunks, currentChunk, maxWords, paragraphs[..k])
    {
      PrefixGrows(paragraphs, k);
      var turn: Chunks;
      turn, currentChunk, currentLength, blocks, closed :=
        Turn(paragraphs[k], chunks, currentChunk, currentLength, maxWords, paragraphs[..k], blocks, closed);
      if turn.ZeroStep? {
        return ZeroStep, blocks;
      }
      chunks := turn.chunks;
    }
    assert paragraphs[..|paragraphs|] == paragraphs;
    FinishDelivers(AllWords(paragraphs), chunks, currentChunk, currentLength, maxWords);
    if maxWords >= 1 {
      blocks := FinishLays(blocks, closed, chunks, currentChunk, maxWords);
    }
    if currentChunk != [] {
      chunks := chunks + [Join('\n', currentChunk)];
    }
    return Chunked(chunks), blocks;
  }

  /**
   For a positive maxWords: every word is kept, in order, in chunks of 1..maxWords words, and
   fewer than 3 * words / maxWords + 1 of them; and the chunks are the greedy layout of the
   paragraphs, that is of the stripped lines that are not blank. A maxWords of zero is refused by
   `range` as soon as there is a word, and a negative one silently drops everything.
   */
  method ChunkText(text: string, maxWords: int) returns (r: Chunks, ghost blocks: seq<Block>)
    ensures maxWords >= 1 ==> r.Chunked? && AllWords(r.chunks) == Words(text) && WithinBounds(r.chunks, maxWords)
    ensures maxWords >= 1 && Words(text) != [] ==> Room(|r.chunks|, maxWords) + 3 <= 3 * |Words(text)| + maxWords
    ensures maxWords >= 1 ==> IsLayout(blocks, Paragraphs(text), r.chunks, maxWords)
    ensures maxWords == 0 ==> r == if Words(text) == [] then Chunked([]) else ZeroStep
    ensures maxWords < 0 ==> r == Chunked([])
    ensures r.Chunked? && AllWords(r.chunks) == Words(text) <==> maxWords >= 1 || Words(text) == []
  {
    ParagraphsKeepWords(text);
    r, blocks := ChunkParagraphs(Paragraphs(text), maxWords);
    if Paragraphs(text) != [] {
      SomeWords(Paragraphs(text));
    }
  }

  lemma SomeWords(paragraphs: seq<string>)
    requires paragraphs != [] && forall p <- paragraphs :: Words(p) != []
    ensures AllWords(paragraphs) != []
  {
    assert paragraphs[|paragraphs| - 1] in paragraphs;
  }

  // ---------- Compression with fallback ----------

  const MAX_WORDS := 300

  /** The remote service gave a usable reply for chunk i: a string that is not blank. */
  predicate Usable(replies: nat -> Option<string>, i: nat) {
    replies(i).Some? && Words(replies(i).value) != []
  }

  /** The loop over the chunks: the reply wherever that is usable, the chunk wherever it is not. */
  method KeepOrReplace(chunks: seq<string>, replies: nat -> Option<string>) returns (lines: seq<string>)
    ensures |lines| == |chunks|
    ensures forall i: nat :: i < |lines| ==> lines[i] == if Usable(replies, i) then replies(i).value else chunks[i]
  {
    lines := [];
    for i := 0 to |chunks|
      invariant |lines| == i
      invariant forall k: nat :: k < i ==> lines[k] == if Usable(replies, k) then replies(k).value else chunks[k]
    {
      var reply := replies(i);
      if reply.Some? { StripKeepsWords(reply.value); }
      if reply.Some? && Strip(reply.value) != [] {
        lines := lines + [reply.value];
      } else {
        lines := lines + [chunks[i]];
      }
    }
  }

  /**
   Text that is blank, or no endpoint, passes through untouched. Otherwise the result has one line
   for each chunk: the reply wherever that was usable, and the chunk itself wherever it was not; and
   the chunks say what the text says.
   */
  method Compress(text: string, endpoint: bool, replies: nat -> Option<string>)
    returns (result: string, chunks: seq<string>, lines: seq<string>)
    ensures Strip(text) == [] || !endpoint ==> result == text && chunks == [] && lines == []
    ensures Strip(text) != [] && endpoint ==>
              AllWords(chunks) == Words(text) && WithinBounds(chunks, MAX_WORDS) && result == Join('\n', lines)
    ensures |lines| == |chunks|
    ensures forall i: nat :: i < |lines| && Usable(replies, i) ==> lines[i] == replies(i).value
    ensures forall i: nat :: i < |lines| && !Usable(replies, i) ==> lines[i] == chunks[i]
    ensures (forall i: nat :: !Usable(replies, i)) ==> Words(result) == Words(text)
  {
    if Strip(text) == [] || !endpoint {
      return text, [], [];
    }
    var cut;
    ghost var blocks;
    cut, blocks := ChunkText(text, MAX_WORDS);
    chunks := cut.chunks;
    lines := KeepOrReplace(chunks, replies);
    JoinKeepsWords('\n', lines);
    result := Join('\n', lines);
    assert (forall i: nat :: !Usable(replies, i)) ==> lines == chunks;
  }
}
