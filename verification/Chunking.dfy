/** Cutting messages to Discord's size, and repeating a card's prefix on every piece. */
module Chunking {
  import opened Basics
  import opened Text

  /** An occurrence of the pattern after the first position. */
  ghost predicate OccursLater(window: string, pattern: string) {
    exists i | 0 < i :: OccursAt(window, pattern, i)
  }

  ghost predicate IsLast(window: string, pattern: string, i: int) {
    OccursAt(window, pattern, i) && forall j | i < j :: !OccursAt(window, pattern, j)
  }

  /**
   Where to break a window: after the last paragraph break, else the last newline, else the last space, that is not
   at its very start; 0 without one.
   */
  function BestBreak(window: string): (b: int)
    ensures 0 <= b <= |window|
    ensures b > 0 ==> exists i | 0 < i < b :: IsSpace(window[i]) && b <= i + 2
    ensures b > 0 ==> IsSpace(window[b - 1])
    ensures if OccursLater(window, "\n\n") then IsLast(window, "\n\n", b - 2)
            else if OccursLater(window, "\n") then IsLast(window, "\n", b - 1)
            else if OccursLater(window, " ") then IsLast(window, " ", b - 1)
            else b == 0
  {
    var para := RFind(window, "\n\n");
    var line := RFind(window, "\n");
    var space := RFind(window, " ");
    if para > 0 then
      assert window[para..para + 2] == "\n\n";
      assert window[para] == '\n' && window[para + 1] == '\n';
      para + 2
    else if line > 0 then
      assert window[line..line + 1] == "\n";
      assert window[line] == '\n';
      line + 1
    else if space > 0 then
      assert window[space..space + 1] == " ";
      assert window[space] == ' ';
      space + 1
    else 0
  }

  /** How far the next piece reaches, before its trailing whitespace is dropped. */
  function Reach(text: string, limit: nat): (b: int)
    requires 1 <= limit < |text|
    ensures 1 <= b <= limit
  {
    var at := BestBreak(text[..limit]);
    var b := if at <= 0 then limit else at;
    if RStrip(text[..b]) == "" then limit else b
  }

  function Piece(text: string, limit: nat): (piece: string)
    requires 1 <= limit < |text|
    ensures 1 <= |piece| <= Reach(text, limit) && piece == text[..|piece|]
    ensures Blank(text[|piece|..Reach(text, limit)])
  {
    var at := BestBreak(text[..limit]);
    var b := if at <= 0 then limit else at;
    var piece := RStrip(text[..b]);
    if piece == "" then text[..limit]
    else
      assert text[..b][|piece|..] == text[|piece|..b];
      piece
  }

  /** The pieces of a text, as the loop cuts them. */
  function Pieces(text: string, limit: nat): (pieces: seq<string>)
    requires limit >= 1
    decreases |text|
  {
    if text == "" then []
    else if |text| <= limit then [text]
    else [Piece(text, limit)] + Pieces(LStrip(text[Reach(text, limit)..]), limit)
  }

  function Chunks(content: string, limit: nat): (chunks: seq<string>)
    requires limit >= 1
  {
    if content == "" then [""] else Pieces(content, limit)
  }

  lemma NextPiece(text: string, limit: nat)
    requires limit >= 1 && text != ""
    ensures |text| <= limit ==> Pieces(text, limit) == [text]
    ensures |text| > limit ==>
      |LStrip(text[Reach(text, limit)..])| < |text| &&
      Pieces(text, limit) == [Piece(text, limit)] + Pieces(LStrip(text[Reach(text, limit)..]), limit)
  {
    hide Reach, Piece, LStrip;
  }

  /** The end of the window's last paragraph break, else of its last newline, else of its last space; 0 without one. */
  ghost predicate IsBestBreak(window: string, b: nat) {
    if OccursLater(window, "\n\n") then IsLast(window, "\n\n", b - 2)
    else if OccursLater(window, "\n") then IsLast(window, "\n", b - 1)
    else if OccursLater(window, " ") then IsLast(window, " ", b - 1)
    else b == 0
  }

  lemma BestBreakIsOnly(window: string, b: nat)
    requires IsBestBreak(window, b)
    ensures BestBreak(window) == b
  {
  }

  lemma BlankIsStripped(s: string)
    ensures RStrip(s) == "" <==> Blank(s)
  {
    hide IsSpace;
    var r := RStrip(s);
    if r != "" {
      assert r[|r| - 1] == s[|r| - 1];
    } else {
      assert s[0..] == s;
    }
  }

  /** A text over the limit is cut at the best break of its first window, or at the limit if that leaves nothing. */
  lemma CutsAtBestBreak(text: string, limit: nat, b: nat)
    requires 1 <= limit < |text| && b <= limit && IsBestBreak(text[..limit], b)
    ensures Pieces(text, limit) ==
            if b > 0 && !Blank(text[..b]) then [RStrip(text[..b])] + Pieces(LStrip(text[b..]), limit)
            else
              [if b == 0 && !Blank(text[..limit]) then RStrip(text[..limit]) else text[..limit]] +
              Pieces(LStrip(text[limit..]), limit)
  {
    hide BestBreak, RStrip, LStrip, Blank, IsSpace, IsBestBreak, Pieces;
    BestBreakIsOnly(text[..limit], b);
    BlankIsStripped(text[..b]);
    BlankIsStripped(text[..limit]);
    NextPiece(text, limit);
  }

  /** One cut: the piece and how far it reaches. */
  method Cut(remaining: string, limit: nat) returns (piece: string, breakAt: nat)
    requires 1 <= limit < |remaining|
    ensures piece == Piece(remaining, limit) && breakAt == Reach(remaining, limit)
  {
    hide BestBreak, RStrip, Blank, IsSpace;
    var window := remaining[..limit];
    breakAt := BestBreak(window);
    if breakAt <= 0 {
      breakAt := limit;
    }
    piece := RStrip(remaining[..breakAt]);
    if piece == "" {
      piece := remaining[..limit];
      breakAt := |piece|;
    }
  }

  method ChunkMessage(content: string, limit: int) returns (r: Option<seq<string>>)
    ensures r == if limit < 1 then None else Some(Chunks(content, limit))
  {
    hide Pieces, Piece, Reach, LStrip;
    if limit < 1 {
      return None;
    }
    if content == "" {
      return Some([""]);
    }
    if |content| <= limit {
      NextPiece(content, limit);
      return Some([content]);
    }
    var chunks: seq<string> := [];
    var remaining := content;
    while remaining != ""
      invariant chunks + Pieces(remaining, limit) == Pieces(content, limit)
      decreases |remaining|
    {
      NextPiece(remaining, limit);
      if |remaining| <= limit {
        chunks := chunks + [remaining];
        return Some(chunks);
      }
      var piece, breakAt := Cut(remaining, limit);
      ghost var rest := Pieces(LStrip(remaining[breakAt..]), limit);
      assert chunks + ([piece] + rest) == chunks + [piece] + rest;
      chunks := chunks + [piece];
      remaining := LStrip(remaining[breakAt..]);
    }
    NoPieces(limit);
    assert chunks + [] == chunks;
    r := Some(chunks);
  }

  lemma NoPieces(limit: nat)
    requires limit >= 1
    ensures Pieces("", limit) == []
  {
  }

  // ---- Nothing but whitespace is lost

  /** The chunks lie in the text one after another, with nothing but whitespace before, between and after them. */
  ghost predicate Covers(text: string, chunks: seq<string>)
    decreases |chunks|
  {
    if chunks == [] then Blank(text)
    else exists gap | 0 <= gap <= |text| ::
           Blank(text[..gap]) && StartsWith(text[gap..], chunks[0]) && Covers(text[gap + |chunks[0]|..], chunks[1..])
  }

  /** The text without its whitespace. */
  function Dense(s: string): string {
    if s == "" then "" else if IsSpace(s[0]) then Dense(s[1..]) else [s[0]] + Dense(s[1..])
  }

  function Join(chunks: seq<string>): string {
    if chunks == [] then "" else chunks[0] + Join(chunks[1..])
  }

  lemma {:induction false} DenseConcat(a: string, b: string)
    ensures Dense(a + b) == Dense(a) + Dense(b)
  {
    if a == "" {
      assert a + b == b;
    } else {
      assert (a + b)[1..] == a[1..] + b;
      DenseConcat(a[1..], b);
    }
  }

  lemma {:induction false} DenseBlank(s: string)
    requires Blank(s)
    ensures Dense(s) == ""
  {
    if s != "" {
      DenseBlank(s[1..]);
    }
  }

  lemma NothingDense()
    ensures Dense("") == ""
  {
  }

  /** A covering loses, repeats and reorders no character that is not whitespace. */
  lemma {:induction false} CoveringKeepsCharacters(text: string, chunks: seq<string>)
    requires Covers(text, chunks)
    ensures Dense(Join(chunks)) == Dense(text)
    decreases |chunks|
  {
    hide IsSpace, Blank, Dense;
    if chunks == [] {
      NothingDense();
      DenseBlank(text);
    } else {
      var gap :| 0 <= gap <= |text| && Blank(text[..gap]) && StartsWith(text[gap..], chunks[0])
        && Covers(text[gap + |chunks[0]|..], chunks[1..]);
      CoveringKeepsCharacters(text[gap + |chunks[0]|..], chunks[1..]);
      DenseAfterGap(text, gap, chunks[0]);
      DenseConcat(chunks[0], Join(chunks[1..]));
    }
  }

  lemma DenseAfterGap(text: string, gap: nat, first: string)
    requires gap <= |text| && Blank(text[..gap]) && StartsWith(text[gap..], first)
    ensures Dense(text) == Dense(first) + Dense(text[gap + |first|..])
  {
    hide IsSpace, Blank, Dense;
    var rest := text[gap + |first|..];
    assert text[gap..][..|first|] == first && text[gap..][|first|..] == rest;
    assert text[gap..] == first + rest;
    assert text == text[..gap] + (first + rest);
    DenseConcat(text[..gap], first + rest);
    DenseBlank(text[..gap]);
    DenseConcat(first, rest);
    assert "" + (Dense(first) + Dense(rest)) == Dense(first) + Dense(rest);
  }

  lemma BlankConcat(a: string, b: string)
    requires Blank(a) && Blank(b)
    ensures Blank(a + b)
  {
    hide IsSpace;
  }

  lemma CoversFrom(text: string, gap: nat, chunks: seq<string>)
    requires chunks != [] && gap <= |text| && Blank(text[..gap]) && StartsWith(text[gap..], chunks[0])
    requires Covers(text[gap + |chunks[0]|..], chunks[1..])
    ensures Covers(text, chunks)
  {
    hide Blank;
  }

  /** A text that starts, after some whitespace, with a chunk. */
  lemma Unfold(text: string, gap: nat, chunk: string)
    requires gap <= |text| && StartsWith(text[gap..], chunk)
    ensures |chunk| <= |text| - gap && text == text[..gap] + (chunk + text[gap + |chunk|..])
  {
    assert text[gap..][|chunk|..] == text[gap + |chunk|..];
    assert text[gap..] == chunk + text[gap + |chunk|..];
  }

  lemma CoversHead(pad: string, chunk: string, tail: string, chunks: seq<string>)
    requires Blank(pad) && Covers(tail, chunks)
    ensures Covers(pad + (chunk + tail), [chunk] + chunks)
  {
    hide Blank, Covers;
    var text := pad + (chunk + tail);
    assert text[..|pad|] == pad && text[|pad|..] == chunk + tail;
    assert (chunk + tail)[..|chunk|] == chunk;
    assert text[|pad| + |chunk|..] == tail;
    assert ([chunk] + chunks)[1..] == chunks;
    CoversFrom(text, |pad|, [chunk] + chunks);
  }

  lemma PaddedFrom(pad: string, text: string, gap: nat, chunks: seq<string>)
    requires Blank(pad) && chunks != [] && gap <= |text| && Blank(text[..gap]) && StartsWith(text[gap..], chunks[0])
    requires |chunks[0]| <= |text| - gap && Covers(text[gap + |chunks[0]|..], chunks[1..])
    ensures Covers(pad + text, chunks)
  {
    hide *;
    Unfold(text, gap, chunks[0]);
    var (head, rest) := (text[..gap], chunks[0] + text[gap + |chunks[0]|..]);
    BlankConcat(pad, head);
    CoversHead(pad + head, chunks[0], text[gap + |chunks[0]|..], chunks[1..]);
    assert pad + (head + rest) == pad + head + rest;
    assert chunks == [chunks[0]] + chunks[1..];
  }

  lemma CoversNothing(text: string)
    ensures Covers(text, []) <==> Blank(text)
  {
  }

  /** Whitespace before a text makes no difference. */
  lemma CoversPadded(pad: string, text: string, chunks: seq<string>)
    requires Blank(pad) && Covers(text, chunks)
    ensures Covers(pad + text, chunks)
  {
    hide IsSpace, Blank;
    if chunks == [] {
      hide Covers;
      CoversNothing(text);
      BlankConcat(pad, text);
      CoversNothing(pad + text);
    } else {
      var gap :| 0 <= gap <= |text| && Blank(text[..gap]) && StartsWith(text[gap..], chunks[0])
        && Covers(text[gap + |chunks[0]|..], chunks[1..]);
      hide Covers;
      PaddedFrom(pad, text, gap, chunks);
    }
  }

  lemma CoversCons(text: string, chunk: string, chunks: seq<string>)
    requires StartsWith(text, chunk) && Covers(text[|chunk|..], chunks)
    ensures Covers(text, [chunk] + chunks)
  {
    assert Blank(text[..0]) && text[0..] == text;
    assert text[0 + |chunk|..] == text[|chunk|..];
    assert ([chunk] + chunks)[1..] == chunks;
  }

  /** What follows a piece is whitespace and then the rest that is cut further. */
  lemma AfterPiece(text: string, limit: nat)
    requires 1 <= limit < |text|
    ensures var (piece, rest) := (Piece(text, limit), LStrip(text[Reach(text, limit)..]));
      exists pad :: Blank(pad) && text[|piece|..] == pad + rest
  {
    hide Piece, Reach, LStrip, Blank;
    var (piece, b) := (Piece(text, limit), Reach(text, limit));
    var tail := text[b..];
    var rest := LStrip(tail);
    var pad := text[|piece|..b] + tail[..|tail| - |rest|];
    BlankConcat(text[|piece|..b], tail[..|tail| - |rest|]);
    assert text[|piece|..] == text[|piece|..b] + tail;
    assert tail == tail[..|tail| - |rest|] + rest;
    assert text[|piece|..] == pad + rest;
  }

  /** Every text is covered by its pieces. */
  lemma {:induction false} PiecesCover(text: string, limit: nat)
    requires limit >= 1
    ensures Covers(text, Pieces(text, limit))
    decreases |text|
  {
    hide Covers, Piece, Reach, LStrip, Blank, Pieces;
    if text == "" {
      NothingCovers("");
      NoPieces(limit);
    } else if |text| <= limit {
      NextPiece(text, limit);
      NothingCovers(text[|text|..]);
      CoversCons(text, text, []);
      assert [text] + [] == [text];
    } else {
      NextPiece(text, limit);
      AfterPiece(text, limit);
      var (piece, rest) := (Piece(text, limit), LStrip(text[Reach(text, limit)..]));
      PiecesCover(rest, limit);
      var pad :| Blank(pad) && text[|piece|..] == pad + rest;
      CoversPadded(pad, rest, Pieces(rest, limit));
      CoversCons(text, piece, Pieces(rest, limit));
    }
  }

  lemma NothingCovers(text: string)
    requires text == ""
    ensures Covers(text, [])
  {
  }

  /** Every chunk is non-empty and within the limit. */
  ghost predicate Sized(chunks: seq<string>, limit: nat) {
    forall i | 0 <= i < |chunks| :: 1 <= |chunks[i]| <= limit
  }

  /** Every chunk starts with a visible character. */
  ghost predicate Visible(chunks: seq<string>) {
    forall i | 0 <= i < |chunks| :: chunks[i] != "" && !IsSpace(chunks[i][0])
  }

  /** Pieces are never empty and never over the limit, and every one but the first starts with a visible character. */
  lemma {:induction false} PiecesFit(text: string, limit: nat)
    requires limit >= 1
    ensures Sized(Pieces(text, limit), limit)
    ensures text != "" ==> Pieces(text, limit) != [] && Visible(Pieces(text, limit)[1..])
    ensures text != "" && !IsSpace(text[0]) ==> Visible(Pieces(text, limit))
    decreases |text|
  {
    hide Pieces, Piece, Reach, LStrip, IsSpace, Blank;
    if text == "" {
      NoPieces(limit);
    } else {
      NextPiece(text, limit);
      if |text| > limit {
        var (piece, rest) := (Piece(text, limit), LStrip(text[Reach(text, limit)..]));
        PiecesFit(rest, limit);
        assert ([piece] + Pieces(rest, limit))[1..] == Pieces(rest, limit);
        if rest == "" {
          NoPieces(limit);
        }
        assert piece[0] == text[0];
      }
    }
  }

  /** What a caller of the chunker gets: pieces in order, within the limit, none empty unless the content is. */
  lemma ChunksAreLossless(content: string, limit: nat)
    requires limit >= 1
    ensures var chunks := Chunks(content, limit);
      && chunks != [] && Covers(content, chunks) && Dense(Join(chunks)) == Dense(content)
      && (content != "" ==> Sized(chunks, limit) && Visible(chunks[1..]))
      && (|content| <= limit ==> chunks == [content])
  {
    hide Pieces, Covers, Sized, Visible, Dense, Join;
    if content == "" {
      NothingCovers("");
      CoversCons("", "", []);
      assert [""] + [] == [""];
    } else {
      NextPiece(content, limit);
      PiecesCover(content, limit);
      PiecesFit(content, limit);
    }
    CoveringKeepsCharacters(content, Chunks(content, limit));
  }

  // ---- Repeating the prefix

  const CARD_PREFIX := "**Card**"
  const RECEIPT_PREFIX := "**Receipt**"

  function PrefixOf(content: string): string {
    if StartsWith(content, CARD_PREFIX) then CARD_PREFIX
    else if StartsWith(content, RECEIPT_PREFIX) then RECEIPT_PREFIX
    else ""
  }

  function Room(limit: nat, carry: string): (room: nat)
    ensures room >= 1
  {
    if limit - |carry| >= 1 then limit - |carry| else 1
  }

  function Prepend(carry: string, parts: seq<string>): (out: seq<string>)
    ensures |out| == |parts| && forall i | 0 <= i < |out| :: out[i] == carry + parts[i]
  {
    seq(|parts|, i requires 0 <= i < |parts| => carry + parts[i])
  }

  /** The later pieces as they are posted. */
  function Carried(pieces: seq<string>, prefix: string, carry: string, room: nat): seq<string>
    requires room >= 1
  {
    if pieces == [] then []
    else if StartsWith(pieces[0], prefix) then [pieces[0]] + Carried(pieces[1..], prefix, carry, room)
    else Prepend(carry, Chunks(pieces[0], room)) + Carried(pieces[1..], prefix, carry, room)
  }

  /** The same pieces without the carries that were added. */
  function Bare(pieces: seq<string>, prefix: string, room: nat): seq<string>
    requires room >= 1
  {
    if pieces == [] then []
    else if StartsWith(pieces[0], prefix) then [pieces[0]] + Bare(pieces[1..], prefix, room)
    else Chunks(pieces[0], room) + Bare(pieces[1..], prefix, room)
  }

  function Posted(content: string, limit: nat): seq<string>
    requires limit >= 1
  {
    var prefix := PrefixOf(content);
    var chunks := Chunks(content, limit);
    if prefix == "" || |chunks| <= 1 then chunks
    else [chunks[0]] + Carried(chunks[1..], prefix, prefix + "\n", Room(limit, prefix + "\n"))
  }

  method ChunksForInboundSkip(content: string, limit: int) returns (r: Option<seq<string>>)
    ensures r == if limit < 1 then None else Some(Posted(content, limit))
  {
    hide Chunks, StartsWith;
    var prefix := PrefixOf(content);
    r := ChunkMessage(content, limit);
    if r.None? || prefix == "" || |r.value| <= 1 {
      return;
    }
    var carry := prefix + "\n";
    var room := Room(limit, carry);
    var chunks := r.value;
    var out := [chunks[0]];
    ghost var all := Carried(chunks[1..], prefix, carry, room);
    for i := 1 to |chunks|
      invariant out + Carried(chunks[i..], prefix, carry, room) == [chunks[0]] + all
    {
      ghost var rest := Carried(chunks[i + 1..], prefix, carry, room);
      assert chunks[i..][1..] == chunks[i + 1..];
      if StartsWith(chunks[i], prefix) {
        assert out + ([chunks[i]] + rest) == out + [chunks[i]] + rest;
        out := out + [chunks[i]];
      } else {
        var parts := ChunkMessage(chunks[i], room);
        assert out + (Prepend(carry, parts.value) + rest) == out + Prepend(carry, parts.value) + rest;
        out := out + Prepend(carry, parts.value);
      }
    }
    assert chunks[|chunks|..] == [] && out + [] == out;
    r := Some(out);
  }

  ghost predicate AllStart(pieces: seq<string>, prefix: string) {
    forall i | 0 <= i < |pieces| :: StartsWith(pieces[i], prefix)
  }

  ghost predicate Within(pieces: seq<string>, limit: int) {
    forall i | 0 <= i < |pieces| :: |pieces[i]| <= limit
  }

  /** Some later piece does not repeat the prefix by itself. */
  ghost predicate NeedsCarry(pieces: seq<string>, prefix: string) {
    exists i | 0 <= i < |pieces| :: !StartsWith(pieces[i], prefix)
  }

  lemma {:induction false} CarriedStart(pieces: seq<string>, prefix: string, carry: string, room: nat)
    requires room >= 1 && StartsWith(carry, prefix)
    ensures AllStart(Carried(pieces, prefix, carry, room), prefix)
  {
    hide Chunks;
    if pieces != [] {
      CarriedStart(pieces[1..], prefix, carry, room);
      if !StartsWith(pieces[0], prefix) {
        forall i | 0 <= i < |Chunks(pieces[0], room)|
          ensures StartsWith(Prepend(carry, Chunks(pieces[0], room))[i], prefix)
        {
          assert (carry + Chunks(pieces[0], room)[i])[..|prefix|] == carry[..|prefix|];
        }
      }
    }
  }

  /** Carried pieces fit the limit exactly when the carry leaves room for a character, or none is carried. */
  lemma {:induction false} CarriedWithin(pieces: seq<string>, prefix: string, carry: string, limit: nat)
    requires limit >= 1 && Sized(pieces, limit)
    ensures Within(Carried(pieces, prefix, carry, Room(limit, carry)), limit) <==>
            limit > |carry| || !NeedsCarry(pieces, prefix)
  {
    hide Chunks, StartsWith;
    var room := Room(limit, carry);
    if pieces != [] {
      var rest := Carried(pieces[1..], prefix, carry, room);
      CarriedWithin(pieces[1..], prefix, carry, limit);
      assert NeedsCarry(pieces, prefix) <==> !StartsWith(pieces[0], prefix) || NeedsCarry(pieces[1..], prefix) by {
        NeedsCarryCons(pieces, prefix);
      }
      var first := if StartsWith(pieces[0], prefix) then [pieces[0]] else Prepend(carry, Chunks(pieces[0], room));
      WithinConcat(first, rest, limit);
      if !StartsWith(pieces[0], prefix) {
        PiecesFit(pieces[0], room);
        NextPiece(pieces[0], room);
        ChunksSized(pieces[0], room);
        assert first[0] == carry + Chunks(pieces[0], room)[0];
      }
    }
  }

  lemma ChunksSized(text: string, limit: nat)
    requires limit >= 1 && text != ""
    ensures Chunks(text, limit) != [] && Sized(Chunks(text, limit), limit)
  {
    PiecesFit(text, limit);
  }

  lemma NeedsCarryCons(pieces: seq<string>, prefix: string)
    requires pieces != []
    ensures NeedsCarry(pieces, prefix) <==> !StartsWith(pieces[0], prefix) || NeedsCarry(pieces[1..], prefix)
  {
    hide StartsWith;
    if NeedsCarry(pieces[1..], prefix) {
      var i :| 0 <= i < |pieces| - 1 && !StartsWith(pieces[1..][i], prefix);
      assert pieces[i + 1] == pieces[1..][i];
    }
    if NeedsCarry(pieces, prefix) {
      var i :| 0 <= i < |pieces| && !StartsWith(pieces[i], prefix);
      assert i > 0 ==> pieces[1..][i - 1] == pieces[i];
    }
  }

  lemma WithinConcat(a: seq<string>, b: seq<string>, limit: int)
    ensures Within(a + b, limit) <==> Within(a, limit) && Within(b, limit)
  {
    if Within(a + b, limit) {
      forall i | 0 <= i < |a| ensures |a[i]| <= limit { assert (a + b)[i] == a[i]; }
      forall i | 0 <= i < |b| ensures |b[i]| <= limit { assert (a + b)[|a| + i] == b[i]; }
    }
  }

  lemma Reassociate(pad: string, chunk: string, tail: string, more: string)
    ensures pad + (chunk + tail) + more == pad + (chunk + (tail + more))
  {
    assert chunk + tail + more == chunk + (tail + more);
    assert pad + (chunk + tail) + more == pad + (chunk + tail + more);
  }

  lemma HeadAndTail(chunks: seq<string>, others: seq<string>)
    requires chunks != []
    ensures chunks + others == [chunks[0]] + (chunks[1..] + others)
  {
  }

  lemma {:induction false} CoversConcat(text: string, chunks: seq<string>, more: string, others: seq<string>)
    requires Covers(text, chunks) && Covers(more, others)
    ensures Covers(text + more, chunks + others)
    decreases |chunks|
  {
    hide IsSpace, Blank;
    if chunks == [] {
      assert [] + others == others;
      CoversPadded(text, more, others);
    } else {
      var gap :| 0 <= gap <= |text| && Blank(text[..gap]) && StartsWith(text[gap..], chunks[0])
        && Covers(text[gap + |chunks[0]|..], chunks[1..]);
      hide Covers;
      Unfold(text, gap, chunks[0]);
      var tail := text[gap + |chunks[0]|..];
      CoversConcat(tail, chunks[1..], more, others);
      CoversHead(text[..gap], chunks[0], tail + more, chunks[1..] + others);
      Reassociate(text[..gap], chunks[0], tail, more);
      HeadAndTail(chunks, others);
    }
  }

  /** Cutting covering pieces further still covers the text. */
  lemma {:induction false} BareCovers(text: string, pieces: seq<string>, prefix: string, room: nat)
    requires room >= 1 && Covers(text, pieces)
    ensures Covers(text, Bare(pieces, prefix, room))
    decreases |pieces|
  {
    hide IsSpace, Blank, Chunks;
    if pieces != [] {
      var gap :| 0 <= gap <= |text| && Blank(text[..gap]) && StartsWith(text[gap..], pieces[0])
        && Covers(text[gap + |pieces[0]|..], pieces[1..]);
      hide Covers;
      Unfold(text, gap, pieces[0]);
      var tail := text[gap + |pieces[0]|..];
      BareCovers(tail, pieces[1..], prefix, room);
      OneCovers(pieces[0]);
      ChunksAreLossless(pieces[0], room);
      var first := if StartsWith(pieces[0], prefix) then [pieces[0]] else Chunks(pieces[0], room);
      CoversConcat(pieces[0], first, tail, Bare(pieces[1..], prefix, room));
      CoversPadded(text[..gap], pieces[0] + tail, Bare(pieces, prefix, room));
    }
  }

  lemma OneCovers(text: string)
    ensures Covers(text, [text])
  {
    NothingCovers(text[|text|..]);
    CoversCons(text, text, []);
    assert [text] + [] == [text];
  }

  /** The first piece keeps a prefix that fits and holds no whitespace. */
  lemma FirstKeepsPrefix(content: string, prefix: string, limit: nat)
    requires limit >= 1 && StartsWith(content, prefix) && prefix != ""
    requires forall i | 0 <= i < |prefix| :: !IsSpace(prefix[i])
    ensures StartsWith(Chunks(content, limit)[0], prefix) <==> |prefix| <= limit
  {
    hide IsSpace, BestBreak;
    NextPiece(content, limit);
    if |content| > limit && |prefix| <= limit {
      var piece := Piece(content, limit);
      var b := Reach(content, limit);
      forall i | 0 <= i < |prefix| ensures !IsSpace(content[i]) && content[..limit][i] == content[i] {
        assert content[..|prefix|][i] == prefix[i];
      }
      assert b >= |prefix|;
      assert |piece| < b ==> IsSpace(content[|piece|..b][0]);
      assert piece[..|prefix|] == content[..|prefix|];
    }
  }

  /** Each posted piece is a bare piece, or a bare piece after the carry. */
  ghost predicate AddsOnly(posted: seq<string>, bare: seq<string>, carry: string) {
    |posted| == |bare| && forall i | 0 <= i < |posted| :: posted[i] == bare[i] || posted[i] == carry + bare[i]
  }

  lemma {:induction false} CarriedAddsOnly(pieces: seq<string>, prefix: string, carry: string, room: nat)
    requires room >= 1
    ensures AddsOnly(Carried(pieces, prefix, carry, room), Bare(pieces, prefix, room), carry)
  {
    hide Chunks, StartsWith;
    if pieces != [] {
      CarriedAddsOnly(pieces[1..], prefix, carry, room);
    }
  }

  /** The content as posted, without the carries. */
  function BarePosted(content: string, limit: nat): seq<string>
    requires limit >= 1
  {
    var prefix := PrefixOf(content);
    var chunks := Chunks(content, limit);
    if prefix == "" || |chunks| <= 1 then chunks
    else [chunks[0]] + Bare(chunks[1..], prefix, Room(limit, prefix + "\n"))
  }

  lemma PrefixesAreVisible(content: string)
    ensures var prefix := PrefixOf(content);
      StartsWith(content, prefix) && forall i | 0 <= i < |prefix| :: !IsSpace(prefix[i])
  {
    assert content[..0] == "";
  }

  /** Whatever is posted, the text outside the carries covers the content in order. */
  lemma PostedCoversContent(content: string, limit: nat)
    requires limit >= 1
    ensures AddsOnly(Posted(content, limit), BarePosted(content, limit), PrefixOf(content) + "\n")
    ensures Covers(content, BarePosted(content, limit))
    ensures Dense(Join(BarePosted(content, limit))) == Dense(content)
  {
    hide Chunks, PrefixOf, Covers, Bare, Carried, Dense, Join, StartsWith;
    var prefix := PrefixOf(content);
    var chunks := Chunks(content, limit);
    ChunksAreLossless(content, limit);
    if prefix != "" && |chunks| > 1 {
      var room := Room(limit, prefix + "\n");
      CarriedAddsOnly(chunks[1..], prefix, prefix + "\n", room);
      TailCovers(content, chunks, prefix, room);
    }
    CoveringKeepsCharacters(content, BarePosted(content, limit));
  }

  lemma TailCovers(text: string, chunks: seq<string>, prefix: string, room: nat)
    requires room >= 1 && chunks != [] && Covers(text, chunks)
    ensures Covers(text, [chunks[0]] + Bare(chunks[1..], prefix, room))
  {
    hide IsSpace, Blank, Bare;
    var gap :| 0 <= gap <= |text| && Blank(text[..gap]) && StartsWith(text[gap..], chunks[0])
      && Covers(text[gap + |chunks[0]|..], chunks[1..]);
    hide Covers;
    Unfold(text, gap, chunks[0]);
    var tail := text[gap + |chunks[0]|..];
    BareCovers(tail, chunks[1..], prefix, room);
    CoversHead(text[..gap], chunks[0], tail, Bare(chunks[1..], prefix, room));
  }

  /** Every posted piece of a card or receipt starts with its prefix exactly when the limit fits the prefix. */
  lemma PostedStartWithPrefix(content: string, limit: nat)
    requires limit >= 1 && PrefixOf(content) != ""
    ensures AllStart(Posted(content, limit), PrefixOf(content)) <==> |PrefixOf(content)| <= limit
  {
    hide Chunks, PrefixOf, Carried, StartsWith, IsSpace;
    var prefix := PrefixOf(content);
    var chunks := Chunks(content, limit);
    PrefixesAreVisible(content);
    ChunksAreLossless(content, limit);
    FirstKeepsPrefix(content, prefix, limit);
    var posted := Posted(content, limit);
    assert posted[0] == chunks[0];
    if |chunks| > 1 {
      CarryStarts(prefix);
      var carry := prefix + "\n";
      CarriedStart(chunks[1..], prefix, carry, Room(limit, carry));
      assert posted == [chunks[0]] + Carried(chunks[1..], prefix, carry, Room(limit, carry));
    }
  }

  lemma CarryStarts(prefix: string)
    ensures StartsWith(prefix + "\n", prefix)
  {
  }

  /** They all fit the limit exactly when it leaves room after prefix and newline, or no piece needed the carry. */
  lemma PostedWithinLimit(content: string, limit: nat)
    requires limit >= 1 && PrefixOf(content) != ""
    ensures Within(Posted(content, limit), limit) <==>
            limit > |PrefixOf(content)| + 1 || !NeedsCarry(Chunks(content, limit)[1..], PrefixOf(content))
  {
    hide PrefixOf, Carried, StartsWith, IsSpace, Pieces;
    var prefix := PrefixOf(content);
    var chunks := Chunks(content, limit);
    PrefixesAreVisible(content);
    assert content != "" by {
      StartsNonEmpty(content, prefix);
    }
    ChunksSized(content, limit);
    if |chunks| > 1 {
      var carry := prefix + "\n";
      CarriedWithin(chunks[1..], prefix, carry, limit);
      WithinConcat([chunks[0]], Carried(chunks[1..], prefix, carry, Room(limit, carry)), limit);
    }
  }

  /** All the room the limit leaves beside the carry is used, and a character at least. */
  lemma RoomIsAllThereIs(limit: nat, carry: string)
    ensures limit > |carry| ==> |carry| + Room(limit, carry) == limit
    ensures limit <= |carry| ==> Room(limit, carry) == 1
  {
  }

  /** The pieces as they are, each later one that lacks the prefix with the carry before it. */
  ghost predicate CarriedAsTheyAre(posted: seq<string>, chunks: seq<string>, prefix: string) {
    && |posted| == |chunks|
    && forall i | 0 <= i < |chunks| ::
         posted[i] == if i == 0 || StartsWith(chunks[i], prefix) then chunks[i] else prefix + "\n" + chunks[i]
  }

  /** Where every later piece fits with the carry, each is posted as one message. */
  lemma FittingPiecesStayWhole(content: string, limit: nat)
    requires limit >= 1 && PrefixOf(content) != ""
    requires forall p | p in Chunks(content, limit)[1..] :: |PrefixOf(content)| + 1 + |p| <= limit
    ensures CarriedAsTheyAre(Posted(content, limit), Chunks(content, limit), PrefixOf(content))
  {
    hide PrefixOf, Carried, StartsWith, Pieces, Chunks, Sized, Visible, Covers, Dense, Join;
    var (prefix, chunks) := (PrefixOf(content), Chunks(content, limit));
    ChunksAreLossless(content, limit);
    if |chunks| > 1 {
      LaterPiecesFit(content, limit, prefix + "\n");
      CarriedWhole(chunks[1..], prefix, prefix + "\n", Room(limit, prefix + "\n"));
      WithFirst(chunks, Carried(chunks[1..], prefix, prefix + "\n", Room(limit, prefix + "\n")), prefix);
    }
  }

  lemma WithFirst(chunks: seq<string>, rest: seq<string>, prefix: string)
    requires chunks != [] && |rest| == |chunks| - 1
    requires forall i | 0 <= i < |rest| ::
               rest[i] == if StartsWith(chunks[1..][i], prefix) then chunks[1..][i] else prefix + "\n" + chunks[1..][i]
    ensures CarriedAsTheyAre([chunks[0]] + rest, chunks, prefix)
  {
    hide StartsWith;
    forall i | 0 < i < |chunks|
      ensures ([chunks[0]] + rest)[i] == if StartsWith(chunks[i], prefix) then chunks[i] else prefix + "\n" + chunks[i]
    {
      assert ([chunks[0]] + rest)[i] == rest[i - 1] && chunks[1..][i - 1] == chunks[i];
    }
  }

  lemma LaterPiecesFit(content: string, limit: nat, carry: string)
    requires limit >= 1 && |Chunks(content, limit)| > 1
    requires forall p | p in Chunks(content, limit)[1..] :: |carry| + |p| <= limit
    ensures forall p | p in Chunks(content, limit)[1..] :: p != "" && |p| <= Room(limit, carry)
  {
    hide Chunks;
    ChunksNonEmpty(content, limit);
    var later := Chunks(content, limit)[1..];
    forall p | p in later ensures p != "" && |p| <= Room(limit, carry) {
      assert p in Chunks(content, limit);
      assert |carry| + |p| <= limit;
    }
  }

  lemma ChunksNonEmpty(content: string, limit: nat)
    requires limit >= 1 && |Chunks(content, limit)| > 1
    ensures forall p | p in Chunks(content, limit) :: p != ""
  {
    hide Pieces, Covers, Dense, Join, Visible;
    ChunksAreLossless(content, limit);
  }

  lemma {:induction false} CarriedWhole(pieces: seq<string>, prefix: string, carry: string, room: nat)
    requires room >= 1 && forall p | p in pieces :: p != "" && |p| <= room
    ensures |Carried(pieces, prefix, carry, room)| == |pieces|
    ensures forall i | 0 <= i < |pieces| ::
              Carried(pieces, prefix, carry, room)[i] ==
              if StartsWith(pieces[i], prefix) then pieces[i] else carry + pieces[i]
  {
    hide StartsWith, Pieces, Chunks, Carried, Prepend;
    if pieces == [] {
      NothingCarried(prefix, carry, room);
    } else {
      var rest := Carried(pieces[1..], prefix, carry, room);
      CarriedWhole(pieces[1..], prefix, carry, room);
      CarriedFirst(pieces, prefix, carry, room);
      forall i | 0 < i < |pieces|
        ensures Carried(pieces, prefix, carry, room)[i] ==
                if StartsWith(pieces[i], prefix) then pieces[i] else carry + pieces[i]
      {
        assert pieces[1..][i - 1] == pieces[i] && Carried(pieces, prefix, carry, room)[i] == rest[i - 1];
      }
    }
  }

  lemma NothingCarried(prefix: string, carry: string, room: nat)
    requires room >= 1
    ensures Carried([], prefix, carry, room) == []
  {
  }

  lemma CarriedFirst(pieces: seq<string>, prefix: string, carry: string, room: nat)
    requires room >= 1 && pieces != [] && pieces[0] != "" && |pieces[0]| <= room
    ensures Carried(pieces, prefix, carry, room) ==
            [if StartsWith(pieces[0], prefix) then pieces[0] else carry + pieces[0]] +
            Carried(pieces[1..], prefix, carry, room)
  {
    hide StartsWith, Pieces;
    NextPiece(pieces[0], room);
    assert Chunks(pieces[0], room) == [pieces[0]];
    assert Prepend(carry, [pieces[0]]) == [carry + pieces[0]];
  }

  /** A limit that the prefix fills: the rest is posted with the carry, over the limit. */
  lemma CarriedPieceIsTooLong()
    ensures !Within(Posted(CARD_PREFIX + "X", 8), 8)
  {
    hide Posted, Within, Pieces, IsSpace, Chunks;
    var content := CARD_PREFIX + "X";
    assert StartsWith(content, CARD_PREFIX);
    CutAfterPrefix(content);
    assert !StartsWith(Chunks(content, 8)[1..][0], CARD_PREFIX);
    PostedWithinLimit(content, 8);
  }

  /** A window without whitespace is cut at its end. */
  lemma CutThroughVisible(text: string, limit: nat)
    requires 1 <= limit < |text| && forall i | 0 <= i < limit :: !IsSpace(text[i])
    ensures Reach(text, limit) == limit && Piece(text, limit) == text[..limit]
  {
    hide IsSpace, RStrip;
    var window := text[..limit];
    var b := BestBreak(window);
    assert b == 0;
    VisibleEndStays(window);
  }

  lemma CutAfterPrefix(content: string)
    requires content == CARD_PREFIX + "X"
    ensures Chunks(content, 8) == [CARD_PREFIX, "X"]
  {
    hide Reach, Piece, LStrip, Pieces, IsSpace, PrefixOf;
    assert StartsWith(content, CARD_PREFIX) && content[..8] == CARD_PREFIX && content[8..] == "X";
    VisibleCard();
    assert forall i | 0 <= i < 8 :: content[i] == CARD_PREFIX[i];
    CutThroughVisible(content, 8);
    NextPiece(content, 8);
    NextPiece("X", 8);
  }

  lemma VisibleCard()
    ensures forall i | 0 <= i < |CARD_PREFIX| :: !IsSpace(CARD_PREFIX[i])
    ensures LStrip("X") == "X"
  {
  }

  lemma StartsNonEmpty(s: string, prefix: string)
    requires StartsWith(s, prefix) && prefix != ""
    ensures s != ""
  {
  }
}
