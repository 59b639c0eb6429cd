/** Splitting search text into tokens at everything that is neither letter nor number, and at
    changes of case inside a word. */
module Tokenizers {
  import opened Orders

  /** Unicode classes and the folding of a token. */
  datatype Classes = Classes(
    letter: char -> bool, number: char -> bool, upper: char -> bool, lower: char -> bool, fold: string -> string)

  /** The bytes of a character in UTF-8. */
  function Width(r: char): nat {
    if r < 0x80 as char then 1 else if r < 0x800 as char then 2 else if r as int < 0x1_0000 then 3 else 4
  }

  /** The byte length of a text. */
  function Size(text: string): (n: int)
    ensures n >= |text|
  {
    if text == "" then 0 else Width(text[0]) + Size(text[1..])
  }

  predicate Word(c: Classes, r: char) { c.letter(r) || c.number(r) }

  /** A position inside "GitHub" or "GitLab" where case alone would split it. */
  predicate InsideProduct(runes: string, i: nat) {
    3 <= i && i + 3 <= |runes| && (runes[i - 3..i + 3] == "GitHub" || runes[i - 3..i + 3] == "GitLab")
  }

  predicate CaseBreak(c: Classes, runes: string, i: nat)
    requires 0 < i < |runes|
  {
    && c.upper(runes[i])
    && (c.lower(runes[i - 1]) || (c.upper(runes[i - 1]) && i + 1 < |runes| && c.lower(runes[i + 1])))
    && !InsideProduct(runes, i)
  }

  /** Two neighbouring positions belong to one piece. */
  predicate Joined(c: Classes, runes: string, i: nat)
    requires 0 < i < |runes|
  {
    Word(c, runes[i - 1]) && Word(c, runes[i]) && !CaseBreak(c, runes, i)
  }

  datatype Piece = Piece(start: nat, end: nat)

  /** A maximal run of joined word characters. */
  predicate IsPiece(c: Classes, runes: string, p: Piece) {
    && p.start < p.end <= |runes|
    && (forall i :: p.start <= i < p.end ==> Word(c, runes[i]))
    && (forall i :: p.start < i < p.end ==> Joined(c, runes, i))
    && (p.start > 0 ==> !Joined(c, runes, p.start))
    && (p.end < |runes| ==> !Joined(c, runes, p.end))
  }

  /** The pieces of the first `n` characters, in order, with every word character in one. */
  predicate Covers(c: Classes, runes: string, pieces: seq<Piece>, n: nat) {
    && n <= |runes|
    && (forall k :: 0 <= k < |pieces| ==> IsPiece(c, runes, pieces[k]) && pieces[k].end <= n)
    && (forall j, k :: 0 <= j < k < |pieces| ==> pieces[j].end <= pieces[k].start)
    && (forall i :: 0 <= i < n && Word(c, runes[i]) ==> exists k :: 0 <= k < |pieces| && pieces[k].start <= i < pieces[k].end)
  }

  /** A character lies in at most one possible piece. */
  lemma PieceIsUnique(c: Classes, runes: string, p: Piece, q: Piece, i: nat)
    requires IsPiece(c, runes, p) && IsPiece(c, runes, q) && p.start <= i < p.end && q.start <= i < q.end
    ensures p == q
  {
    assert p.start == q.start;
    assert p.end == q.end;
  }

  function Text(runes: string, p: Piece): string
    requires p.start <= p.end <= |runes|
  {
    runes[p.start..p.end]
  }

  /** The folded pieces; a piece that folds to nothing is dropped. */
  function Tokens(c: Classes, runes: string, pieces: seq<Piece>): seq<string>
    requires forall k :: 0 <= k < |pieces| ==> pieces[k].start <= pieces[k].end <= |runes|
  {
    if pieces == [] then []
    else
      var rest := Tokens(c, runes, pieces[..|pieces| - 1]);
      var token := c.fold(Text(runes, pieces[|pieces| - 1]));
      if token != "" then rest + [token] else rest
  }

  function TotalSize(tokens: seq<string>): nat {
    if tokens == [] then 0 else TotalSize(tokens[..|tokens| - 1]) + Size(tokens[|tokens| - 1])
  }

  lemma TotalMore(tokens: seq<string>, token: string)
    ensures TotalSize(tokens + [token]) == TotalSize(tokens) + Size(token)
  {
    assert (tokens + [token])[..|tokens + [token]| - 1] == tokens;
  }

  lemma ElementsMore(tokens: seq<string>, token: string)
    ensures Elements(tokens + [token]) == Elements(tokens) + {token}
  {
  }

  lemma TokensMore(c: Classes, runes: string, pieces: seq<Piece>, p: Piece)
    requires forall k :: 0 <= k < |pieces| ==> pieces[k].start <= pieces[k].end <= |runes|
    requires p.start <= p.end <= |runes|
    ensures Tokens(c, runes, pieces + [p]) ==
      (if c.fold(Text(runes, p)) != "" then Tokens(c, runes, pieces) + [c.fold(Text(runes, p))] else Tokens(c, runes, pieces))
  {
    assert (pieces + [p])[..|pieces + [p]| - 1] == pieces;
  }

  lemma CoversMore(c: Classes, runes: string, pieces: seq<Piece>, start: nat, end: nat)
    requires Covers(c, runes, pieces, start) && IsPiece(c, runes, Piece(start, end))
    ensures Covers(c, runes, pieces + [Piece(start, end)], end)
  {
    var more := pieces + [Piece(start, end)];
    forall i | 0 <= i < end && Word(c, runes[i]) ensures exists k :: 0 <= k < |more| && more[k].start <= i < more[k].end {
      if i < start {
        var k :| 0 <= k < |pieces| && pieces[k].start <= i < pieces[k].end;
        assert more[k] == pieces[k];
      } else {
        assert more[|pieces|] == Piece(start, end);
      }
    }
  }

  lemma CoversGap(c: Classes, runes: string, pieces: seq<Piece>, n: nat)
    requires Covers(c, runes, pieces, n) && n < |runes| && !Word(c, runes[n])
    ensures Covers(c, runes, pieces, n + 1)
  {
  }

  /** An open piece begins at `start` and reaches to `n`; without one, everything is covered. */
  ghost predicate Open(c: Classes, runes: string, pieces: seq<Piece>, start: int, n: nat) {
    if start < 0 then Covers(c, runes, pieces, n) && (0 < n < |runes| ==> !Joined(c, runes, n))
    else
      && start < n <= |runes| && Covers(c, runes, pieces, start)
      && (forall i :: start <= i < n ==> Word(c, runes[i])) && (forall i :: start < i < n ==> Joined(c, runes, i))
      && (start > 0 ==> !Joined(c, runes, start))
  }

  method Flush(c: Classes, runes: string, start: int, end: nat, tokens: seq<string>, tokenSet: set<string>, tokenBytes: nat,
               ghost pieces: seq<Piece>)
    returns (tokens': seq<string>, tokenSet': set<string>, tokenBytes': nat, ghost pieces': seq<Piece>)
    requires forall k :: 0 <= k < |pieces| ==> pieces[k].start <= pieces[k].end <= |runes|
    requires Open(c, runes, pieces, start, end) && end <= |runes| && (end < |runes| ==> end > 0 ==> !Joined(c, runes, end))
    requires tokens == Tokens(c, runes, pieces) && tokenSet == Elements(tokens) && tokenBytes == TotalSize(tokens)
    ensures Covers(c, runes, pieces', end) && forall k :: 0 <= k < |pieces'| ==> pieces'[k].start <= pieces'[k].end <= |runes|
    ensures tokens' == Tokens(c, runes, pieces') && tokenSet' == Elements(tokens') && tokenBytes' == TotalSize(tokens')
  {
    hide Covers, Tokens, TotalSize, Size, Elements, CaseBreak;
    tokens', tokenSet', tokenBytes', pieces' := tokens, tokenSet, tokenBytes, pieces;
    if start < 0 { return; }
    CoversMore(c, runes, pieces, start, end);
    TokensMore(c, runes, pieces, Piece(start, end));
    pieces' := pieces + [Piece(start, end)];
    var token := c.fold(runes[start..end]);
    if token != "" {
      TotalMore(tokens, token);
      ElementsMore(tokens, token);
      tokens' := tokens + [token];
      tokenSet' := tokenSet + {token};
      tokenBytes' := tokenBytes + Size(token);
    }
  }

  /** The tokens in order and as a set, and their bytes with one separator between neighbours. */
  method TokenizeSearchText(c: Classes, runes: string)
    returns (tokens: seq<string>, tokenSet: set<string>, tokenBytes: nat, ghost pieces: seq<Piece>)
    ensures Covers(c, runes, pieces, |runes|) && forall k :: 0 <= k < |pieces| ==> pieces[k].start <= pieces[k].end <= |runes|
    ensures tokens == Tokens(c, runes, pieces) == TokensOf(c, runes) && tokenSet == Elements(tokens)
    ensures tokenBytes == TotalSize(tokens) + (if |tokens| > 1 then |tokens| - 1 else 0)
  {
    hide Covers, Tokens, TotalSize, TokensOf;
    tokens, tokenSet, tokenBytes, pieces := [], {}, 0, [];
    NothingYet(c, runes);
    var start := -1;
    for index := 0 to |runes|
      invariant Open(c, runes, pieces, start, index)
      invariant forall k :: 0 <= k < |pieces| ==> pieces[k].start <= pieces[k].end <= |runes|
      invariant tokens == Tokens(c, runes, pieces) && tokenSet == Elements(tokens) && tokenBytes == TotalSize(tokens)
    {
      if !Word(c, runes[index]) {
        tokens, tokenSet, tokenBytes, pieces := Flush(c, runes, start, index, tokens, tokenSet, tokenBytes, pieces);
        CoversGap(c, runes, pieces, index);
        start := -1;
      } else if start < 0 {
        start := index;
      } else if CaseBreak(c, runes, index) {
        tokens, tokenSet, tokenBytes, pieces := Flush(c, runes, start, index, tokens, tokenSet, tokenBytes, pieces);
        start := index;
      }
    }
    tokens, tokenSet, tokenBytes, pieces := Flush(c, runes, start, |runes|, tokens, tokenSet, tokenBytes, pieces);
    TokensOfPieces(c, runes, pieces);
    if |tokens| > 1 { tokenBytes := tokenBytes + |tokens| - 1; }
  }

  lemma NothingYet(c: Classes, runes: string)
    ensures Covers(c, runes, [], 0) && Tokens(c, runes, []) == [] && TotalSize([]) == 0
  {
  }

  /** The pieces are exactly the maximal runs of joined word characters. */
  lemma PiecesAreMaximalRuns(c: Classes, runes: string, pieces: seq<Piece>, p: Piece)
    requires Covers(c, runes, pieces, |runes|)
    ensures p in pieces <==> IsPiece(c, runes, p)
  {
    if IsPiece(c, runes, p) {
      var k :| 0 <= k < |pieces| && pieces[k].start <= p.start < pieces[k].end;
      PieceIsUnique(c, runes, p, pieces[k], p.start);
    }
  }

  predicate InFront(p: Piece, q: Piece) { p.end <= q.start && p.start < q.start }

  lemma PiecesAreOrdered(c: Classes, runes: string, pieces: seq<Piece>)
    requires Covers(c, runes, pieces, |runes|)
    ensures StrictOrder(Elements(pieces), InFront) && AscendingBy(pieces, InFront)
  {
    assert forall p :: p in pieces ==> IsPiece(c, runes, p);
    forall j, k | 0 <= j < k < |pieces| ensures InFront(pieces[j], pieces[k]) {
      assert IsPiece(c, runes, pieces[j]);
    }
  }

  /** The tokens are a function of the text: two coverings of it are the same list. */
  lemma CoveringIsUnique(c: Classes, runes: string, a: seq<Piece>, b: seq<Piece>)
    requires Covers(c, runes, a, |runes|) && Covers(c, runes, b, |runes|)
    ensures a == b
  {
    hide Covers, IsPiece;
    PiecesAreOrdered(c, runes, a);
    PiecesAreOrdered(c, runes, b);
    forall p ensures p in a <==> p in b {
      PiecesAreMaximalRuns(c, runes, a, p);
      PiecesAreMaximalRuns(c, runes, b, p);
    }
    assert Elements(a) == Elements(b);
    ListingIsUnique(a, b, Elements(a), InFront);
  }

  /** Every text has a covering. */
  lemma CoveringExists(c: Classes, runes: string) returns (pieces: seq<Piece>)
    ensures Covers(c, runes, pieces, |runes|)
  {
    hide Covers;
    pieces := [];
    NothingYet(c, runes);
    var start := -1;
    for index := 0 to |runes|
      invariant Open(c, runes, pieces, start, index)
    {
      if !Word(c, runes[index]) {
        if start >= 0 {
          CoversMore(c, runes, pieces, start, index);
          pieces := pieces + [Piece(start, index)];
        }
        CoversGap(c, runes, pieces, index);
        start := -1;
      } else if start < 0 {
        start := index;
      } else if CaseBreak(c, runes, index) {
        CoversMore(c, runes, pieces, start, index);
        pieces := pieces + [Piece(start, index)];
        start := index;
      }
    }
    if start >= 0 {
      CoversMore(c, runes, pieces, start, |runes|);
      pieces := pieces + [Piece(start, |runes|)];
    }
  }

  ghost function PiecesOf(c: Classes, runes: string): (pieces: seq<Piece>)
    ensures Covers(c, runes, pieces, |runes|)
    ensures forall k :: 0 <= k < |pieces| ==> pieces[k].start <= pieces[k].end <= |runes|
  {
    assert exists pieces :: Covers(c, runes, pieces, |runes|) by {
      var pieces := CoveringExists(c, runes);
      assert Covers(c, runes, pieces, |runes|);
    }
    var pieces :| Covers(c, runes, pieces, |runes|);
    assert forall k :: 0 <= k < |pieces| ==> IsPiece(c, runes, pieces[k]);
    pieces
  }

  /** The tokens of a text. */
  ghost function TokensOf(c: Classes, runes: string): seq<string> { Tokens(c, runes, PiecesOf(c, runes)) }

  lemma TokensOfPieces(c: Classes, runes: string, pieces: seq<Piece>)
    requires Covers(c, runes, pieces, |runes|) && forall k :: 0 <= k < |pieces| ==> pieces[k].start <= pieces[k].end <= |runes|
    ensures TokensOf(c, runes) == Tokens(c, runes, pieces)
  {
    hide Covers;
    CoveringIsUnique(c, runes, pieces, PiecesOf(c, runes));
  }

  lemma {:induction false} NoEmptyToken(c: Classes, runes: string, pieces: seq<Piece>)
    requires forall k :: 0 <= k < |pieces| ==> pieces[k].start <= pieces[k].end <= |runes|
    ensures "" !in Tokens(c, runes, pieces)
  {
    if pieces != [] { NoEmptyToken(c, runes, pieces[..|pieces| - 1]); }
  }

  /** A token is never empty, so it has at least one byte. */
  lemma TokensHaveBytes(c: Classes, runes: string, token: string)
    requires token in TokensOf(c, runes)
    ensures token != "" && Size(token) > 0
  {
    NoEmptyToken(c, runes, PiecesOf(c, runes));
  }
}
