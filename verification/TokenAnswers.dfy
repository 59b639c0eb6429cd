/** How search text falls into tokens, on the texts people write: separated words, words of one
    case, camel case, acronyms, and the two product names that stay whole. */
module TokenAnswers {
  import opened Tokenizers

  // ---------- a separator ----------

  /** Neither letter nor number, nor a letter of the product names. */
  predicate Separates(c: Classes, r: char) { !Word(c, r) && !c.lower(r) && r !in "GitHubLab" }

  lemma ProductHolds(runes: string, i: nat, k: nat)
    requires InsideProduct(runes, i) && i - 3 <= k < i + 3
    ensures runes[k] in "GitHubLab"
  {
    assert runes[k] == runes[i - 3..i + 3][k - (i - 3)];
  }

  lemma BreaksBefore(c: Classes, a: string, sep: char, b: string, i: nat)
    requires Separates(c, sep) && 0 < i < |a|
    ensures Joined(c, a + [sep] + b, i) == Joined(c, a, i)
  {
    var runes := a + [sep] + b;
    assert runes[i] == a[i] && runes[i - 1] == a[i - 1] && (i + 1 < |a| ==> runes[i + 1] == a[i + 1]);
    assert i + 1 == |a| ==> runes[i + 1] == sep;
    if i + 3 <= |a| {
      assert 3 <= i ==> runes[i - 3..i + 3] == a[i - 3..i + 3];
    } else if InsideProduct(runes, i) {
      ProductHolds(runes, i, |a|);
    }
  }

  lemma BreaksBehind(c: Classes, a: string, sep: char, b: string, i: nat)
    requires Separates(c, sep) && 0 < i < |b|
    ensures Joined(c, a + [sep] + b, |a| + 1 + i) == Joined(c, b, i)
  {
    var runes, k := a + [sep] + b, |a| + 1 + i;
    assert runes[k] == b[i] && runes[k - 1] == b[i - 1] && (i + 1 < |b| ==> runes[k + 1] == b[i + 1]);
    if 3 <= i {
      assert i + 3 <= |b| ==> runes[k - 3..k + 3] == b[i - 3..i + 3];
    } else if InsideProduct(runes, k) {
      ProductHolds(runes, k, |a|);
    }
  }

  function Moved(p: Piece, n: nat): Piece { Piece(p.start + n, p.end + n) }

  /** A text inside another, joined alike and not joined to its neighbours, keeps its pieces. */
  lemma PieceWithin(c: Classes, runes: string, part: string, n: nat, p: Piece)
    requires IsPiece(c, part, p) && n + |part| <= |runes|
    requires forall i :: 0 <= i < |part| ==> runes[n + i] == part[i]
    requires forall i :: 0 < i < |part| ==> Joined(c, runes, n + i) == Joined(c, part, i)
    requires (0 < n < |runes| ==> !Joined(c, runes, n)) && (0 < n + |part| < |runes| ==> !Joined(c, runes, n + |part|))
    ensures IsPiece(c, runes, Moved(p, n))
  {
    hide Joined, Word;
    var q := Moved(p, n);
    forall i | q.start <= i < q.end ensures Word(c, runes[i]) { assert runes[n + (i - n)] == part[i - n]; }
    forall i | q.start < i < q.end ensures Joined(c, runes, i) { assert Joined(c, runes, n + (i - n)) == Joined(c, part, i - n); }
    if p.start > 0 { assert Joined(c, runes, n + p.start) == Joined(c, part, p.start); }
    if p.end < |part| { assert Joined(c, runes, n + p.end) == Joined(c, part, p.end); }
  }

  lemma PieceBefore(c: Classes, a: string, sep: char, b: string, p: Piece)
    requires Separates(c, sep) && IsPiece(c, a, p)
    ensures IsPiece(c, a + [sep] + b, p)
  {
    hide InsideProduct, CaseBreak, IsPiece;
    var runes := a + [sep] + b;
    forall i | 0 < i < |a| ensures Joined(c, runes, 0 + i) == Joined(c, a, i) { BreaksBefore(c, a, sep, b, i); }
    assert runes[|a|] == sep;
    PieceWithin(c, runes, a, 0, p);
  }

  lemma PieceBehind(c: Classes, a: string, sep: char, b: string, p: Piece)
    requires Separates(c, sep) && IsPiece(c, b, p)
    ensures IsPiece(c, a + [sep] + b, Moved(p, |a| + 1))
  {
    hide InsideProduct, CaseBreak, IsPiece;
    var runes, n := a + [sep] + b, |a| + 1;
    forall i | 0 < i < |b| ensures Joined(c, runes, n + i) == Joined(c, b, i) { BreaksBehind(c, a, sep, b, i); }
    assert runes[|a|] == sep;
    PieceWithin(c, runes, b, n, p);
  }

  function AllMoved(pieces: seq<Piece>, n: nat): (r: seq<Piece>)
    ensures |r| == |pieces| && forall k :: 0 <= k < |r| ==> r[k] == Moved(pieces[k], n)
  {
    seq(|pieces|, k requires 0 <= k < |pieces| => Moved(pieces[k], n))
  }

  lemma BothCover(c: Classes, a: string, sep: char, b: string, front: seq<Piece>, back: seq<Piece>)
    requires Separates(c, sep) && Covers(c, a, front, |a|) && Covers(c, b, back, |b|)
    ensures Covers(c, a + [sep] + b, front + AllMoved(back, |a| + 1), |a| + 1 + |b|)
  {
    hide IsPiece, Word;
    var runes, n := a + [sep] + b, |a| + 1;
    var moved := AllMoved(back, n);
    var all := front + moved;
    SeparatorIsNoWord(c, sep);
    assert runes[|a|] == sep;
    forall k | 0 <= k < |all| ensures IsPiece(c, runes, all[k]) && all[k].end <= |runes| && (k >= |front| ==> all[k].start >= n) {
      if k < |front| { PieceBefore(c, a, sep, b, front[k]); }
      else { PieceBehind(c, a, sep, b, back[k - |front|]); }
    }
    forall i | 0 <= i < |runes| && Word(c, runes[i]) ensures exists k :: 0 <= k < |all| && all[k].start <= i < all[k].end {
      if i < |a| {
        assert runes[i] == a[i];
        var k :| 0 <= k < |front| && front[k].start <= i < front[k].end;
        assert all[k] == front[k];
      } else if i > |a| {
        assert runes[i] == b[i - n];
        var k :| 0 <= k < |back| && back[k].start <= i - n < back[k].end;
        assert all[|front| + k] == Moved(back[k], n);
      }
    }
  }

  lemma SeparatorIsNoWord(c: Classes, r: char)
    requires Separates(c, r)
    ensures !Word(c, r)
  {
  }

  lemma {:induction false} TokensBefore(c: Classes, a: string, more: string, front: seq<Piece>)
    requires forall k :: 0 <= k < |front| ==> front[k].start <= front[k].end <= |a|
    ensures Tokens(c, a + more, front) == Tokens(c, a, front)
    decreases |front|
  {
    if front != [] {
      var n := |front| - 1;
      TokensBefore(c, a, more, front[..n]);
      assert (a + more)[front[n].start..front[n].end] == a[front[n].start..front[n].end];
    }
  }

  lemma {:induction false} TokensBehind(c: Classes, a: string, b: string, front: seq<Piece>, back: seq<Piece>)
    requires forall k :: 0 <= k < |front| ==> front[k].start <= front[k].end <= |a|
    requires forall k :: 0 <= k < |back| ==> back[k].start <= back[k].end <= |b|
    ensures Tokens(c, a + b, front + AllMoved(back, |a|)) == Tokens(c, a, front) + Tokens(c, b, back)
    decreases |back|
  {
    hide Tokens;
    if back == [] {
      TokensBefore(c, a, b, front);
      NothingYet(c, b);
      assert front + AllMoved(back, |a|) == front;
    } else {
      var n := |back| - 1;
      TokensBehind(c, a, b, front, back[..n]);
      assert front + AllMoved(back, |a|) == front + AllMoved(back[..n], |a|) + [Moved(back[n], |a|)] && back == back[..n] + [back[n]];
      TokensMore(c, a + b, front + AllMoved(back[..n], |a|), Moved(back[n], |a|));
      TokensMore(c, b, back[..n], back[n]);
      assert (a + b)[|a| + back[n].start..|a| + back[n].end] == b[back[n].start..back[n].end];
    }
  }

  /** The tokens of two texts with a separator between them are those of the one and then those of
      the other. */
  lemma SeparatedTokens(c: Classes, a: string, sep: char, b: string)
    requires Separates(c, sep)
    ensures TokensOf(c, a + [sep] + b) == TokensOf(c, a) + TokensOf(c, b)
  {
    hide Covers, Tokens, Separates;
    var front, back := PiecesOf(c, a), PiecesOf(c, b);
    BothCover(c, a, sep, b, front, back);
    TokensBefore(c, a, [sep], front);
    TokensBehind(c, a + [sep], b, front, back);
    TokensOfPieces(c, a + [sep] + b, front + AllMoved(back, |a| + 1));
  }

  // ---------- one word ----------

  ghost predicate AllWord(c: Classes, w: string) { forall i :: 0 <= i < |w| ==> Word(c, w[i]) }

  /** Only the first character may be upper case. */
  ghost predicate Capitalized(c: Classes, w: string) {
    w != "" && AllWord(c, w) && forall i :: 0 < i < |w| ==> !c.upper(w[i])
  }

  ghost predicate AllUpper(c: Classes, w: string) {
    w != "" && AllWord(c, w) && forall i :: 0 <= i < |w| ==> c.upper(w[i]) && !c.lower(w[i])
  }

  lemma OnePiece(c: Classes, w: string)
    requires w != "" && AllWord(c, w) && forall i :: 0 < i < |w| ==> Joined(c, w, i)
    ensures TokensOf(c, w) == if c.fold(w) == "" then [] else [c.fold(w)]
  {
    hide Joined;
    var pieces := [Piece(0, |w|)];
    assert IsPiece(c, w, pieces[0]);
    assert Covers(c, w, pieces, |w|);
    TokensOfPieces(c, w, pieces);
    assert pieces[..0] == [] && w[0..|w|] == w;
  }

  /** A word without a capital inside, and a word all in capitals, is one token. */
  lemma PlainWordIsOneToken(c: Classes, w: string)
    requires Capitalized(c, w) || AllUpper(c, w)
    ensures TokensOf(c, w) == if c.fold(w) == "" then [] else [c.fold(w)]
  {
    OnePiece(c, w);
  }

  lemma TwoPieces(c: Classes, v: string, w: string)
    requires v != "" && w != "" && AllWord(c, v + w) && !Joined(c, v + w, |v|)
    requires forall i :: 0 < i < |v + w| && i != |v| ==> Joined(c, v + w, i)
    ensures TokensOf(c, v + w) == (if c.fold(v) == "" then [] else [c.fold(v)]) + (if c.fold(w) == "" then [] else [c.fold(w)])
  {
    hide Joined;
    hide Tokens;
    var runes, p, q := v + w, Piece(0, |v|), Piece(|v|, |v| + |w|);
    var pieces := [p, q];
    assert IsPiece(c, runes, p) && IsPiece(c, runes, q);
    assert pieces[0] == p && pieces[1] == q;
    assert Covers(c, runes, pieces, |runes|);
    TokensOfPieces(c, runes, pieces);
    NothingYet(c, runes);
    TokensMore(c, runes, [], p);
    TokensMore(c, runes, [p], q);
    assert [] + [p] == [p] && [p] + [q] == pieces;
    assert runes[0..|v|] == v && runes[|v|..|v| + |w|] == w;
  }

  /** Camel case is cut in front of the capital, unless that is inside a product name. */
  lemma CamelCaseIsCut(c: Classes, v: string, w: string)
    requires Capitalized(c, v) && Capitalized(c, w) && c.lower(v[|v| - 1]) && c.upper(w[0])
    requires !(|v| >= 3 && v[|v| - 3..] == "Git" && |w| >= 3 && (w[..3] == "Hub" || w[..3] == "Lab"))
    ensures TokensOf(c, v + w) == (if c.fold(v) == "" then [] else [c.fold(v)]) + (if c.fold(w) == "" then [] else [c.fold(w)])
  {
    var runes, n := v + w, |v|;
    forall i | 0 <= i < |runes| ensures Word(c, runes[i]) { assert runes[i] == if i < n then v[i] else w[i - n]; }
    forall i | 0 < i < |runes| && i != n ensures Joined(c, runes, i) {
      assert runes[i] == if i < n then v[i] else w[i - n];
    }
    assert runes[n] == w[0] && runes[n - 1] == v[n - 1];
    NoProduct(v, w);
    TwoPieces(c, v, w);
  }

  lemma NoProduct(v: string, w: string)
    ensures InsideProduct(v + w, |v|) <==> |v| >= 3 && v[|v| - 3..] == "Git" && |w| >= 3 && (w[..3] == "Hub" || w[..3] == "Lab")
  {
    if |v| >= 3 && |w| >= 3 {
      var middle := (v + w)[|v| - 3..|v| + 3];
      assert middle == v[|v| - 3..] + w[..3];
      assert "GitHub" == "Git" + "Hub" && "GitLab" == "Git" + "Lab";
      assert middle[..3] == v[|v| - 3..] && middle[3..] == w[..3];
      assert "GitHub"[..3] == "Git" && "GitHub"[3..] == "Hub" && "GitLab"[..3] == "Git" && "GitLab"[3..] == "Lab";
    }
  }

  /** Capitals in front of a capitalized word are cut off from it. */
  lemma AcronymIsCut(c: Classes, v: string, w: string)
    requires AllUpper(c, v) && Capitalized(c, w) && |w| >= 2 && c.upper(w[0]) && !c.lower(w[0]) && c.lower(w[1])
    requires !(|v| >= 3 && v[|v| - 3..] == "Git")
    ensures TokensOf(c, v + w) == (if c.fold(v) == "" then [] else [c.fold(v)]) + (if c.fold(w) == "" then [] else [c.fold(w)])
  {
    var runes, n := v + w, |v|;
    forall i | 0 <= i < |runes| ensures Word(c, runes[i]) { assert runes[i] == if i < n then v[i] else w[i - n]; }
    forall i | 0 < i < |runes| && i != n ensures Joined(c, runes, i) {
      assert runes[i] == if i < n then v[i] else w[i - n];
      assert runes[i - 1] == if i - 1 < n then v[i - 1] else w[i - 1 - n];
      assert i + 1 < |runes| ==> runes[i + 1] == if i + 1 < n then v[i + 1] else w[i + 1 - n];
    }
    assert runes[n] == w[0] && runes[n - 1] == v[n - 1] && runes[n + 1] == w[1];
    NoProduct(v, w);
    TwoPieces(c, v, w);
  }

  /** "GitHub" and "GitLab" are one token, where "Git" and "Hub" by themselves would be two. */
  lemma ProductsStayWhole(c: Classes, tail: string)
    requires tail == "Hub" || tail == "Lab"
    requires Capitalized(c, "Git") && Capitalized(c, tail)
    ensures TokensOf(c, "Git" + tail) == if c.fold("Git" + tail) == "" then [] else [c.fold("Git" + tail)]
  {
    var runes := "Git" + tail;
    NoProduct("Git", tail);
    forall i | 0 <= i < 6 ensures Word(c, runes[i]) { assert runes[i] == if i < 3 then "Git"[i] else tail[i - 3]; }
    forall i | 0 < i < 6 ensures Joined(c, runes, i) { assert runes[i] == if i < 3 then "Git"[i] else tail[i - 3]; }
    OnePiece(c, runes);
  }

  // ---------- bytes ----------

  /** ASCII text has as many bytes as characters; other text more, up to four for each. */
  lemma {:induction false} SizeOfText(text: string)
    ensures |text| <= Size(text) <= 4 * |text|
    ensures Size(text) == |text| <==> forall i :: 0 <= i < |text| ==> text[i] < 0x80 as char
    decreases |text|
  {
    if text != "" {
      SizeOfText(text[1..]);
      assert forall i :: 0 < i < |text| ==> text[i] == text[1..][i - 1];
      if Size(text) == |text| { forall i | 0 <= i < |text| ensures text[i] < 0x80 as char { if i > 0 { assert text[1..][i - 1] < 0x80 as char; } } }
    }
  }
}
