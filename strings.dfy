/** The two Python string operations the referee step uses, `str.strip()`
    and `str.split(": ")`, with the properties that pin them down. */
module Strings {

  /** `str.isspace()` for one character. */
  predicate IsSpace(c: char)
  {
    || c == ' ' || c == '\t' || c == '\n' || c == '\r'
    || c == '\U{B}' || c == '\U{C}'
    || ('\U{1C}' <= c <= '\U{1F}')
    || c == '\U{85}' || c == '\U{A0}' || c == '\U{1680}'
    || ('\U{2000}' <= c <= '\U{200A}')
    || c == '\U{2028}' || c == '\U{2029}' || c == '\U{202F}' || c == '\U{205F}'
    || c == '\U{3000}'
  }

  function TrimStart(s: string): (t: string)
    ensures |t| <= |s| && t == s[|s| - |t|..]
    ensures forall k :: 0 <= k < |s| - |t| ==> IsSpace(s[k])
    ensures t == [] || !IsSpace(t[0])
  {
    if |s| > 0 && IsSpace(s[0]) then TrimStart(s[1..]) else s
  }

  function TrimEnd(s: string): (t: string)
    ensures |t| <= |s| && t == s[..|t|]
    ensures forall k :: |t| <= k < |s| ==> IsSpace(s[k])
    ensures t == [] || !IsSpace(t[|t| - 1])
  {
    if |s| > 0 && IsSpace(s[|s| - 1]) then TrimEnd(s[..|s| - 1]) else s
  }

  /** `str.strip()`: `s` without its leading and trailing whitespace. */
  function Strip(s: string): (t: string)
    ensures t == [] || (!IsSpace(t[0]) && !IsSpace(t[|t| - 1]))
    ensures exists i :: (
      && 0 <= i <= |s| - |t| && t == s[i..][..|t|]
      && (forall k :: 0 <= k < i ==> IsSpace(s[k]))
      && (forall k :: i + |t| <= k < |s| ==> IsSpace(s[k])))
  {
    var u := TrimStart(s);
    var t := TrimEnd(u);
    var i := |s| - |u|;
    assert t == s[i..][..|t|];
    t
  }

  /** Stripping twice strips nothing more. */
  lemma StripIdempotent(s: string)
    ensures Strip(Strip(s)) == Strip(s)
  {
  }

  /** Whether `": "` starts at position `k` of `s`. */
  predicate SeparatorAt(s: string, k: int)
  {
    0 <= k && k + 1 < |s| && s[k] == ':' && s[k + 1] == ' '
  }

  predicate HasSeparator(s: string)
  {
    exists k :: 0 <= k < |s| && SeparatorAt(s, k)
  }

  /** `s.split(": ")`: the pieces between the non-overlapping occurrences of
      `": "`, scanned from the left. */
  function Split(s: string): (pieces: seq<string>)
    ensures |pieces| >= 1
  {
    if |s| < 2 then [s]
    else if SeparatorAt(s, 0) then [""] + Split(s[2..])
    else
      var rest := Split(s[1..]);
      [[s[0]] + rest[0]] + rest[1..]
  }

  /** `": ".join(pieces)`. */
  function Join(pieces: seq<string>): string
    requires |pieces| >= 1
  {
    if |pieces| == 1 then pieces[0] else pieces[0] + ": " + Join(pieces[1..])
  }

  /** Joining the pieces gives back the text that was split. */
  lemma {:induction false} JoinSplit(s: string)
    ensures Join(Split(s)) == s
  {
    if |s| < 2 {
    } else if SeparatorAt(s, 0) {
      var rest := Split(s[2..]);
      JoinSplit(s[2..]);
      assert ([""] + rest)[1..] == rest;
      assert s == ": " + s[2..];
    } else {
      JoinSplit(s[1..]);
      JoinConsChar(s[0], Split(s[1..]));
      assert s == [s[0]] + s[1..];
    }
  }

  /** A character put in front of the first piece is put in front of the
      join. */
  lemma JoinConsChar(c: char, pieces: seq<string>)
    requires |pieces| >= 1
    ensures Join([[c] + pieces[0]] + pieces[1..]) == [c] + Join(pieces)
  {
    var longer := [[c] + pieces[0]] + pieces[1..];
    if |pieces| == 1 {
      assert longer == [[c] + pieces[0]];
    } else {
      var more := Join(pieces[1..]);
      assert longer[0] == [c] + pieces[0] && longer[1..] == pieces[1..];
      assert Join(longer) == ([c] + pieces[0]) + ": " + more;
      assert Join(pieces) == pieces[0] + ": " + more;
      ConsRegroups(c, pieces[0], more);
    }
  }

  lemma ConsRegroups(c: char, p: string, more: string)
    ensures ([c] + p) + ": " + more == [c] + (p + ": " + more)
  {
  }

  /** No piece contains the separator. */
  lemma {:induction false} PiecesHaveNoSeparator(s: string)
    ensures forall p :: p in Split(s) ==> !HasSeparator(p)
  {
    if |s| < 2 {
      assert forall k :: !SeparatorAt(s, k);
    } else if SeparatorAt(s, 0) {
      PiecesHaveNoSeparator(s[2..]);
    } else {
      var rest := Split(s[1..]);
      PiecesHaveNoSeparator(s[1..]);
      var first := [s[0]] + rest[0];
      assert !HasSeparator(rest[0]) by { assert rest[0] in rest; }
      forall k | SeparatorAt(first, k)
        ensures false
      {
        if k == 0 {
          if |rest[0]| == 0 {
          } else {
            FirstPieceOpens(s[1..]);
          }
        } else {
          assert SeparatorAt(rest[0], k - 1);
        }
      }
      forall p | p in Split(s)
        ensures !HasSeparator(p)
      {
        if p != first {
          assert p in rest[1..];
          assert p in rest;
        }
      }
    }
  }

  /** The first piece of `s`, when `s` has more after it, is followed there by
      `": "`; so if `s` starts with a space its first piece does too, or is
      empty. */
  lemma {:induction false} FirstPieceOpens(s: string)
    requires |Split(s)[0]| > 0
    ensures Split(s)[0][0] == s[0]
  {
  }

  /** A text without the separator is one piece. */
  lemma {:induction false} SplitWhole(p: string)
    requires !HasSeparator(p)
    ensures Split(p) == [p]
  {
    if |p| >= 2 {
      assert !SeparatorAt(p, 0);
      assert !HasSeparator(p[1..]) by {
        forall k | 0 <= k < |p| - 1 && SeparatorAt(p[1..], k)
          ensures false
        {
          assert SeparatorAt(p, k + 1);
        }
      }
      SplitWhole(p[1..]);
      assert [p[0]] + p[1..] == p;
    }
  }

  /** A separator-free piece, the separator, then more: the piece comes off
      first. */
  lemma {:induction false} SplitFront(p: string, rest: string)
    requires !HasSeparator(p)
    ensures Split(p + ": " + rest) == [p] + Split(rest)
  {
    var s := p + ": " + rest;
    if p == [] {
      assert SeparatorAt(s, 0);
      assert s[2..] == rest;
    } else {
      assert !SeparatorAt(s, 0) by {
        if |p| >= 2 {
          assert !SeparatorAt(p, 0);
        }
      }
      assert !HasSeparator(p[1..]) by {
        forall k | 0 <= k < |p| - 1 && SeparatorAt(p[1..], k)
          ensures false
        {
          assert SeparatorAt(p, k + 1);
        }
      }
      SplitFront(p[1..], rest);
      assert s[1..] == p[1..] + ": " + rest;
      assert [s[0]] + p[1..] == p;
    }
  }

  /** Splitting a join of separator-free pieces gives the pieces back. */
  lemma {:induction false} SplitJoin(pieces: seq<string>)
    requires |pieces| >= 1
    requires forall p :: p in pieces ==> !HasSeparator(p)
    ensures Split(Join(pieces)) == pieces
  {
    if |pieces| == 1 {
      assert pieces[0] in pieces;
      SplitWhole(pieces[0]);
    } else {
      assert pieces[0] in pieces;
      assert forall p :: p in pieces[1..] ==> p in pieces;
      SplitJoin(pieces[1..]);
      SplitFront(pieces[0], Join(pieces[1..]));
      assert pieces == [pieces[0]] + pieces[1..];
    }
  }

  /** The last piece: the text after the last `": "`, or all of `s`. */
  function LastPiece(s: string): (r: string)
  {
    var pieces := Split(s);
    pieces[|pieces| - 1]
  }

  /** `r` is the text after the last `": "` of `s`: a suffix of `s` that
      holds no separator and is either all of `s` or preceded by `": "`. */
  predicate AfterLastSeparator(s: string, r: string)
  {
    && |r| <= |s| && r == s[|s| - |r|..]
    && !HasSeparator(r)
    && (|r| == |s| || SeparatorAt(s, |s| - |r| - 2))
  }

  /** At most one text is after the last separator. */
  lemma AfterLastSeparatorUnique(s: string, r1: string, r2: string)
    requires AfterLastSeparator(s, r1) && AfterLastSeparator(s, r2)
    ensures r1 == r2
  {
    if |r1| < |r2| {
      NoLongerCandidate(s, r1, r2);
    } else if |r2| < |r1| {
      NoLongerCandidate(s, r2, r1);
    }
  }

  /** A candidate cannot be longer than another: the separator before the
      shorter one would lie inside the longer one, or overlap the separator
      before it. */
  lemma NoLongerCandidate(s: string, r: string, other: string)
    requires AfterLastSeparator(s, r) && AfterLastSeparator(s, other)
    ensures |other| <= |r|
  {
    var p := |s| - |r| - 2;
    var start := |s| - |other|;
    assert !SeparatorAt(other, p - start);
  }

  /** The last piece of the split is the text after the last separator. */
  lemma {:induction false} LastPieceIsAfterLastSeparator(s: string)
    ensures AfterLastSeparator(s, LastPiece(s))
  {
    PiecesHaveNoSeparator(s);
    var pieces := Split(s);
    assert pieces[|pieces| - 1] in pieces;
    LastPieceSuffix(s);
  }

  lemma LastPieceSuffix(s: string)
    ensures var r := LastPiece(s);
      && |r| <= |s| && r == s[|s| - |r|..]
      && (|Split(s)| == 1 ==> r == s)
      && (|Split(s)| > 1 ==> SeparatorAt(s, |s| - |r| - 2))
  {
    var pieces := Split(s);
    var r := LastPiece(s);
    JoinSplit(s);
    if |pieces| > 1 {
      var front := Join(pieces[..|pieces| - 1]);
      JoinLast(pieces);
      assert s == front + ": " + r;
      assert s[|front|] == ':' && s[|front| + 1] == ' ';
      assert s[|s| - |r|..] == r;
    }
  }

  /** The last piece of a join follows the last separator. */
  lemma {:induction false} JoinLast(pieces: seq<string>)
    requires |pieces| >= 2
    ensures Join(pieces) == Join(pieces[..|pieces| - 1]) + ": " + pieces[|pieces| - 1]
  {
    if |pieces| > 2 {
      var tail := pieces[1..];
      JoinLast(tail);
      assert tail[..|tail| - 1] == pieces[..|pieces| - 1][1..];
    }
  }

  /** The last piece ends with the text's last character. */
  lemma LastPieceEndsAsText(t: string)
    ensures AfterLastSeparator(t, LastPiece(t))
    ensures LastPiece(t) != [] ==> LastPiece(t)[|LastPiece(t)| - 1] == t[|t| - 1]
  {
    LastPieceIsAfterLastSeparator(t);
  }
}
