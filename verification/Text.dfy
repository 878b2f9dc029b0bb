/** JavaScript string operations the services rely on: `trim` and code-unit order. */
module Text {
  import opened Seqs

  /** White space and line terminators removed by `String.prototype.trim`. */
  predicate IsSpace(c: char) {
    || c in {' ', '\t', '\n', '\r', '\U{000B}', '\U{000C}', '\U{00A0}', '\U{1680}'}
    || '\U{2000}' <= c <= '\U{200A}'
    || c in {'\U{2028}', '\U{2029}', '\U{202F}', '\U{205F}', '\U{3000}', '\U{FEFF}'}
  }

  /** By code point: the ASCII blanks, the Unicode spaces, the two separators and the byte order mark. */
  lemma SpaceCodePoints(c: char)
    ensures IsSpace(c) <==>
            (c as int) in {9, 10, 11, 12, 13, 32, 160, 5760, 8192, 8193, 8194, 8195, 8196, 8197, 8198, 8199, 8200, 8201, 8202,
                           8232, 8233, 8239, 8287, 12288, 65279}
  {
  }

  predicate Blank(s: string) {
    forall i | 0 <= i < |s| :: IsSpace(s[i])
  }

  function TrimStart(s: string): (r: string)
    ensures r == [] || !IsSpace(r[0])
  {
    if s != [] && IsSpace(s[0]) then TrimStart(s[1..]) else s
  }

  function TrimEnd(s: string): (r: string)
    ensures r <= s
    ensures r == [] || !IsSpace(r[|r| - 1])
  {
    if s != [] && IsSpace(s[|s| - 1]) then TrimEnd(s[..|s| - 1]) else s
  }

  function Trim(s: string): string {
    TrimEnd(TrimStart(s))
  }

  function Trimmed(ids: seq<string>): (r: seq<string>)
    ensures |r| == |ids|
  {
    seq(|ids|, i requires 0 <= i < |ids| => Trim(ids[i]))
  }

  lemma {:induction false} TrimStartPadded(left: string, s: string)
    requires Blank(left)
    ensures TrimStart(left + s) == TrimStart(s)
  {
    if left == [] {
      assert left + s == s;
    } else {
      assert (left + s)[1..] == left[1..] + s;
      assert IsSpace((left + s)[0]);
      TrimStartPadded(left[1..], s);
    }
  }

  lemma {:induction false} TrimEndPadded(s: string, right: string)
    requires Blank(right)
    ensures TrimEnd(s + right) == TrimEnd(s)
  {
    if right == [] {
      assert s + right == s;
    } else {
      var n := |right| - 1;
      assert (s + right)[..|s + right| - 1] == s + right[..n];
      assert (s + right)[|s + right| - 1] == right[n];
      TrimEndPadded(s, right[..n]);
    }
  }

  lemma {:induction false} TrimStartKeepsTail(s: string, right: string)
    requires Blank(right)
    ensures TrimEnd(TrimStart(s + right)) == TrimEnd(TrimStart(s))
  {
    if s == [] {
      assert s + right == right + [];
      TrimStartPadded(right, []);
    } else if IsSpace(s[0]) {
      assert (s + right)[1..] == s[1..] + right;
      TrimStartKeepsTail(s[1..], right);
    } else {
      assert (s + right)[0] == s[0];
      TrimEndPadded(s, right);
    }
  }

  /** Padding on either side is invisible after trimming. */
  lemma TrimPadded(left: string, s: string, right: string)
    requires Blank(left) && Blank(right)
    ensures Trim(left + s + right) == Trim(s)
  {
    TrimStartKeepsTail(left + s, right);
    TrimStartPadded(left, s);
  }

  /** A text trims to nothing exactly when it is blank. */
  lemma {:induction false} TrimEmptyIffBlank(s: string)
    ensures Trim(s) == [] <==> Blank(s)
  {
    if s == [] {
    } else {
      BlankTail(s);
      if IsSpace(s[0]) {
        TrimEmptyIffBlank(s[1..]);
      } else {
        KeptBySpaceFreeHead(s);
      }
    }
  }

  lemma BlankTail(s: string)
    requires s != []
    ensures Blank(s) <==> IsSpace(s[0]) && Blank(s[1..])
  {
    assert forall i | 0 < i < |s| :: s[i] == s[1..][i - 1];
  }

  lemma {:induction false} KeptBySpaceFreeHead(s: string)
    requires s != [] && !IsSpace(s[0])
    ensures TrimEnd(s) != []
  {
    if IsSpace(s[|s| - 1]) {
      KeptBySpaceFreeHead(s[..|s| - 1]);
    }
  }

  /** Trimming takes blanks off both ends and nothing else: the text is the trimmed one between blanks. */
  lemma TrimSplits(s: string) returns (left: string, right: string)
    ensures s == left + Trim(s) + right && Blank(left) && Blank(right)
    ensures Trim(s) != "" ==> !IsSpace(Trim(s)[0]) && !IsSpace(Trim(s)[|Trim(s)| - 1])
  {
    left := StartSplits(s);
    right := EndSplits(TrimStart(s));
    assert s == left + (Trim(s) + right);
  }

  lemma {:induction false} StartSplits(s: string) returns (left: string)
    ensures s == left + TrimStart(s) && Blank(left)
  {
    if s != [] && IsSpace(s[0]) {
      var rest := StartSplits(s[1..]);
      left := [s[0]] + rest;
    } else {
      left := [];
    }
  }

  lemma {:induction false} EndSplits(s: string) returns (right: string)
    ensures s == TrimEnd(s) + right && Blank(right)
  {
    if s != [] && IsSpace(s[|s| - 1]) {
      var rest := EndSplits(s[..|s| - 1]);
      right := rest + [s[|s| - 1]];
    } else {
      right := [];
    }
  }

  // ----- the order of `Array.prototype.sort` on strings

  predicate Leq(a: string, b: string) {
    a == [] || (b != [] && (a[0] < b[0] || (a[0] == b[0] && Leq(a[1..], b[1..]))))
  }

  /** Lexicographic by code unit: a prefix comes first, otherwise the first difference decides. */
  lemma {:induction false} LeqByFirstDifference(common: string, a: string, b: string)
    ensures Leq(common, common + a)
    ensures a != "" && b != "" && a[0] < b[0] ==> Leq(common + a, common + b) && !Leq(common + b, common + a)
  {
    if common == [] {
      assert common + a == a && common + b == b;
    } else {
      assert (common + a)[1..] == common[1..] + a && (common + b)[1..] == common[1..] + b;
      LeqByFirstDifference(common[1..], a, b);
    }
  }

  lemma {:induction false} LeqTotal(a: string, b: string)
    ensures Leq(a, b) || Leq(b, a)
  {
    if a != [] && b != [] && a[0] == b[0] {
      LeqTotal(a[1..], b[1..]);
    }
  }

  lemma {:induction false} LeqAntisymmetric(a: string, b: string)
    requires Leq(a, b) && Leq(b, a)
    ensures a == b
  {
    if a == [] {
    } else {
      LeqAntisymmetric(a[1..], b[1..]);
      assert a == [a[0]] + a[1..] && b == [b[0]] + b[1..];
    }
  }

  lemma {:induction false} LeqTransitive(a: string, b: string, c: string)
    requires Leq(a, b) && Leq(b, c)
    ensures Leq(a, c)
  {
    if a != [] && a[0] == b[0] && b[0] == c[0] {
      LeqTransitive(a[1..], b[1..], c[1..]);
    }
  }

  lemma LeqTotalOrder()
    ensures TotalOrder(Leq)
  {
    forall a: string, b: string ensures Leq(a, b) || Leq(b, a) {
      LeqTotal(a, b);
    }
    forall a: string, b: string, c: string | Leq(a, b) && Leq(b, c) ensures Leq(a, c) {
      LeqTransitive(a, b, c);
    }
  }
}
