/**
 * The two JavaScript string built-ins the application relies on:
 * `String.prototype.split` with a one-character separator, and
 * `String.prototype.trim`.
 */
module JsString {

  // ---------------------------------------------------------------------
  // split / join
  // ---------------------------------------------------------------------

  /** `s.split(sep)`: the pieces between separators, left to right.
      Like JavaScript, an empty string splits into one empty piece. */
  function Split(s: string, sep: char): (parts: seq<string>)
    ensures |parts| >= 1
    decreases |s|
  {
    if s == [] then [""]
    else
      var rest := Split(s[1..], sep);
      if s[0] == sep then [""] + rest
      else [[s[0]] + rest[0]] + rest[1..]
  }

  /** `parts.join(sep)`, the inverse of `Split`. */
  function Join(parts: seq<string>, sep: char): string
    requires |parts| >= 1
    decreases |parts|
  {
    if |parts| == 1 then parts[0]
    else parts[0] + [sep] + Join(parts[1..], sep)
  }

  /** No piece of a split contains the separator. */
  lemma {:induction false} SplitPiecesFree(s: string, sep: char)
    ensures forall k :: 0 <= k < |Split(s, sep)| ==> sep !in Split(s, sep)[k]
    decreases |s|
  {
    if s != [] {
      SplitPiecesFree(s[1..], sep);
      var rest := Split(s[1..], sep);
      if s[0] != sep {
        var parts := Split(s, sep);
        forall k | 0 <= k < |parts| ensures sep !in parts[k] {
          if k == 0 {
            assert parts[0] == [s[0]] + rest[0];
          } else {
            assert parts[k] == rest[k];
          }
        }
      }
    }
  }

  /** Joining the pieces of a split gives back the original string. */
  lemma {:induction false} JoinOfSplit(s: string, sep: char)
    ensures Join(Split(s, sep), sep) == s
    decreases |s|
  {
    if s != [] {
      JoinOfSplit(s[1..], sep);
      var rest := Split(s[1..], sep);
      if s[0] == sep {
        assert Split(s, sep)[1..] == rest;
      } else {
        var parts := Split(s, sep);
        if |rest| == 1 {
          assert parts == [[s[0]] + rest[0]];
        } else {
          assert parts[1..] == rest[1..];
          assert Join(rest, sep) == rest[0] + [sep] + Join(rest[1..], sep);
          assert Join(parts, sep) == [s[0]] + rest[0] + [sep] + Join(rest[1..], sep);
        }
      }
    }
  }

  /** A string without the separator splits into just itself. */
  lemma {:induction false} SplitWithoutSeparator(p: string, sep: char)
    requires sep !in p
    ensures Split(p, sep) == [p]
    decreases |p|
  {
    if p != [] {
      assert sep !in p[1..];
      SplitWithoutSeparator(p[1..], sep);
      assert [p[0]] + p[1..] == p;
    }
  }

  /** A separator-free prefix followed by the separator becomes the first piece. */
  lemma {:induction false} SplitAtFirstSeparator(p: string, t: string, sep: char)
    requires sep !in p
    ensures Split(p + [sep] + t, sep) == [p] + Split(t, sep)
    decreases |p|
  {
    var s := p + [sep] + t;
    if p == [] {
      assert s[1..] == t;
    } else {
      assert sep !in p[1..];
      assert s[1..] == p[1..] + [sep] + t;
      SplitAtFirstSeparator(p[1..], t, sep);
      assert [p[0]] + p[1..] == p;
    }
  }

  /** Splitting a join of separator-free pieces gives back the pieces. */
  lemma {:induction false} SplitOfJoin(parts: seq<string>, sep: char)
    requires |parts| >= 1
    requires forall k :: 0 <= k < |parts| ==> sep !in parts[k]
    ensures Split(Join(parts, sep), sep) == parts
    decreases |parts|
  {
    if |parts| == 1 {
      SplitWithoutSeparator(parts[0], sep);
    } else {
      assert forall k :: 0 <= k < |parts[1..]| ==> sep !in parts[1..][k] by {
        forall k | 0 <= k < |parts[1..]| ensures sep !in parts[1..][k] {
          assert parts[1..][k] == parts[k + 1];
        }
      }
      SplitOfJoin(parts[1..], sep);
      assert sep !in parts[0];
      SplitAtFirstSeparator(parts[0], Join(parts[1..], sep), sep);
    }
  }

  /** There are at least two pieces exactly when the separator occurs. */
  lemma {:induction false} SplitHasSecondPiece(s: string, sep: char)
    ensures |Split(s, sep)| >= 2 <==> sep in s
    decreases |s|
  {
    if s != [] {
      SplitHasSecondPiece(s[1..], sep);
      assert s == [s[0]] + s[1..];
      assert sep in s <==> s[0] == sep || sep in s[1..];
    }
  }

  /** The first piece is the longest separator-free prefix of the string. */
  lemma {:induction false} SplitFirstPiece(t: string, sep: char)
    ensures var h := Split(t, sep)[0];
      |h| <= |t| && h == t[..|h|] && sep !in h && (|h| == |t| || t[|h|] == sep)
    decreases |t|
  {
    if t != [] {
      SplitFirstPiece(t[1..], sep);
      SplitPiecesFree(t, sep);
    }
  }

  // ---------------------------------------------------------------------
  // trim
  // ---------------------------------------------------------------------

  /** The characters `trim` removes: ECMAScript WhiteSpace and LineTerminator. */
  predicate IsWhitespace(c: char)
  {
    || c == '\t' || c == '\n' || c == '\U{B}' || c == '\U{C}' || c == '\r' || c == ' '
    || c == '\U{A0}' || c == '\U{1680}' || ('\U{2000}' <= c <= '\U{200A}')
    || c == '\U{2028}' || c == '\U{2029}' || c == '\U{202F}' || c == '\U{205F}'
    || c == '\U{3000}' || c == '\U{FEFF}'
  }

  predicate AllWhitespace(s: string)
  {
    forall i :: 0 <= i < |s| ==> IsWhitespace(s[i])
  }

  /** The index of the first non-whitespace character at or after `i`. */
  function LeadingEnd(s: string, i: nat): (j: nat)
    requires i <= |s|
    ensures i <= j <= |s|
    ensures forall k :: i <= k < j ==> IsWhitespace(s[k])
    ensures j < |s| ==> !IsWhitespace(s[j])
    decreases |s| - i
  {
    if i < |s| && IsWhitespace(s[i]) then LeadingEnd(s, i + 1) else i
  }

  /** The index just after the last non-whitespace character before `j`. */
  function TrailingStart(s: string, j: nat): (i: nat)
    requires j <= |s|
    ensures i <= j
    ensures forall k :: i <= k < j ==> IsWhitespace(s[k])
    ensures i > 0 ==> !IsWhitespace(s[i - 1])
    decreases j
  {
    if j > 0 && IsWhitespace(s[j - 1]) then TrailingStart(s, j - 1) else j
  }

  /** Drops leading whitespace: the result is a suffix, what was dropped is
      whitespace, and the result does not start with whitespace. */
  function TrimStart(s: string): (r: string)
    ensures |r| <= |s| && r == s[|s| - |r|..]
    ensures AllWhitespace(s[..|s| - |r|])
    ensures r != [] ==> !IsWhitespace(r[0])
  {
    var i := LeadingEnd(s, 0);
    assert forall k :: 0 <= k < i ==> s[..i][k] == s[k];
    s[i..]
  }

  /** Drops trailing whitespace: the result is a prefix, what was dropped is
      whitespace, and the result does not end with whitespace. */
  function TrimEnd(s: string): (r: string)
    ensures |r| <= |s| && r == s[..|r|]
    ensures AllWhitespace(s[|r|..])
    ensures r != [] ==> !IsWhitespace(r[|r| - 1])
  {
    var j := TrailingStart(s, |s|);
    assert forall k :: 0 <= k < |s| - j ==> s[j..][k] == s[j + k];
    s[..j]
  }

  /** `s.trim()`: the text between a whitespace prefix and a whitespace
      suffix, starting and ending with non-whitespace. */
  function Trim(s: string): (r: string)
    ensures r != [] ==> !IsWhitespace(r[0]) && !IsWhitespace(r[|r| - 1])
    ensures var i := |s| - |TrimStart(s)|;
      && i + |r| <= |s| && r == s[i..i + |r|]
      && AllWhitespace(s[..i]) && AllWhitespace(s[i + |r|..])
  {
    var t := TrimStart(s);
    var r := TrimEnd(t);
    TrimIsInnerSlice(s, t, r);
    r
  }

  /** Dropping a whitespace prefix and then a whitespace suffix leaves a slice. */
  lemma TrimIsInnerSlice(s: string, t: string, r: string)
    requires |t| <= |s| && t == s[|s| - |t|..] && AllWhitespace(s[..|s| - |t|])
    requires |r| <= |t| && r == t[..|r|] && AllWhitespace(t[|r|..])
    requires t != [] ==> !IsWhitespace(t[0])
    requires r != [] ==> !IsWhitespace(r[|r| - 1])
    ensures r != [] ==> !IsWhitespace(r[0]) && !IsWhitespace(r[|r| - 1])
    ensures var i := |s| - |t|;
      && i + |r| <= |s| && r == s[i..i + |r|]
      && AllWhitespace(s[..i]) && AllWhitespace(s[i + |r|..])
  {
    var i := |s| - |t|;
    if r != [] {
      assert r[0] == t[0];
    }
    assert s[i..][..|r|] == s[i..i + |r|];
    assert s[i + |r|..] == t[|r|..];
  }

  lemma {:induction false} LeadingEndShift(w: string, t: string, k: nat)
    requires k <= |t|
    ensures LeadingEnd(w + t, |w| + k) == |w| + LeadingEnd(t, k)
    decreases |t| - k
  {
    if k < |t| {
      assert (w + t)[|w| + k] == t[k];
      if IsWhitespace(t[k]) {
        LeadingEndShift(w, t, k + 1);
      }
    }
  }

  lemma {:induction false} LeadingEndOverWhitespace(w: string, t: string, i: nat)
    requires i <= |w| && AllWhitespace(w)
    ensures LeadingEnd(w + t, i) == |w| + LeadingEnd(t, 0)
    decreases |w| - i
  {
    if i < |w| {
      assert (w + t)[i] == w[i];
      LeadingEndOverWhitespace(w, t, i + 1);
    } else {
      LeadingEndShift(w, t, 0);
    }
  }

  lemma TrimStartSkipsWhitespace(w: string, t: string)
    requires AllWhitespace(w)
    ensures TrimStart(w + t) == TrimStart(t)
  {
    LeadingEndOverWhitespace(w, t, 0);
    var n := LeadingEnd(t, 0);
    assert (w + t)[|w| + n..] == t[n..];
  }

  lemma {:induction false} TrailingStartOfPrefix(t: string, w: string, j: nat)
    requires j <= |t|
    ensures TrailingStart(t + w, j) == TrailingStart(t, j)
    decreases j
  {
    if j > 0 {
      assert (t + w)[j - 1] == t[j - 1];
      TrailingStartOfPrefix(t, w, j - 1);
    }
  }

  lemma {:induction false} TrailingStartOverWhitespace(t: string, w: string, k: nat)
    requires k <= |w| && AllWhitespace(w)
    ensures TrailingStart(t + w, |t| + k) == TrailingStart(t, |t|)
    decreases k
  {
    if k > 0 {
      assert (t + w)[|t| + k - 1] == w[k - 1];
      TrailingStartOverWhitespace(t, w, k - 1);
    } else {
      TrailingStartOfPrefix(t, w, |t|);
    }
  }

  lemma TrimEndSkipsWhitespace(t: string, w: string)
    requires AllWhitespace(w)
    ensures TrimEnd(t + w) == TrimEnd(t)
  {
    TrailingStartOverWhitespace(t, w, |w|);
    var j := TrailingStart(t, |t|);
    assert (t + w)[..j] == t[..j];
  }

  lemma {:induction false} TrimIgnoresTrailingWhitespace(t: string, w: string)
    requires AllWhitespace(w)
    ensures Trim(t + w) == Trim(t)
    decreases |t|
  {
    if t == [] {
      assert t + w == w + [];
      TrimStartSkipsWhitespace(w, []);
    } else if IsWhitespace(t[0]) {
      assert t == [t[0]] + t[1..];
      assert t + w == [t[0]] + (t[1..] + w);
      TrimStartSkipsWhitespace([t[0]], t[1..] + w);
      TrimStartSkipsWhitespace([t[0]], t[1..]);
      TrimIgnoresTrailingWhitespace(t[1..], w);
    } else {
      assert (t + w)[0] == t[0];
      assert TrimStart(t + w) == t + w;
      assert TrimStart(t) == t;
      TrimEndSkipsWhitespace(t, w);
    }
  }

  /** Whitespace around a string does not change what `trim` returns. */
  lemma TrimIgnoresSurroundingWhitespace(w1: string, t: string, w2: string)
    requires AllWhitespace(w1) && AllWhitespace(w2)
    ensures Trim(w1 + t + w2) == Trim(t)
  {
    assert w1 + t + w2 == w1 + (t + w2);
    TrimStartSkipsWhitespace(w1, t + w2);
    assert Trim(w1 + t + w2) == Trim(t + w2);
    TrimIgnoresTrailingWhitespace(t, w2);
  }

  /** Trimming twice is trimming once. */
  lemma TrimIdempotent(s: string)
    ensures Trim(Trim(s)) == Trim(s)
  {
  }
}
