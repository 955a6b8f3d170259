/** The string handling the export pass applies to a query's text: PHP's
    trim(), preg_replace('/\s+/', ' ', ...), strtoupper() and the
    case-insensitive search for a DML keyword. */
module Text {

  /** The characters trim() strips by default: space, tab, line feed,
      carriage return, NUL and vertical tab. */
  predicate IsTrimChar(c: char)
  {
    c == ' ' || c == '\t' || c == '\n' || c == '\r' || c == '\0' || c == '\U{0B}'
  }

  /** The characters PCRE's \s matches: space, tab, line feed, vertical tab,
      form feed and carriage return. Unlike trim(), form feed is included
      and NUL is not. */
  predicate IsSpace(c: char)
  {
    c == ' ' || c == '\t' || c == '\n' || c == '\U{0B}' || c == '\U{0C}' || c == '\r'
  }

  /** No two neighbouring characters both match \s. */
  predicate NoAdjacentSpaces(s: string)
  {
    forall i :: 0 <= i < |s| - 1 ==> !(IsSpace(s[i]) && IsSpace(s[i + 1]))
  }

  predicate IsAsciiLower(c: char)
  {
    'a' <= c <= 'z'
  }

  /** No ASCII lower-case letter occurs. */
  predicate IsUpperCased(s: string)
  {
    forall i :: 0 <= i < |s| ==> !IsAsciiLower(s[i])
  }

  /** The end of the run of trim characters that starts at `i`. */
  function TrimStart(s: string, i: nat): (k: nat)
    requires i <= |s|
    ensures i <= k <= |s|
    ensures forall j :: i <= j < k ==> IsTrimChar(s[j])
    ensures k < |s| ==> !IsTrimChar(s[k])
    decreases |s| - i
  {
    if i < |s| && IsTrimChar(s[i]) then TrimStart(s, i + 1) else i
  }

  /** The start of the run of trim characters that ends at `j`, not going
      below `lo`. */
  function TrimEnd(s: string, lo: nat, j: nat): (k: nat)
    requires lo <= j <= |s|
    ensures lo <= k <= j
    ensures forall m :: k <= m < j ==> IsTrimChar(s[m])
    ensures k > lo ==> !IsTrimChar(s[k - 1])
    decreases j - lo
  {
    if j > lo && IsTrimChar(s[j - 1]) then TrimEnd(s, lo, j - 1) else j
  }

  /** `r` sits at position `i` of `s`, with only trim characters around it. */
  predicate IsTrimmedSlice(s: string, i: nat, r: string)
  {
    && i + |r| <= |s|
    && r == s[i..i + |r|]
    && (forall k :: 0 <= k < i ==> IsTrimChar(s[k]))
    && (forall k :: i + |r| <= k < |s| ==> IsTrimChar(s[k]))
  }

  /** trim(): the slice of `s` left once the trim characters at both ends
      are stripped. */
  function Trim(s: string): (r: string)
    ensures r == [] || (!IsTrimChar(r[0]) && !IsTrimChar(r[|r| - 1]))
    ensures exists i :: 0 <= i <= |s| - |r| && IsTrimmedSlice(s, i, r)
  {
    var i := TrimStart(s, 0);
    var j := TrimEnd(s, i, |s|);
    assert IsTrimmedSlice(s, i, s[i..j]);
    s[i..j]
  }

  /** A string with no trim character at either end is left as it is, so
      trimming twice is trimming once. */
  lemma TrimFixesTrimmed(s: string)
    requires s == [] || (!IsTrimChar(s[0]) && !IsTrimChar(s[|s| - 1]))
    ensures Trim(s) == s
  {
    assert TrimStart(s, 0) == 0;
    assert TrimEnd(s, 0, |s|) == |s|;
  }

  lemma TrimIdempotent(s: string)
    ensures Trim(Trim(s)) == Trim(s)
  {
    TrimFixesTrimmed(Trim(s));
  }

  /** `s` from its first character that does not match \s. */
  function DropSpaces(s: string): (r: string)
    ensures |r| <= |s|
    ensures r == [] || !IsSpace(r[0])
  {
    if s != [] && IsSpace(s[0]) then DropSpaces(s[1..]) else s
  }

  /** preg_replace('/\s+/', ' ', s): every maximal run of \s characters
      becomes one space. */
  function Collapse(s: string): (r: string)
    decreases |s|
    ensures NoAdjacentSpaces(r)
    ensures |r| <= |s|
    ensures r == [] <==> s == []
    ensures r != [] ==> (IsSpace(r[0]) <==> IsSpace(s[0]))
  {
    if s == [] then []
    else if IsSpace(s[0]) then [' '] + Collapse(DropSpaces(s[1..]))
    else [s[0]] + Collapse(s[1..])
  }

  /** Dropping a run of \s characters stops at the first other character. */
  lemma {:induction false} DropSpacesSkip(w: string, y: string)
    requires forall i :: 0 <= i < |w| ==> IsSpace(w[i])
    requires y == [] || !IsSpace(y[0])
    ensures DropSpaces(w + y) == y
  {
    if w == [] {
      assert w + y == y;
    } else {
      assert (w + y)[1..] == w[1..] + y;
      DropSpacesSkip(w[1..], y);
    }
  }

  /** A string that ends in a non-space keeps that end when its leading
      whitespace is dropped, and dropping stops inside it. */
  lemma {:induction false} DropSpacesAppend(a: string, b: string)
    requires a != [] && !IsSpace(a[|a| - 1])
    ensures DropSpaces(a) != [] && DropSpaces(a)[|DropSpaces(a)| - 1] == a[|a| - 1]
    ensures DropSpaces(a + b) == DropSpaces(a) + b
  {
    if IsSpace(a[0]) {
      assert (a + b)[1..] == a[1..] + b;
      DropSpacesAppend(a[1..], b);
    }
  }

  lemma ConcatAssoc(a: string, b: string, c: string, d: string)
    ensures a + (b + c + d) == a + b + c + d
  {
  }

  lemma ConcatAssoc3(a: string, b: string, c: string)
    ensures a + (b + c) == a + b + c
  {
  }

  lemma CollapseSpaceHead(s: string)
    requires s != [] && IsSpace(s[0])
    ensures Collapse(s) == " " + Collapse(DropSpaces(s[1..]))
  {
  }

  lemma ConcatTail(x: string, w: string, y: string)
    requires x != []
    ensures (x + w + y)[0] == x[0]
    ensures (x + w + y)[1..] == x[1..] + w + y == x[1..] + (w + y)
  {
  }

  /** A run of \s characters at the very start becomes one space. */
  lemma CollapseLeadingRun(w: string, y: string)
    requires w != [] && forall i :: 0 <= i < |w| ==> IsSpace(w[i])
    requires y == [] || !IsSpace(y[0])
    ensures Collapse(w + y) == " " + Collapse(y)
  {
    var t := w + y;
    assert t[0] == w[0];
    assert t[1..] == w[1..] + y;
    DropSpacesSkip(w[1..], y);
  }

  /** The step of `CollapseRun` past leading whitespace of `x`. */
  lemma CollapseRunSpaceStep(x: string, w: string, y: string)
    requires x != [] && IsSpace(x[0]) && !IsSpace(x[|x| - 1])
    requires Collapse(DropSpaces(x[1..]) + w + y) == Collapse(DropSpaces(x[1..])) + " " + Collapse(y)
    ensures Collapse(x + w + y) == Collapse(x) + " " + Collapse(y)
  {
    var d := DropSpaces(x[1..]);
    ConcatTail(x, w, y);
    assert |x| >= 2 && x[1..][|x| - 2] == x[|x| - 1];
    DropSpacesAppend(x[1..], w + y);
    ConcatAssoc3(d, w, y);
    CollapseSpaceHead(x + w + y);
    CollapseSpaceHead(x);
    ConcatAssoc(" ", Collapse(d), " ", Collapse(y));
  }

  /** The step of `CollapseRun` past a first character of `x` that is not \s. */
  lemma CollapseRunCharStep(x: string, w: string, y: string)
    requires x != [] && !IsSpace(x[0])
    requires Collapse(x[1..] + w + y) == Collapse(x[1..]) + " " + Collapse(y)
    ensures Collapse(x + w + y) == Collapse(x) + " " + Collapse(y)
  {
    ConcatTail(x, w, y);
    ConcatAssoc([x[0]], Collapse(x[1..]), " ", Collapse(y));
  }

  /** preg_replace('/\s+/', ' ', ...) replaces each maximal run of \s
      characters by exactly one space: a run `w` between a part that does not
      end in \s and a part that does not start with \s becomes " ", and the
      parts on either side are treated on their own. */
  lemma {:induction false} CollapseRun(x: string, w: string, y: string)
    requires w != [] && forall i :: 0 <= i < |w| ==> IsSpace(w[i])
    requires x == [] || !IsSpace(x[|x| - 1])
    requires y == [] || !IsSpace(y[0])
    ensures Collapse(x + w + y) == Collapse(x) + " " + Collapse(y)
    decreases |x|
  {
    if x == [] {
      assert x + w + y == w + y;
      CollapseLeadingRun(w, y);
    } else if IsSpace(x[0]) {
      assert |x| >= 2 && x[1..][|x| - 2] == x[|x| - 1];
      DropSpacesAppend(x[1..], []);
      CollapseRun(DropSpaces(x[1..]), w, y);
      CollapseRunSpaceStep(x, w, y);
    } else {
      CollapseRun(x[1..], w, y);
      CollapseRunCharStep(x, w, y);
    }
  }

  /** Text with no \s character at all is left as it is. */
  lemma CollapseNoSpace(s: string)
    requires forall i :: 0 <= i < |s| ==> !IsSpace(s[i])
    ensures Collapse(s) == s
  {
    CollapseFixesCollapsed(s);
  }

  /** The characters of `s` that do not match \s, in order. */
  function NonSpace(s: string): string
  {
    if s == [] then [] else (if IsSpace(s[0]) then [] else [s[0]]) + NonSpace(s[1..])
  }

  lemma {:induction false} NonSpaceAppend(a: string, b: string)
    ensures NonSpace(a + b) == NonSpace(a) + NonSpace(b)
  {
    if a == [] {
      assert a + b == b;
    } else {
      assert (a + b)[1..] == a[1..] + b;
      NonSpaceAppend(a[1..], b);
    }
  }

  lemma {:induction false} DropSpacesKeepsNonSpace(s: string)
    ensures NonSpace(DropSpaces(s)) == NonSpace(s)
  {
    if s != [] && IsSpace(s[0]) {
      DropSpacesKeepsNonSpace(s[1..]);
    }
  }

  /** Collapsing whitespace changes only whitespace: every other character
      survives, in order. */
  lemma {:induction false} CollapseKeepsNonSpace(s: string)
    ensures NonSpace(Collapse(s)) == NonSpace(s)
    decreases |s|
  {
    if s != [] {
      if IsSpace(s[0]) {
        var d := DropSpaces(s[1..]);
        CollapseKeepsNonSpace(d);
        DropSpacesKeepsNonSpace(s[1..]);
        NonSpaceAppend([' '], Collapse(d));
      } else {
        CollapseKeepsNonSpace(s[1..]);
        NonSpaceAppend([s[0]], Collapse(s[1..]));
      }
    }
  }

  /** A string whose only whitespace is single spaces is left as it is, so
      collapsing twice is collapsing once. */
  lemma {:induction false} CollapseFixesCollapsed(s: string)
    requires NoAdjacentSpaces(s)
    requires forall i :: 0 <= i < |s| && IsSpace(s[i]) ==> s[i] == ' '
    ensures Collapse(s) == s
  {
    if s != [] {
      if IsSpace(s[0]) {
        assert DropSpaces(s[1..]) == s[1..];
      }
      CollapseFixesCollapsed(s[1..]);
    }
  }

  lemma {:induction false} CollapseOnlySingleSpaces(s: string)
    ensures forall i :: 0 <= i < |Collapse(s)| && IsSpace(Collapse(s)[i]) ==> Collapse(s)[i] == ' '
    decreases |s|
  {
    if s != [] {
      if IsSpace(s[0]) {
        CollapseOnlySingleSpaces(DropSpaces(s[1..]));
      } else {
        CollapseOnlySingleSpaces(s[1..]);
      }
    }
  }

  lemma CollapseIdempotent(s: string)
    ensures Collapse(Collapse(s)) == Collapse(s)
  {
    CollapseOnlySingleSpaces(s);
    CollapseFixesCollapsed(Collapse(s));
  }

  /** strtoupper() on one byte: ASCII a-z to A-Z, everything else kept. */
  function UpperChar(c: char): char
  {
    if IsAsciiLower(c) then (c as int - 32) as char else c
  }

  /** strtoupper(): ASCII letters upper-cased, every other character kept. */
  function Upper(s: string): (r: string)
    ensures |r| == |s| && IsUpperCased(r)
    ensures forall i :: 0 <= i < |s| ==>
      (if IsAsciiLower(s[i]) then r[i] as int == s[i] as int - 32 else r[i] == s[i])
  {
    seq(|s|, i requires 0 <= i < |s| => UpperChar(s[i]))
  }

  /** Upper-casing never touches whitespace, so it keeps `NoAdjacentSpaces`. */
  lemma UpperKeepsSpacing(s: string)
    requires NoAdjacentSpaces(s)
    ensures NoAdjacentSpaces(Upper(s))
  {
    var u := Upper(s);
    forall i | 0 <= i < |u| ensures IsSpace(u[i]) <==> IsSpace(s[i]) {
    }
  }

  /** Text without lower-case ASCII letters is its own upper-casing. */
  lemma UpperFixesUpperCased(s: string)
    requires IsUpperCased(s)
    ensures Upper(s) == s
  {
  }

  lemma UpperIdempotent(s: string)
    ensures Upper(Upper(s)) == Upper(s)
  {
  }

  /** The table title of a query: trimmed, whitespace runs collapsed. */
  function Normalize(s: string): (r: string)
    ensures NoAdjacentSpaces(r)
    ensures forall i :: 0 <= i < |r| && IsSpace(r[i]) ==> r[i] == ' '
    ensures NonSpace(r) == NonSpace(Trim(s))
  {
    CollapseOnlySingleSpaces(Trim(s));
    CollapseKeepsNonSpace(Trim(s));
    Collapse(Trim(s))
  }

  /** Text already in canonical form (no trim characters at the ends, only
      single spaces between words, no lower-case letters) is its own title. */
  lemma CanonicalIsOwnTitle(s: string)
    requires s == [] || (!IsTrimChar(s[0]) && !IsTrimChar(s[|s| - 1]))
    requires NoAdjacentSpaces(s)
    requires forall i :: 0 <= i < |s| && IsSpace(s[i]) ==> s[i] == ' '
    requires IsUpperCased(s)
    ensures Upper(Normalize(s)) == s
  {
    TrimFixesTrimmed(s);
    CollapseFixesCollapsed(s);
    UpperFixesUpperCased(s);
  }

  /** The keywords /(SELECT|UPDATE|DELETE|INSERT)/i looks for. */
  const DmlKeywords: seq<string> := ["SELECT", "UPDATE", "DELETE", "INSERT"]

  /** Keyword `w` occurs at position `i` of `s`, in any case. */
  predicate KeywordAt(s: string, i: nat, w: nat)
    requires w < |DmlKeywords|
  {
    i + |DmlKeywords[w]| <= |s| && Upper(s[i..i + |DmlKeywords[w]|]) == DmlKeywords[w]
  }

  /** Some DML keyword occurs somewhere in `s`, in any case. */
  ghost predicate MentionsDml(s: string)
  {
    exists i: nat, w: nat :: i <= |s| && w < |DmlKeywords| && KeywordAt(s, i, w)
  }

  predicate AnyKeywordAt(s: string, i: nat)
  {
    KeywordAt(s, i, 0) || KeywordAt(s, i, 1) || KeywordAt(s, i, 2) || KeywordAt(s, i, 3)
  }

  /** The left-to-right scan preg_match performs, from position `i`. */
  function ScanDml(s: string, i: nat): (r: bool)
    requires i <= |s|
    ensures r ==> exists j: nat, w: nat :: i <= j <= |s| && w < |DmlKeywords| && KeywordAt(s, j, w)
    decreases |s| - i
  {
    if AnyKeywordAt(s, i) then true
    else if i == |s| then false
    else ScanDml(s, i + 1)
  }

  /** preg_match("/(SELECT|UPDATE|DELETE|INSERT)/i", s). */
  function ContainsDml(s: string): (r: bool)
    ensures r <==> MentionsDml(s)
  {
    ScanDmlIff(s, 0);
    ScanDml(s, 0)
  }

  /** The scan from `i` finds a keyword that occurs at or after `i`. */
  lemma {:induction false} ScanDmlFinds(s: string, i: nat, j: nat, w: nat)
    requires i <= j <= |s| && w < |DmlKeywords| && KeywordAt(s, j, w)
    ensures ScanDml(s, i)
    decreases j - i
  {
    if i < j && !AnyKeywordAt(s, i) {
      ScanDmlFinds(s, i + 1, j, w);
    } else if i == j {
      assert w == 0 || w == 1 || w == 2 || w == 3;
    }
  }

  lemma ScanDmlIff(s: string, i: nat)
    requires i <= |s|
    ensures ScanDml(s, i) <==> exists j: nat, w: nat :: i <= j <= |s| && w < |DmlKeywords| && KeywordAt(s, j, w)
  {
    forall j: nat, w: nat | i <= j <= |s| && w < |DmlKeywords| && KeywordAt(s, j, w) ensures ScanDml(s, i) {
      ScanDmlFinds(s, i, j, w);
    }
  }

  /** The search ignores case: upper-casing the text first changes nothing. */
  lemma ContainsDmlIgnoresCase(s: string)
    ensures ContainsDml(Upper(s)) <==> ContainsDml(s)
  {
    var u := Upper(s);
    forall i: nat, w: nat | i <= |s| && w < |DmlKeywords|
      ensures KeywordAt(u, i, w) <==> KeywordAt(s, i, w)
    {
      var n := |DmlKeywords[w]|;
      if i + n <= |s| {
        assert u[i..i + n] == Upper(s[i..i + n]);
        UpperIdempotent(s[i..i + n]);
      }
    }
  }
}
