/**
 * NormalizeTerms of internal/contracts/unified/retrieval/types.go: the double
 * tokenizer behind indexing and search. A value yields its space-separated
 * fields, trimmed of punctuation at the ends, and its runs of letters and
 * digits of length two or more; the result is the sorted set of both.
 */
module Terms {
  import opened Sorting
  import opened Text

  predicate IsAlnum(c: char) {
    IsLetter(c) || IsDigit(c)
  }

  predicate NotSpace(c: char) {
    !IsSpace(c)
  }

  /** The characters that normalizeFieldTerm trims from both ends of a field. */
  predicate IsPunctuation(c: char) {
    !IsAlnum(c) && c != '.' && c != '-' && c != '_' && c != ':' && c != '/'
  }

  /** The characters of tokens, and those that stay at the ends of a field, by their codes. */
  lemma CharacterClasses(c: char)
    ensures IsAlnum(c) <==> 48 <= c as int <= 57 || 65 <= c as int <= 90 || 97 <= c as int <= 122
    ensures NotSpace(c) <==> c as int != 32 && !(9 <= c as int <= 13)
    ensures IsPunctuation(c) <==> !IsAlnum(c) && c !in {'.', '-', '_', ':', '/'}
  {
  }

  // ---------------------------------------------------------------- runs

  /** s[i..j] is a longest stretch of characters that satisfy p. */
  predicate MaxRun(p: char -> bool, s: string, i: nat, j: nat) {
    && i < j <= |s|
    && All(p, s, i, j)
    && (i > 0 ==> !p(s[i - 1]))
    && (j < |s| ==> !p(s[j]))
  }

  function RunEnd(p: char -> bool, s: string, i: nat): (j: nat)
    requires i <= |s|
    ensures i <= j <= |s| && All(p, s, i, j) && (j < |s| ==> !p(s[j]))
    decreases |s| - i
  {
    if i < |s| && p(s[i]) then RunEnd(p, s, i + 1) else i
  }

  function RunsFrom(p: char -> bool, s: string, i: nat): seq<string>
    requires i <= |s|
    decreases |s| - i
  {
    if i == |s| then []
    else if !p(s[i]) then RunsFrom(p, s, i + 1)
    else
      var j := RunEnd(p, s, i + 1);
      [s[i..j]] + RunsFrom(p, s, j)
  }

  /** strings.FieldsFunc, and strings.Fields with p := NotSpace. */
  function Runs(p: char -> bool, s: string): seq<string> {
    RunsFrom(p, s, 0)
  }

  lemma {:induction false} RunsFromMembers(p: char -> bool, s: string, i: nat, t: string)
    requires i <= |s| && (0 < i < |s| && p(s[i]) ==> !p(s[i - 1]))
    ensures t in RunsFrom(p, s, i) <==> exists a: nat, b: nat :: i <= a && MaxRun(p, s, a, b) && t == s[a..b]
    decreases |s| - i
  {
    if i < |s| {
      if !p(s[i]) {
        RunsFromMembers(p, s, i + 1, t);
      } else {
        var j := RunEnd(p, s, i + 1);
        RunsFromMembers(p, s, j, t);
        assert MaxRun(p, s, i, j);
        forall a: nat, b: nat | i <= a && MaxRun(p, s, a, b)
          ensures (a == i && b == j) || a >= j
        {
        }
      }
    }
  }

  lemma RunsMembers(p: char -> bool, s: string, t: string)
    ensures t in Runs(p, s) <==> exists a: nat, b: nat :: MaxRun(p, s, a, b) && t == s[a..b]
  {
    RunsFromMembers(p, s, 0, t);
  }

  // ---------------------------------------------------------------- the terms of one value

  function FieldTerm(field: string): string {
    Trim(IsPunctuation, TrimSpace(field))
  }

  /** The field s[i..j], trimmed of punctuation, is s[a..b]. */
  predicate FieldTermAt(s: string, i: nat, a: nat, b: nat, j: nat) {
    && MaxRun(NotSpace, s, i, j)
    && i <= a < b <= j
    && All(IsPunctuation, s, i, a) && !IsPunctuation(s[a])
    && All(IsPunctuation, s, b, j) && !IsPunctuation(s[b - 1])
  }

  ghost predicate IsFieldTerm(s: string, t: string) {
    exists i: nat, a: nat, b: nat, j: nat :: FieldTermAt(s, i, a, b, j) && t == s[a..b]
  }

  ghost predicate IsToken(s: string, t: string) {
    exists a: nat, b: nat :: MaxRun(IsAlnum, s, a, b) && b - a >= 2 && t == s[a..b]
  }

  /** t is a term of the text s, which is already in lower case. */
  ghost predicate IsTerm(s: string, t: string) {
    IsFieldTerm(s, t) || IsToken(s, t)
  }

  function FieldTerms(fields: seq<string>): seq<string> {
    if fields == [] then []
    else
      var t := FieldTerm(fields[|fields| - 1]);
      FieldTerms(fields[..|fields| - 1]) + (if t != "" then [t] else [])
  }

  function LongTokens(tokens: seq<string>): seq<string> {
    if tokens == [] then []
    else
      var t := TrimSpace(tokens[|tokens| - 1]);
      LongTokens(tokens[..|tokens| - 1]) + (if |t| >= 2 then [t] else [])
  }

  lemma {:induction false} FieldTermsSpec(fields: seq<string>, t: string)
    ensures t in FieldTerms(fields) <==> t != "" && exists f :: f in fields && t == FieldTerm(f)
  {
    hide FieldTerm;
    if fields != [] {
      var n := |fields| - 1;
      FieldTermsSpec(fields[..n], t);
      assert fields == fields[..n] + [fields[n]];
    }
  }

  lemma {:induction false} LongTokensSpec(tokens: seq<string>, t: string)
    ensures t in LongTokens(tokens) <==> |t| >= 2 && exists k :: k in tokens && t == TrimSpace(k)
  {
    hide TrimSpace;
    if tokens != [] {
      var n := |tokens| - 1;
      LongTokensSpec(tokens[..n], t);
      assert tokens == tokens[..n] + [tokens[n]];
    }
  }

  function Clean(value: string): string {
    TrimSpace(Lower(value))
  }

  function ValueTerms(value: string): seq<string> {
    FieldTerms(Runs(NotSpace, Clean(value))) + LongTokens(Runs(IsAlnum, Clean(value)))
  }

  lemma FieldIsTrimmed(s: string, i: nat, j: nat)
    requires MaxRun(NotSpace, s, i, j)
    ensures TrimSpace(s[i..j]) == s[i..j]
  {
    hide Trim;
    assert s[i..j][0] == s[i] && s[i..j][j - i - 1] == s[j - 1];
    TrimBare(IsSpace, s[i..j]);
  }

  lemma PunctuationCut(f: string) returns (lo: nat, hi: nat)
    requires TrimSpace(f) == f
    ensures lo <= hi <= |f| && FieldTerm(f) == f[lo..hi]
    ensures All(IsPunctuation, f, 0, lo) && All(IsPunctuation, f, hi, |f|)
    ensures lo < hi ==> !IsPunctuation(f[lo]) && !IsPunctuation(f[hi - 1])
  {
    hide Trim, TrimSpace;
    lo, hi := TrimCut(IsPunctuation, f);
    var t := f[lo..hi];
    assert t != [] ==> t[0] == f[lo] && t[|t| - 1] == f[hi - 1];
  }

  /** A field has no spaces inside it, so trimming it cuts off the punctuation at its ends. */
  lemma FieldCut(s: string, i: nat, j: nat) returns (a: nat, b: nat)
    requires MaxRun(NotSpace, s, i, j)
    ensures i <= a <= b <= j && FieldTerm(s[i..j]) == s[a..b]
    ensures All(IsPunctuation, s, i, a) && All(IsPunctuation, s, b, j)
    ensures a < b ==> !IsPunctuation(s[a]) && !IsPunctuation(s[b - 1])
  {
    hide FieldTerm, TrimSpace, IsPunctuation;
    FieldIsTrimmed(s, i, j);
    var lo, hi := PunctuationCut(s[i..j]);
    SliceOfSlice(s, i, j, lo, hi);
    a, b := i + lo, i + hi;
    AllOfSlice(IsPunctuation, s, i, j, 0, lo);
    AllOfSlice(IsPunctuation, s, i, j, hi, j - i);
  }

  lemma FieldTermOfRun(s: string, i: nat, j: nat)
    requires MaxRun(NotSpace, s, i, j)
    ensures FieldTerm(s[i..j]) != "" ==>
              exists a: nat, b: nat :: FieldTermAt(s, i, a, b, j) && FieldTerm(s[i..j]) == s[a..b]
    ensures forall a: nat, b: nat | FieldTermAt(s, i, a, b, j) :: FieldTerm(s[i..j]) == s[a..b]
  {
    hide FieldTerm;
    var lo, hi := FieldCut(s, i, j);
    if lo < hi {
      assert FieldTermAt(s, i, lo, hi, j);
    }
    forall a: nat, b: nat | FieldTermAt(s, i, a, b, j)
      ensures a == lo && b == hi
    {
      assert lo <= a && b <= hi;
    }
  }

  lemma FieldTermsMembers(s: string, t: string)
    ensures t in FieldTerms(Runs(NotSpace, s)) <==> IsFieldTerm(s, t)
  {
    var fields := Runs(NotSpace, s);
    FieldTermsSpec(fields, t);
    if t in FieldTerms(fields) {
      var f :| f in fields && t == FieldTerm(f);
      RunsMembers(NotSpace, s, f);
      var i: nat, j: nat :| MaxRun(NotSpace, s, i, j) && f == s[i..j];
      FieldTermOfRun(s, i, j);
    }
    if IsFieldTerm(s, t) {
      var i: nat, a: nat, b: nat, j: nat :| FieldTermAt(s, i, a, b, j) && t == s[a..b];
      FieldTermOfRun(s, i, j);
      RunsMembers(NotSpace, s, s[i..j]);
    }
  }

  lemma TokensAreTrimmed(s: string, k: string)
    requires k in Runs(IsAlnum, s)
    ensures TrimSpace(k) == k
  {
    RunsMembers(IsAlnum, s, k);
    var a: nat, b: nat :| MaxRun(IsAlnum, s, a, b) && k == s[a..b];
    assert IsAlnum(s[a]) && IsAlnum(s[b - 1]);
    TrimBare(IsSpace, k);
  }

  lemma LongTokensMembers(s: string, t: string)
    ensures t in LongTokens(Runs(IsAlnum, s)) <==> IsToken(s, t)
  {
    var tokens := Runs(IsAlnum, s);
    RunsMembers(IsAlnum, s, t);
    LongTokensSpec(tokens, t);
    if t in LongTokens(tokens) {
      var k :| k in tokens && t == TrimSpace(k);
      TokensAreTrimmed(s, k);
    }
    if t in tokens {
      TokensAreTrimmed(s, t);
    }
  }

  lemma CleanTermsMembers(value: string, t: string)
    ensures t in ValueTerms(value) <==> IsTerm(Clean(value), t)
  {
    FieldTermsMembers(Clean(value), t);
    LongTokensMembers(Clean(value), t);
  }

  // ---------------------------------------------------------------- splitting at a space

  /** s is y, a space, then z. */
  predicate SplitBySpace(s: string, y: string, z: string) {
    && |s| == |y| + 1 + |z|
    && s[..|y|] == y && s[|y| + 1..] == z
    && IsSpace(s[|y|])
  }

  lemma RunSplit(p: char -> bool, s: string, y: string, z: string, i: nat, j: nat)
    requires SplitBySpace(s, y, z) && !p(s[|y|])
    ensures j <= |y| ==> (MaxRun(p, s, i, j) <==> MaxRun(p, y, i, j))
    ensures i > |y| && j > |y| ==> (MaxRun(p, s, i, j) <==> MaxRun(p, z, i - |y| - 1, j - |y| - 1))
    ensures MaxRun(p, s, i, j) ==> j <= |y| || i > |y|
  {
    assert forall k: int | 0 <= k < |y| :: s[k] == y[k];
    assert forall k: int | 0 <= k < |z| :: s[k + |y| + 1] == z[k];
    if j <= |y| && MaxRun(p, y, i, j) {
      assert All(p, s, i, j);
    }
    if i > |y| && j > |y| && MaxRun(p, z, i - |y| - 1, j - |y| - 1) {
      assert All(p, s, i, j);
    }
  }

  lemma FieldSplit(s: string, y: string, z: string, i: nat, a: nat, b: nat, j: nat)
    requires SplitBySpace(s, y, z)
    ensures j <= |y| ==> (FieldTermAt(s, i, a, b, j) <==> FieldTermAt(y, i, a, b, j))
    ensures i > |y| && a > |y| && b > |y| && j > |y| ==>
              (FieldTermAt(s, i, a, b, j) <==> FieldTermAt(z, i - |y| - 1, a - |y| - 1, b - |y| - 1, j - |y| - 1))
    ensures FieldTermAt(s, i, a, b, j) ==> j <= |y| || i > |y|
  {
    RunSplit(NotSpace, s, y, z, i, j);
    assert forall k: int | 0 <= k < |y| :: s[k] == y[k];
    assert forall k: int | 0 <= k < |z| :: s[k + |y| + 1] == z[k];
    if i > |y| && a > |y| && b > |y| && j > |y| && FieldTermAt(z, i - |y| - 1, a - |y| - 1, b - |y| - 1, j - |y| - 1) {
      assert All(IsPunctuation, s, i, a) && All(IsPunctuation, s, b, j);
    }
  }

  /** The terms of a text are those of its two sides of any space. */
  lemma TermsSplit(s: string, y: string, z: string, t: string)
    requires SplitBySpace(s, y, z)
    ensures IsTerm(s, t) <==> IsTerm(y, t) || IsTerm(z, t)
  {
    FieldTermsSplit(s, y, z, t);
    TokensSplit(s, y, z, t);
  }

  lemma FieldTermsSplit(s: string, y: string, z: string, t: string)
    requires SplitBySpace(s, y, z)
    ensures IsFieldTerm(s, t) <==> IsFieldTerm(y, t) || IsFieldTerm(z, t)
  {
    if IsFieldTerm(s, t) {
      var i: nat, a: nat, b: nat, j: nat :| FieldTermAt(s, i, a, b, j) && t == s[a..b];
      FieldTermGoesToSide(s, y, z, i, a, b, j);
    }
    if IsFieldTerm(y, t) {
      var i: nat, a: nat, b: nat, j: nat :| FieldTermAt(y, i, a, b, j) && t == y[a..b];
      FieldTermComesFromLeft(s, y, z, i, a, b, j);
    }
    if IsFieldTerm(z, t) {
      var i: nat, a: nat, b: nat, j: nat :| FieldTermAt(z, i, a, b, j) && t == z[a..b];
      FieldTermComesFromRight(s, y, z, i, a, b, j);
    }
  }

  lemma SideSlices(s: string, y: string, z: string, a: nat, b: nat)
    requires SplitBySpace(s, y, z) && a <= b <= |s|
    ensures b <= |y| ==> s[a..b] == y[a..b]
    ensures a > |y| ==> s[a..b] == z[a - |y| - 1..b - |y| - 1]
  {
    var k := |y| + 1;
    if b <= |y| {
      SliceOfSlice(s, 0, |y|, a, b);
    }
    if a >= k {
      SliceOfSlice(s, k, |s|, a - k, b - k);
    }
  }

  lemma FieldTermGoesToSide(s: string, y: string, z: string, i: nat, a: nat, b: nat, j: nat)
    requires SplitBySpace(s, y, z) && FieldTermAt(s, i, a, b, j)
    ensures IsFieldTerm(y, s[a..b]) || IsFieldTerm(z, s[a..b])
  {
    FieldSplit(s, y, z, i, a, b, j);
    SideSlices(s, y, z, a, b);
  }

  lemma FieldTermComesFromLeft(s: string, y: string, z: string, i: nat, a: nat, b: nat, j: nat)
    requires SplitBySpace(s, y, z) && FieldTermAt(y, i, a, b, j)
    ensures IsFieldTerm(s, y[a..b])
  {
    FieldSplit(s, y, z, i, a, b, j);
    SideSlices(s, y, z, a, b);
  }

  lemma FieldTermComesFromRight(s: string, y: string, z: string, i: nat, a: nat, b: nat, j: nat)
    requires SplitBySpace(s, y, z) && FieldTermAt(z, i, a, b, j)
    ensures IsFieldTerm(s, z[a..b])
  {
    var k := |y| + 1;
    FieldSplit(s, y, z, i + k, a + k, b + k, j + k);
    SideSlices(s, y, z, a + k, b + k);
  }

  lemma TokensSplit(s: string, y: string, z: string, t: string)
    requires SplitBySpace(s, y, z)
    ensures IsToken(s, t) <==> IsToken(y, t) || IsToken(z, t)
  {
    if IsToken(s, t) {
      var a: nat, b: nat :| MaxRun(IsAlnum, s, a, b) && b - a >= 2 && t == s[a..b];
      TokenGoesToSide(s, y, z, a, b);
    }
    if IsToken(y, t) {
      var a: nat, b: nat :| MaxRun(IsAlnum, y, a, b) && b - a >= 2 && t == y[a..b];
      RunSplit(IsAlnum, s, y, z, a, b);
      SideSlices(s, y, z, a, b);
    }
    if IsToken(z, t) {
      var a: nat, b: nat :| MaxRun(IsAlnum, z, a, b) && b - a >= 2 && t == z[a..b];
      TokenComesFromRight(s, y, z, a, b);
    }
  }

  lemma TokenGoesToSide(s: string, y: string, z: string, a: nat, b: nat)
    requires SplitBySpace(s, y, z) && MaxRun(IsAlnum, s, a, b) && b - a >= 2
    ensures IsToken(y, s[a..b]) || IsToken(z, s[a..b])
  {
    RunSplit(IsAlnum, s, y, z, a, b);
    SideSlices(s, y, z, a, b);
  }

  lemma TokenComesFromRight(s: string, y: string, z: string, a: nat, b: nat)
    requires SplitBySpace(s, y, z) && MaxRun(IsAlnum, z, a, b) && b - a >= 2
    ensures IsToken(s, z[a..b])
  {
    var k := |y| + 1;
    RunSplit(IsAlnum, s, y, z, a + k, b + k);
    SideSlices(s, y, z, a + k, b + k);
  }

  lemma {:induction false} TrimLeftKeepsTerms(s: string, t: string)
    ensures IsTerm(TrimLeft(IsSpace, s), t) <==> IsTerm(s, t)
  {
    if s != [] && IsSpace(s[0]) {
      TermsSplit(s, "", s[1..], t);
      TrimLeftKeepsTerms(s[1..], t);
    }
  }

  lemma {:induction false} TrimRightKeepsTerms(s: string, t: string)
    ensures IsTerm(TrimRight(IsSpace, s), t) <==> IsTerm(s, t)
  {
    if s != [] && IsSpace(s[|s| - 1]) {
      TermsSplit(s, s[..|s| - 1], "", t);
      TrimRightKeepsTerms(s[..|s| - 1], t);
    }
  }

  /** Leading and trailing spaces never matter. */
  lemma ValueTermsMembers(value: string, t: string)
    ensures t in ValueTerms(value) <==> IsTerm(Lower(value), t)
  {
    CleanTermsMembers(value, t);
    TrimLeftKeepsTerms(Lower(value), t);
    TrimRightKeepsTerms(TrimLeft(IsSpace, Lower(value)), t);
  }

  // ---------------------------------------------------------------- terms of terms

  predicate IsLower(s: string) {
    Lower(s) == s
  }

  lemma LowerIsLower(s: string)
    ensures IsLower(Lower(s))
  {
  }

  /** The runs of letters and digits inside a field term are those of the text around it. */
  lemma TokenInField(s: string, i: nat, a: nat, b: nat, j: nat, c: nat, d: nat)
    requires FieldTermAt(s, i, a, b, j) && MaxRun(IsAlnum, s[a..b], c, d)
    ensures MaxRun(IsAlnum, s, a + c, a + d)
  {
    var t := s[a..b];
    assert forall k: int | 0 <= k < b - a :: t[k] == s[a + k];
    if c == 0 && a > 0 {
      assert a > i ==> IsPunctuation(s[a - 1]);
      assert a == i ==> IsSpace(s[a - 1]);
    }
    if d == b - a && b < |s| {
      assert b < j ==> IsPunctuation(s[b]);
      assert b == j ==> IsSpace(s[b]);
    }
  }

  lemma WholeRun(p: char -> bool, t: string, c: nat, d: nat)
    requires All(p, t, 0, |t|) && MaxRun(p, t, c, d)
    ensures c == 0 && d == |t|
  {
  }

  /** A field term is its own only field term. */
  lemma FieldTermOfTerm(s: string, t: string, u: string)
    requires IsTerm(s, t)
    ensures IsFieldTerm(t, u) <==> u == t
  {
    assert All(NotSpace, t, 0, |t|) && t != "" && !IsPunctuation(t[0]) && !IsPunctuation(t[|t| - 1]);
    assert MaxRun(NotSpace, t, 0, |t|);
    assert FieldTermAt(t, 0, 0, |t|, |t|);
    assert t[0..|t|] == t;
    if IsFieldTerm(t, u) {
      var i: nat, a: nat, b: nat, j: nat :| FieldTermAt(t, i, a, b, j) && u == t[a..b];
      WholeRun(NotSpace, t, i, j);
    }
  }

  lemma TokenOfField(s: string, i: nat, a: nat, b: nat, j: nat, u: string)
    requires FieldTermAt(s, i, a, b, j) && IsToken(s[a..b], u)
    ensures IsToken(s, u)
  {
    var t := s[a..b];
    var c: nat, d: nat :| MaxRun(IsAlnum, t, c, d) && d - c >= 2 && u == t[c..d];
    TokenInField(s, i, a, b, j, c, d);
    SliceOfSlice(s, a, b, c, d);
  }

  lemma TokenOfToken(s: string, t: string, u: string)
    requires IsToken(s, t) && IsToken(t, u)
    ensures u == t
  {
    var c: nat, d: nat :| MaxRun(IsAlnum, t, c, d) && d - c >= 2 && u == t[c..d];
    WholeRun(IsAlnum, t, c, d);
  }

  lemma TokenOfTerm(s: string, t: string, u: string)
    requires IsTerm(s, t) && IsToken(t, u)
    ensures IsTerm(s, u)
  {
    if IsFieldTerm(s, t) {
      var i: nat, a: nat, b: nat, j: nat :| FieldTermAt(s, i, a, b, j) && t == s[a..b];
      TokenOfField(s, i, a, b, j, u);
    } else {
      TokenOfToken(s, t, u);
    }
  }

  /** A term of a text has itself as a term, and only terms of that text. */
  lemma TermClosure(s: string, t: string, u: string)
    requires IsTerm(s, t)
    ensures IsTerm(t, t)
    ensures IsTerm(t, u) ==> IsTerm(s, u)
  {
    FieldTermOfTerm(s, t, t);
    FieldTermOfTerm(s, t, u);
    if IsToken(t, u) {
      TokenOfTerm(s, t, u);
    }
  }

  lemma TermIsSlice(s: string, t: string) returns (a: nat, b: nat)
    requires IsTerm(s, t)
    ensures a <= b <= |s| && t == s[a..b]
  {
    if IsToken(s, t) {
      a, b :| MaxRun(IsAlnum, s, a, b) && b - a >= 2 && t == s[a..b];
    } else {
      var i: nat, j: nat;
      i, a, b, j :| FieldTermAt(s, i, a, b, j) && t == s[a..b];
    }
  }

  lemma TermsAreLower(s: string, t: string)
    requires IsLower(s) && IsTerm(s, t)
    ensures IsLower(t) && Trimmed(t) && t != ""
  {
    FieldTermOfTerm(s, t, t);
    assert !IsPunctuation(t[0]) && !IsPunctuation(t[|t| - 1]);
    assert All(NotSpace, t, 0, |t|);
    TrimBare(IsSpace, t);
    var a, b := TermIsSlice(s, t);
    forall k: nat | k < |t|
      ensures LowerChar(t[k]) == t[k]
    {
      assert t[k] == s[a + k] && s[a + k] == Lower(s)[a + k];
    }
  }

  // ---------------------------------------------------------------- NormalizeTerms

  /** t is a term of one of the values: what NormalizeTerms is meant to collect. */
  ghost predicate IsTermOf(values: seq<string>, t: string) {
    exists v :: v in values && IsTerm(Lower(v), t)
  }

  predicate StrictlySorted(s: seq<string>) {
    forall i: nat, j: nat | i < j < |s| :: StringLt(s[i], s[j])
  }

  function InsertTerm(t: string, terms: seq<string>): seq<string> {
    if terms == [] then [t]
    else if t == terms[0] then terms
    else if StringLe(t, terms[0]) then [t] + terms
    else [terms[0]] + InsertTerm(t, terms[1..])
  }

  function InsertAll(found: seq<string>, terms: seq<string>): seq<string> {
    if found == [] then terms else InsertTerm(found[0], InsertAll(found[1..], terms))
  }

  /** The result of the method below, as a function. */
  function NormalizeTerms(values: seq<string>): seq<string> {
    if values == [] then [] else InsertAll(ValueTerms(values[0]), NormalizeTerms(values[1..]))
  }

  lemma {:induction false} InsertTermMembers(t: string, terms: seq<string>)
    ensures forall u :: u in InsertTerm(t, terms) <==> u == t || u in terms
  {
    if terms != [] && t != terms[0] && !StringLe(t, terms[0]) {
      InsertTermMembers(t, terms[1..]);
      assert terms == [terms[0]] + terms[1..];
    }
  }

  lemma {:induction false} InsertTermSorted(t: string, terms: seq<string>)
    requires StrictlySorted(terms)
    ensures StrictlySorted(InsertTerm(t, terms))
  {
    if terms != [] && t != terms[0] {
      if StringLe(t, terms[0]) {
        forall j: nat | j < |terms|
          ensures StringLt(t, terms[j])
        {
          if j > 0 {
            assert StringLt(terms[0], terms[j]);
            StringLeTransitive(t, terms[0], terms[j]);
            if t == terms[j] {
              StringLeAntisymmetric(t, terms[0]);
            }
          }
        }
      } else {
        var rest := InsertTerm(t, terms[1..]);
        InsertTermSorted(t, terms[1..]);
        InsertTermMembers(t, terms[1..]);
        StringLeTotal(t, terms[0]);
        forall j: nat | j < |rest|
          ensures StringLt(terms[0], rest[j])
        {
          assert rest[j] in rest;
        }
      }
    }
  }

  lemma {:induction false} InsertAllSpec(found: seq<string>, terms: seq<string>)
    requires StrictlySorted(terms)
    ensures StrictlySorted(InsertAll(found, terms))
    ensures forall u :: u in InsertAll(found, terms) <==> u in found || u in terms
  {
    if found != [] {
      InsertAllSpec(found[1..], terms);
      InsertTermSorted(found[0], InsertAll(found[1..], terms));
      InsertTermMembers(found[0], InsertAll(found[1..], terms));
    }
  }

  /** The result is strictly sorted and holds exactly the terms of the separate arguments. */
  lemma {:induction false} NormalizeTermsSpec(values: seq<string>)
    ensures StrictlySorted(NormalizeTerms(values))
    ensures forall t :: t in NormalizeTerms(values) <==> IsTermOf(values, t)
  {
    if values != [] {
      NormalizeTermsSpec(values[1..]);
      InsertAllSpec(ValueTerms(values[0]), NormalizeTerms(values[1..]));
      forall t
        ensures t in NormalizeTerms(values) <==> IsTermOf(values, t)
      {
        ValueTermsMembers(values[0], t);
        assert values == [values[0]] + values[1..];
      }
    }
  }

  /** A strictly sorted sequence is determined by its members. */
  lemma {:induction false} StrictlySortedUnique(a: seq<string>, b: seq<string>)
    requires StrictlySorted(a) && StrictlySorted(b) && forall t :: t in a <==> t in b
    ensures a == b
  {
    assert a != [] ==> a[0] in b;
    assert b != [] ==> b[0] in a;
    if a != [] && b != [] {
      assert a[0] in b && b[0] in a;
      assert a[0] == b[0] by {
        if a[0] != b[0] {
          assert StringLt(a[0], b[0]) && StringLt(b[0], a[0]);
          StringLeAntisymmetric(a[0], b[0]);
        }
      }
      forall t
        ensures t in a[1..] <==> t in b[1..]
      {
        assert a == [a[0]] + a[1..] && b == [b[0]] + b[1..];
        assert t in a <==> t == a[0] || t in a[1..];
        assert t in b <==> t == b[0] || t in b[1..];
        assert t in a[1..] ==> t != a[0];
        assert t in b[1..] ==> t != b[0];
      }
      StrictlySortedUnique(a[1..], b[1..]);
    }
  }

  /** Only the set of arguments matters: order and repetition do not. */
  lemma NormalizeTermsOrderFree(a: seq<string>, b: seq<string>)
    requires forall v :: v in a <==> v in b
    ensures NormalizeTerms(a) == NormalizeTerms(b)
  {
    NormalizeTermsSpec(a);
    NormalizeTermsSpec(b);
    forall t
      ensures t in NormalizeTerms(a) <==> t in NormalizeTerms(b)
    {
      assert IsTermOf(a, t) <==> IsTermOf(b, t);
    }
    StrictlySortedUnique(NormalizeTerms(a), NormalizeTerms(b));
  }

  /** Character by character the same, or one letter in its two cases. */
  predicate SameUpToCase(s: string, t: string) {
    |s| == |t| && forall i: nat | i < |s| :: s[i] == t[i] || TwoCases(s[i], t[i]) || TwoCases(t[i], s[i])
  }

  predicate TwoCases(upper: char, lower: char) {
    65 <= upper as int <= 90 && lower as int == upper as int + 32
  }

  lemma CaseIsLowered(s: string, t: string)
    requires SameUpToCase(s, t)
    ensures Lower(s) == Lower(t)
  {
    assert forall i: nat | i < |s| :: LowerChar(s[i]) == LowerChar(t[i]);
  }

  lemma SameLowerSameTerms(a: seq<string>, b: seq<string>, t: string)
    requires |a| == |b| && forall k: nat | k < |a| :: Lower(a[k]) == Lower(b[k])
    ensures IsTermOf(a, t) ==> IsTermOf(b, t)
  {
    hide Lower, IsTerm;
    if IsTermOf(a, t) {
      var k: nat :| k < |a| && IsTerm(Lower(a[k]), t);
      assert b[k] in b;
    }
  }

  /** Case never matters: letters may be upper or lower case, place by place. */
  lemma CaseDoesNotMatter(a: seq<string>, b: seq<string>)
    requires |a| == |b| && forall k: nat | k < |a| :: SameUpToCase(a[k], b[k])
    ensures NormalizeTerms(a) == NormalizeTerms(b)
  {
    hide Lower, SameUpToCase, IsTermOf, NormalizeTerms;
    NormalizeTermsSpec(a);
    NormalizeTermsSpec(b);
    forall k: nat | k < |a|
      ensures Lower(a[k]) == Lower(b[k])
    {
      CaseIsLowered(a[k], b[k]);
    }
    forall t
      ensures IsTermOf(a, t) <==> IsTermOf(b, t)
    {
      SameLowerSameTerms(a, b, t);
      SameLowerSameTerms(b, a, t);
    }
    StrictlySortedUnique(NormalizeTerms(a), NormalizeTerms(b));
  }

  /** Normalising terms again changes nothing. */
  lemma NormalizeTermsIdempotent(values: seq<string>)
    ensures NormalizeTerms(NormalizeTerms(values)) == NormalizeTerms(values)
  {
    var terms := NormalizeTerms(values);
    NormalizeTermsSpec(values);
    NormalizeTermsSpec(terms);
    forall u
      ensures u in NormalizeTerms(terms) <==> u in terms
    {
      if IsTermOf(terms, u) {
        var t :| t in terms && IsTerm(Lower(t), u);
        TermOfNormalized(values, t, u);
      }
      if u in terms {
        TermOfNormalized(values, u, u);
        assert IsTermOf(terms, u);
      }
    }
    StrictlySortedUnique(NormalizeTerms(terms), terms);
  }

  lemma TermOfNormalized(values: seq<string>, t: string, u: string)
    requires IsTermOf(values, t)
    ensures Lower(t) == t && TrimSpace(t) == t && IsTerm(t, t)
    ensures IsTerm(t, u) ==> IsTermOf(values, u)
  {
    var v :| v in values && IsTerm(Lower(v), t);
    LowerIsLower(v);
    TermsAreLower(Lower(v), t);
    TermClosure(Lower(v), t, u);
  }

  /** Some character of the text is neither a space nor punctuation that is trimmed. */
  predicate HasTermChar(s: string) {
    exists k: nat | k < |s| :: NotSpace(s[k]) && !IsPunctuation(s[k])
  }

  /** The longest run around a character. */
  lemma RunAround(p: char -> bool, s: string, k: nat) returns (i: nat, j: nat)
    requires k < |s| && p(s[k])
    ensures i <= k < j && MaxRun(p, s, i, j)
  {
    i := k;
    while i > 0 && p(s[i - 1])
      invariant i <= k && All(p, s, i, k + 1)
    {
      i := i - 1;
    }
    j := RunEnd(p, s, k + 1);
  }

  /** Between the first and the last character of a field that is no punctuation there is a term. */
  lemma CharGivesTerm(s: string, k: nat) returns (t: string)
    requires k < |s| && NotSpace(s[k]) && !IsPunctuation(s[k])
    ensures IsTerm(s, t)
  {
    var i, j := RunAround(NotSpace, s, k);
    FieldTermOfRun(s, i, j);
    var a, b := FieldCut(s, i, j);
    assert a <= k < b;
    assert FieldTermAt(s, i, a, b, j);
    t := s[a..b];
  }

  lemma LowerKeepsClass(c: char)
    ensures NotSpace(LowerChar(c)) == NotSpace(c) && IsPunctuation(LowerChar(c)) == IsPunctuation(c)
  {
  }

  /** A term starts with a character that makes one. */
  lemma TermGivesChar(value: string, t: string)
    requires IsTerm(Lower(value), t)
    ensures HasTermChar(value)
  {
    FieldTermOfTerm(Lower(value), t, t);
    var a, b := TermIsSlice(Lower(value), t);
    TermStart(t);
    assert t[0] == Lower(value)[a];
    LowerKeepsClass(value[a]);
  }

  lemma TermStart(t: string)
    requires IsFieldTerm(t, t)
    ensures t != "" && !IsPunctuation(t[0]) && NotSpace(t[0])
  {
    var i: nat, a: nat, b: nat, j: nat :| FieldTermAt(t, i, a, b, j) && t == t[a..b];
    assert a == 0 && b == |t|;
  }

  lemma CharGivesTermOf(value: string) returns (t: string)
    requires HasTermChar(value)
    ensures IsTerm(Lower(value), t)
  {
    hide IsTerm, IsPunctuation, NotSpace;
    var k: nat :| k < |value| && NotSpace(value[k]) && !IsPunctuation(value[k]);
    LowerKeepsClass(value[k]);
    t := CharGivesTerm(Lower(value), k);
  }

  /** There are terms exactly when some value has a character that makes one. */
  lemma SomeTermExactly(values: seq<string>)
    ensures NormalizeTerms(values) != [] <==> exists v :: v in values && HasTermChar(v)
  {
    hide IsTerm, HasTermChar, NormalizeTerms, Lower;
    NormalizeTermsSpec(values);
    if NormalizeTerms(values) != [] {
      var t := NormalizeTerms(values)[0];
      assert t in NormalizeTerms(values);
      var v :| v in values && IsTerm(Lower(v), t);
      TermGivesChar(v, t);
    }
    if v :| v in values && HasTermChar(v) {
      var t := CharGivesTermOf(v);
      assert IsTermOf(values, t);
      assert t in NormalizeTerms(values);
    }
  }

  // ---------------------------------------------------------------- joined values

  lemma {:induction false} JoinTerms(values: seq<string>, t: string)
    ensures IsTerm(Lower(JoinSpace(values)), t) <==> IsTermOf(values, t)
  {
    if |values| <= 1 {
      if values == [] {
        assert Lower(JoinSpace(values)) == "";
      }
    } else {
      var y, rest := values[0], JoinSpace(values[1..]);
      assert SplitBySpace(Lower(JoinSpace(values)), Lower(y), Lower(rest));
      TermsSplit(Lower(JoinSpace(values)), Lower(y), Lower(rest), t);
      JoinTerms(values[1..], t);
      assert values == [y] + values[1..];
    }
  }

  /** A query made by joining values with spaces has exactly the terms of the values. */
  lemma JoinedQueryTerms(values: seq<string>)
    ensures NormalizeTerms([JoinSpace(values)]) == NormalizeTerms(values)
  {
    var joined := [JoinSpace(values)];
    NormalizeTermsSpec(joined);
    NormalizeTermsSpec(values);
    forall t
      ensures t in NormalizeTerms(joined) <==> t in NormalizeTerms(values)
    {
      JoinTerms(values, t);
      assert IsTermOf(joined, t) <==> IsTerm(Lower(joined[0]), t);
    }
    StrictlySortedUnique(NormalizeTerms(joined), NormalizeTerms(values));
  }

  lemma {:induction false} LowerTrimLeft(s: string)
    ensures Lower(TrimLeft(IsSpace, s)) == TrimLeft(IsSpace, Lower(s))
  {
    if s != [] && IsSpace(s[0]) {
      LowerTrimLeft(s[1..]);
      assert Lower(s)[1..] == Lower(s[1..]);
    }
  }

  lemma {:induction false} LowerTrimRight(s: string)
    ensures Lower(TrimRight(IsSpace, s)) == TrimRight(IsSpace, Lower(s))
  {
    if s != [] && IsSpace(s[|s| - 1]) {
      LowerTrimRight(s[..|s| - 1]);
      assert Lower(s)[..|s| - 1] == Lower(s[..|s| - 1]);
    }
  }

  /** The query service trims the query text first; its terms are the same. */
  lemma TrimmedQueryTerms(text: string)
    ensures NormalizeTerms([TrimSpace(text)]) == NormalizeTerms([text])
  {
    LowerTrimLeft(text);
    LowerTrimRight(TrimLeft(IsSpace, text));
    assert Lower(TrimSpace(text)) == Clean(text);
    NormalizeTermsSpec([TrimSpace(text)]);
    NormalizeTermsSpec([text]);
    forall t
      ensures t in NormalizeTerms([TrimSpace(text)]) <==> t in NormalizeTerms([text])
    {
      CleanTermsMembers(text, t);
      ValueTermsMembers(text, t);
      assert IsTermOf([text], t) <==> IsTerm(Lower([text][0]), t);
      assert IsTermOf([TrimSpace(text)], t) <==> IsTerm(Lower([TrimSpace(text)][0]), t);
    }
    StrictlySortedUnique(NormalizeTerms([TrimSpace(text)]), NormalizeTerms([text]));
  }

  // ---------------------------------------------------------------- the loops

  predicate TermLe(a: string, b: string) {
    StringLe(a, b)
  }

  lemma TermOrder()
    ensures TotalPreorder(TermLe)
  {
    forall a, b {
      StringLeTotal(a, b);
    }
    forall a, b, c | TermLe(a, b) && TermLe(b, c) {
      StringLeTransitive(a, b, c);
    }
  }

  ghost function Members(s: seq<string>): set<string> {
    set t | t in s
  }

  /** The body of the outer loop: the fields of one cleaned value, then its tokens. */
  method AddTerms(value: string, before: set<string>) returns (terms: set<string>)
    ensures terms == before + Members(FieldTerms(Runs(NotSpace, value)))
                            + Members(LongTokens(Runs(IsAlnum, value)))
  {
    hide FieldTerm, TrimSpace, Runs;
    terms := before;
    var fields := Runs(NotSpace, value);
    for f := 0 to |fields|
      invariant terms == before + Members(FieldTerms(fields[..f]))
    {
      assert fields[..f + 1][..f] == fields[..f];
      var field := FieldTerm(fields[f]);
      if field != "" {
        terms := terms + {field};
      }
    }
    assert fields[..|fields|] == fields;
    ghost var withFields := terms;
    var tokens := Runs(IsAlnum, value);
    for k := 0 to |tokens|
      invariant terms == withFields + Members(LongTokens(tokens[..k]))
    {
      assert tokens[..k + 1][..k] == tokens[..k];
      var token := TrimSpace(tokens[k]);
      if |token| < 2 {
        continue;
      }
      terms := terms + {token};
    }
    assert tokens[..|tokens|] == tokens;
  }

  ghost function AllTerms(values: seq<string>): set<string> {
    if values == [] then {}
    else AllTerms(values[..|values| - 1]) + Members(ValueTerms(values[|values| - 1]))
  }

  lemma {:induction false} AllTermsSpec(values: seq<string>, t: string)
    ensures t in AllTerms(values) <==> IsTermOf(values, t)
  {
    hide ValueTerms, IsTerm, Lower;
    if values != [] {
      var n := |values| - 1;
      AllTermsSpec(values[..n], t);
      ValueTermsMembers(values[n], t);
      assert values == values[..n] + [values[n]];
    }
  }

  method Normalize(values: seq<string>) returns (normalized: seq<string>)
    ensures normalized == NormalizeTerms(values)
  {
    var terms: set<string> := {};
    for n := 0 to |values|
      invariant terms == AllTerms(values[..n])
    {
      assert values[..n + 1][..n] == values[..n];
      var value := Clean(values[n]);
      if value == "" {
        assert ValueTerms(values[n]) == [];
        continue;
      }
      terms := AddTerms(value, terms);
    }
    assert values[..|values|] == values;
    var listed := Enumerate(terms);
    normalized := Sort(TermLe, listed);
    NormalizedIsFunction(values, listed, normalized);
  }

  /** Whatever order the map was ranged over in, sorting gives the one strictly sorted enumeration. */
  lemma NormalizedIsFunction(values: seq<string>, listed: seq<string>, normalized: seq<string>)
    requires multiset(listed) == multiset(AllTerms(values))
    requires normalized == Sort(TermLe, listed)
    ensures normalized == NormalizeTerms(values)
  {
    TermOrder();
    SortIsSort(TermLe, listed);
    NormalizeTermsSpec(values);
    forall i: nat, j: nat | i < j < |normalized|
      ensures StringLt(normalized[i], normalized[j])
    {
      assert TermLe(normalized[i], normalized[j]);
      DistinctPositions(normalized, AllTerms(values), i, j);
    }
    forall t
      ensures t in normalized <==> t in NormalizeTerms(values)
    {
      assert t in normalized <==> t in multiset(normalized);
      AllTermsSpec(values, t);
    }
    StrictlySortedUnique(normalized, NormalizeTerms(values));
  }
}
