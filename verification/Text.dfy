/**
 * The parts of Go's strings and unicode packages that the code relies on, over
 * ASCII: a character outside ASCII is treated as neither letter, digit nor
 * space, and is left alone by lower-casing.
 */
module Text {

  predicate IsSpace(c: char) {
    c == ' ' || '\t' <= c <= '\r'
  }

  predicate IsLetter(c: char) {
    'a' <= c <= 'z' || 'A' <= c <= 'Z'
  }

  predicate IsDigit(c: char) {
    '0' <= c <= '9'
  }

  function LowerChar(c: char): char {
    if 'A' <= c <= 'Z' then c - 'A' + 'a' else c
  }

  function Lower(s: string): (r: string)
    ensures |r| == |s| && forall i: nat | i < |s| :: r[i] == LowerChar(s[i])
  {
    seq(|s|, (i: nat) requires i < |s| => LowerChar(s[i]))
  }

  predicate EqualFold(a: string, b: string) {
    Lower(a) == Lower(b)
  }

  function TrimLeft(p: char -> bool, s: string): string {
    if s != [] && p(s[0]) then TrimLeft(p, s[1..]) else s
  }

  function TrimRight(p: char -> bool, s: string): string {
    if s != [] && p(s[|s| - 1]) then TrimRight(p, s[..|s| - 1]) else s
  }

  /** strings.TrimFunc */
  function Trim(p: char -> bool, s: string): string {
    TrimRight(p, TrimLeft(p, s))
  }

  function TrimSpace(s: string): string {
    Trim(IsSpace, s)
  }

  /** The test strings.TrimSpace(s) == "", by BlankTrims below. */
  predicate Blank(s: string) {
    forall i: nat | i < |s| :: IsSpace(s[i])
  }

  predicate Trimmed(s: string) {
    TrimSpace(s) == s
  }

  /** No end of s satisfies p. */
  predicate BareEnds(p: char -> bool, s: string) {
    s != [] ==> !p(s[0]) && !p(s[|s| - 1])
  }

  predicate All(p: char -> bool, s: string, lo: int, hi: int) {
    forall i: int | 0 <= i < |s| && lo <= i < hi :: p(s[i])
  }

  lemma SliceOfSlice(s: string, i: nat, j: nat, lo: nat, hi: nat)
    requires i <= j <= |s| && lo <= hi <= j - i
    ensures s[i..j][lo..hi] == s[i + lo..i + hi]
  {
    var a, b := s[i..j][lo..hi], s[i + lo..i + hi];
    assert |a| == |b| && forall k: nat | k < |a| :: a[k] == b[k];
  }

  lemma AllOfSlice(p: char -> bool, s: string, i: nat, j: nat, lo: nat, hi: nat)
    requires i <= j <= |s| && lo <= hi <= j - i && All(p, s[i..j], lo, hi)
    ensures All(p, s, i + lo, i + hi)
  {
    forall k: int | i + lo <= k < i + hi
      ensures p(s[k])
    {
      assert s[i..j][k - i] == s[k];
    }
  }

  lemma {:induction false} TrimLeftCut(p: char -> bool, s: string) returns (k: nat)
    ensures k <= |s| && TrimLeft(p, s) == s[k..] && All(p, s, 0, k) && (k < |s| ==> !p(s[k]))
  {
    if s != [] && p(s[0]) {
      var k' := TrimLeftCut(p, s[1..]);
      k := k' + 1;
      assert s[1..][k'..] == s[k..];
      assert forall i: int | 1 <= i < |s| :: s[i] == s[1..][i - 1];
    } else {
      k := 0;
    }
  }

  lemma {:induction false} TrimRightCut(p: char -> bool, s: string) returns (k: nat)
    ensures k <= |s| && TrimRight(p, s) == s[..k] && All(p, s, k, |s|) && (k > 0 ==> !p(s[k - 1]))
  {
    if s != [] && p(s[|s| - 1]) {
      k := TrimRightCut(p, s[..|s| - 1]);
      assert s[..|s| - 1][..k] == s[..k];
      assert forall i: int | 0 <= i < |s| - 1 :: s[i] == s[..|s| - 1][i];
    } else {
      k := |s|;
    }
  }

  /** Trim cuts a p-only prefix and a p-only suffix and leaves bare ends. */
  lemma TrimCut(p: char -> bool, s: string) returns (lo: nat, hi: nat)
    ensures lo <= hi <= |s| && Trim(p, s) == s[lo..hi]
    ensures All(p, s, 0, lo) && All(p, s, hi, |s|)
    ensures BareEnds(p, Trim(p, s))
  {
    lo := TrimLeftCut(p, s);
    var k := TrimRightCut(p, s[lo..]);
    hi := lo + k;
    assert s[lo..][..k] == s[lo..hi];
    assert forall i: int | lo <= i < |s| :: s[i] == s[lo..][i - lo];
  }

  lemma TrimBare(p: char -> bool, s: string)
    requires BareEnds(p, s)
    ensures Trim(p, s) == s
  {
  }

  lemma TrimTrim(p: char -> bool, s: string)
    ensures Trim(p, Trim(p, s)) == Trim(p, s)
  {
    var lo, hi := TrimCut(p, s);
    TrimBare(p, Trim(p, s));
  }

  lemma AllTrimmed(s: string)
    ensures TrimSpace(TrimSpace(s)) == TrimSpace(s)
  {
    TrimTrim(IsSpace, s);
  }

  lemma BlankTrims(s: string)
    ensures Blank(s) <==> TrimSpace(s) == ""
  {
    var lo, hi := TrimCut(IsSpace, s);
    if TrimSpace(s) != "" {
      assert TrimSpace(s)[0] == s[lo];
    }
  }

  /** Trimming text that is not blank leaves text that is not blank. */
  lemma TrimNotBlank(s: string)
    ensures Blank(TrimSpace(s)) <==> Blank(s)
  {
    TrimTrim(IsSpace, s);
    BlankTrims(s);
    BlankTrims(TrimSpace(s));
  }

  lemma NotBlank(s: string, i: nat)
    requires i < |s| && !IsSpace(s[i])
    ensures !Blank(s)
  {
  }

  // ---------------------------------------------------------------- what these functions do to a text

  /** The white space of ASCII, and the upper-case letters by their places in the alphabet. */
  lemma CharactersMeaning(c: char)
    ensures IsSpace(c) <==> c in {' ', '\t', '\n', '\U{000B}', '\U{000C}', '\r'}
    ensures forall k: nat | k < 26 && c == "ABCDEFGHIJKLMNOPQRSTUVWXYZ"[k] ::
              LowerChar(c) == "abcdefghijklmnopqrstuvwxyz"[k]
    ensures c !in "ABCDEFGHIJKLMNOPQRSTUVWXYZ" ==> LowerChar(c) == c
  {
    AlphabetInOrder();
    if 'A' <= c <= 'Z' {
      assert "ABCDEFGHIJKLMNOPQRSTUVWXYZ"[c as int - 'A' as int] == c;
    }
  }

  lemma AlphabetInOrder()
    ensures var upper, lower := "ABCDEFGHIJKLMNOPQRSTUVWXYZ", "abcdefghijklmnopqrstuvwxyz";
            |upper| == 26 && |lower| == 26
            && forall k: nat | k < 26 :: upper[k] as int == 'A' as int + k && lower[k] as int == 'a' as int + k
  {
  }

  // ---------------------------------------------------------------- order

  /** Go compares strings by bytes. */
  predicate StringLe(a: string, b: string) {
    a == [] || (b != [] && (a[0] < b[0] || (a[0] == b[0] && StringLe(a[1..], b[1..]))))
  }

  predicate StringLt(a: string, b: string) {
    StringLe(a, b) && a != b
  }

  /** b has the larger character at the first place where the two differ. */
  predicate DiffersAt(a: string, b: string, k: nat) {
    k < |a| && k < |b| && a[..k] == b[..k] && a[k] < b[k]
  }

  lemma DiffersTail(a: string, b: string, k: nat)
    requires a != [] && b != [] && a[0] == b[0]
    ensures DiffersAt(a[1..], b[1..], k) <==> DiffersAt(a, b, k + 1)
  {
    if k + 1 < |a| && k + 1 < |b| {
      assert a[..k + 1] == [a[0]] + a[1..][..k] && b[..k + 1] == [b[0]] + b[1..][..k];
    }
  }

  lemma DiffersStart(a: string, b: string, k: nat)
    requires k > 0
    ensures DiffersAt(a, b, k) ==> a[0] == b[0]
  {
    if DiffersAt(a, b, k) {
      assert a[..k][0] == b[..k][0];
    }
  }

  /** A prefix goes first, otherwise the first character that differs decides. */
  lemma {:induction false} StringOrder(a: string, b: string)
    ensures StringLe(a, b) <==> a <= b || exists k: nat :: DiffersAt(a, b, k)
  {
    if a != [] && b != [] {
      if a[0] == b[0] {
        StringOrder(a[1..], b[1..]);
        forall k: nat {
          DiffersTail(a, b, k);
        }
        assert !DiffersAt(a, b, 0);
        assert a == [a[0]] + a[1..] && b == [b[0]] + b[1..];
        if k: nat :| DiffersAt(a, b, k) {
          assert DiffersAt(a[1..], b[1..], k - 1);
        }
      } else {
        assert a[..0] == b[..0] && (DiffersAt(a, b, 0) <==> a[0] < b[0]);
        forall k: nat | k > 0 {
          DiffersStart(a, b, k);
        }
      }
    }
  }

  lemma {:induction false} StringLeTotal(a: string, b: string)
    ensures StringLe(a, b) || StringLe(b, a)
  {
    if a != [] && b != [] && a[0] == b[0] {
      StringLeTotal(a[1..], b[1..]);
    }
  }

  lemma {:induction false} StringLeAntisymmetric(a: string, b: string)
    requires StringLe(a, b) && StringLe(b, a)
    ensures a == b
  {
    if a != [] {
      StringLeAntisymmetric(a[1..], b[1..]);
      assert a == [a[0]] + a[1..] && b == [b[0]] + b[1..];
    }
  }

  lemma {:induction false} StringLeTransitive(a: string, b: string, c: string)
    requires StringLe(a, b) && StringLe(b, c)
    ensures StringLe(a, c)
  {
    if a != [] && a[0] == b[0] == c[0] {
      StringLeTransitive(a[1..], b[1..], c[1..]);
    }
  }

  // ---------------------------------------------------------------- substrings

  predicate HasPrefix(s: string, prefix: string) {
    prefix <= s
  }

  predicate HasAnyPrefix(s: string, prefixes: seq<string>) {
    exists p | p in prefixes :: HasPrefix(s, p)
  }

  /** How every store tests a text field against a filter: blank means any, case does not count. */
  predicate FieldMatches(wanted: string, actual: string) {
    TrimSpace(wanted) == "" || EqualFold(TrimSpace(actual), TrimSpace(wanted))
  }

  predicate Contains(s: string, needle: string) {
    needle <= s || (s != [] && Contains(s[1..], needle))
  }

  predicate OccursAt(s: string, needle: string, i: nat) {
    i + |needle| <= |s| && s[i..i + |needle|] == needle
  }

  /** A text contains another where it occurs as a stretch. */
  lemma {:induction false} ContainsMeaning(s: string, needle: string)
    ensures Contains(s, needle) <==> exists i: nat :: OccursAt(s, needle, i)
  {
    if needle <= s {
      assert OccursAt(s, needle, 0);
    } else if s != [] {
      ContainsMeaning(s[1..], needle);
      forall i: nat | i + |needle| <= |s| - 1
        ensures OccursAt(s[1..], needle, i) <==> OccursAt(s, needle, i + 1)
      {
        SliceOfSlice(s, 1, |s|, i, i + |needle|);
      }
      if i: nat :| OccursAt(s, needle, i) {
        assert i > 0 && OccursAt(s[1..], needle, i - 1);
      }
    }
  }

  /** strings.Join with a space. */
  function JoinSpace(values: seq<string>): string {
    if values == [] then ""
    else if |values| == 1 then values[0]
    else values[0] + [' '] + JoinSpace(values[1..])
  }

  predicate IsDash(c: char) {
    c == '-'
  }

  function ReplaceOthers(keeps: char -> bool, s: string): (r: string)
    ensures |r| == |s| && forall i: nat | i < |s| :: r[i] == if keeps(s[i]) then s[i] else '-'
  {
    seq(|s|, (i: nat) requires i < |s| => if keeps(s[i]) then s[i] else '-')
  }

  /** How watcher keys and ids are made of free text; keeps says which characters stay. */
  function Sanitize(keeps: char -> bool, value: string): string {
    var low := TrimSpace(Lower(value));
    if low == "" then "" else Trim(IsDash, ReplaceOthers(keeps, low))
  }

  /** The character in lower case, or a dash in its place. */
  function Dashed(keeps: char -> bool, c: char): char {
    if keeps(LowerChar(c)) then LowerChar(c) else '-'
  }

  /**
   * part is a stretch of value with a dash for every character that is not
   * kept, from the first to the last place where that gives no dash.
   */
  ghost predicate Sanitized(keeps: char -> bool, value: string, part: string) {
    exists lo: nat, hi: nat :: SanitizedAt(keeps, value, part, lo, hi)
  }

  predicate SanitizedAt(keeps: char -> bool, value: string, part: string, lo: nat, hi: nat) {
    && lo <= hi <= |value| && |part| == hi - lo && BareEnds(IsDash, part)
    && (forall i: nat | i < |part| :: part[i] == Dashed(keeps, value[lo + i]))
    && (forall i: nat | i < |value| && !(lo <= i < hi) :: Dashed(keeps, value[i]) == '-')
  }

  lemma SanitizeMeaning(keeps: char -> bool, value: string)
    requires forall c | IsSpace(c) :: !keeps(c)
    ensures Sanitized(keeps, value, Sanitize(keeps, value))
  {
    hide TrimSpace, Trim, SanitizedAt;
    var lo, hi := TrimCut(IsSpace, Lower(value));
    TrimmedText(Lower(value));
    var low := Lower(value)[lo..hi];
    var a, b := TrimCut(IsDash, ReplaceOthers(keeps, low));
    SanitizedCut(keeps, value, lo, hi, a, b);
    if low == "" {
      assert ReplaceOthers(keeps, low) == "";
    }
    assert Sanitize(keeps, value) == ReplaceOthers(keeps, low)[a..b];
  }

  lemma TrimmedText(s: string)
    ensures TrimSpace(s) == Trim(IsSpace, s)
  {
  }

  lemma SanitizedCut(keeps: char -> bool, value: string, lo: nat, hi: nat, a: nat, b: nat)
    requires forall c | IsSpace(c) :: !keeps(c)
    requires lo <= hi <= |value| && a <= b <= hi - lo
    requires All(IsSpace, Lower(value), 0, lo) && All(IsSpace, Lower(value), hi, |value|)
    requires var replaced := ReplaceOthers(keeps, Lower(value)[lo..hi]);
             && All(IsDash, replaced, 0, a) && All(IsDash, replaced, b, |replaced|) && BareEnds(IsDash, replaced[a..b])
    ensures SanitizedAt(keeps, value, ReplaceOthers(keeps, Lower(value)[lo..hi])[a..b], lo + a, lo + b)
  {
    hide IsSpace, LowerChar;
    var low := Lower(value)[lo..hi];
    var replaced := ReplaceOthers(keeps, low);
    assert forall i: nat | i < |low| :: low[i] == LowerChar(value[lo + i]);
    assert forall i: nat | i < |low| :: replaced[i] == Dashed(keeps, value[lo + i]);
    forall i: nat | i < |value| && !(lo + a <= i < lo + b)
      ensures Dashed(keeps, value[i]) == '-'
    {
      if lo <= i < hi {
        assert IsDash(replaced[i - lo]);
      } else {
        assert IsSpace(Lower(value)[i]);
      }
    }
  }

  lemma SanitizedChars(keeps: char -> bool, value: string)
    ensures forall i: nat | i < |Sanitize(keeps, value)| ::
              keeps(Sanitize(keeps, value)[i]) || Sanitize(keeps, value)[i] == '-'
  {
    var low := TrimSpace(Lower(value));
    if low != "" {
      var lo, hi := TrimCut(IsDash, ReplaceOthers(keeps, low));
    }
  }

  predicate NoColon(s: string) {
    forall i: nat | i < |s| :: s[i] != ':'
  }

  /** A first part without a colon can be read off the joined text. */
  lemma FirstColon(a: string, x: string, b: string, y: string)
    requires NoColon(a) && NoColon(b)
    requires a + [':'] + x == b + [':'] + y
    ensures a == b && x == y
  {
    var s := a + [':'] + x;
    assert s[|a|] == ':' && s[|b|] == ':';
    assert forall i: nat | i < |a| :: s[i] == a[i];
    assert forall i: nat | i < |b| :: s[i] == b[i];
    assert |a| == |b|;
    assert a == s[..|a|] && b == s[..|b|];
    assert x == s[|a| + 1..] && y == s[|b| + 1..];
  }
}
