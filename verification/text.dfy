/** ASCII models of the Python string operations the pipeline uses: the
    regex classes `\d` and `\w`, `str.lower`, `str.strip`, `str.replace(' ', '')`,
    decimal rendering, the search for a run of digits, and the substitution
    `re.sub(r'\.0\b', '', s)` that removes float artefacts from addresses. */
module Text {
  import opened Common

  predicate IsDigit(c: char) { '0' <= c <= '9' }
  predicate IsUpper(c: char) { 'A' <= c <= 'Z' }
  predicate IsLower(c: char) { 'a' <= c <= 'z' }

  /** The regex class `\w` on ASCII: letters, digits and underscore. */
  predicate IsWordChar(c: char) { IsDigit(c) || IsUpper(c) || IsLower(c) || c == '_' }

  /** `str.isspace` on ASCII: space, \t \n \v \f \r and the separators 0x1c-0x1f. */
  predicate IsSpace(c: char) {
    c == ' ' || 9 <= c as int <= 13 || 28 <= c as int <= 31
  }

  predicate AllDigits(s: string) { forall i :: 0 <= i < |s| ==> IsDigit(s[i]) }

  predicate NoUpper(s: string) { forall i :: 0 <= i < |s| ==> !IsUpper(s[i]) }

  function LowerChar(c: char): (d: char)
    ensures !IsUpper(d)
    ensures IsUpper(c) ==> IsLower(d)
    ensures !IsUpper(c) ==> d == c
  {
    if IsUpper(c) then (c as int + 32) as char else c
  }

  /** `str.lower` on ASCII. */
  function Lower(s: string): (r: string)
    ensures |r| == |s| && NoUpper(r)
    ensures forall i :: 0 <= i < |s| ==> r[i] == LowerChar(s[i])
  {
    seq(|s|, i requires 0 <= i < |s| => LowerChar(s[i]))
  }

  lemma LowerIdentity(s: string)
    requires NoUpper(s)
    ensures Lower(s) == s
  {
  }

  lemma LowerIdempotent(s: string)
    ensures Lower(Lower(s)) == Lower(s)
  {
    LowerIdentity(Lower(s));
  }

  /** `str.replace(' ', '')`. */
  function RemoveSpaces(s: string): (r: string)
    ensures |r| <= |s|
    ensures forall i :: 0 <= i < |r| ==> r[i] != ' '
    ensures forall c :: c in r <==> c in s && c != ' '
    decreases |s|
  {
    if s == [] then []
    else
      assert forall c :: c in s <==> c == s[0] || c in s[1..] by {
        assert s == [s[0]] + s[1..];
      }
      if s[0] == ' ' then RemoveSpaces(s[1..])
      else [s[0]] + RemoveSpaces(s[1..])
  }

  /** `replace(' ', '')` works piece by piece: it distributes over `+`. */
  lemma {:induction false} RemoveSpacesAppend(a: string, b: string)
    ensures RemoveSpaces(a + b) == RemoveSpaces(a) + RemoveSpaces(b)
    decreases |a|
  {
    if a != [] {
      assert (a + b)[0] == a[0] && (a + b)[1..] == a[1..] + b;
      RemoveSpacesAppend(a[1..], b);
    } else {
      assert a + b == b;
    }
  }

  /** On one character it drops a space and keeps anything else. */
  lemma RemoveSpacesChar(c: char)
    ensures RemoveSpaces([c]) == if c == ' ' then [] else [c]
  {
    assert [c][1..] == [];
  }

  /** One space between two space-free texts is all that is removed. */
  lemma RemoveInnerSpace(a: string, b: string)
    requires forall i :: 0 <= i < |a| ==> a[i] != ' '
    requires forall i :: 0 <= i < |b| ==> b[i] != ' '
    ensures RemoveSpaces(a + " " + b) == a + b
  {
    RemoveSpacesAppend(a, " " + b);
    RemoveSpacesAppend(" ", b);
    RemoveSpacesChar(' ');
    assert a + " " + b == a + (" " + b);
    RemoveSpacesIdentity(a);
    RemoveSpacesIdentity(b);
  }

  lemma {:induction false} RemoveSpacesIdentity(s: string)
    requires forall i :: 0 <= i < |s| ==> s[i] != ' '
    ensures RemoveSpaces(s) == s
    decreases |s|
  {
    if s != [] {
      RemoveSpacesIdentity(s[1..]);
    }
  }

  /** Removing spaces introduces no upper-case letter. */
  lemma RemoveSpacesNoUpper(s: string)
    requires NoUpper(s)
    ensures NoUpper(RemoveSpaces(s))
  {
    var r := RemoveSpaces(s);
    forall i | 0 <= i < |r| ensures !IsUpper(r[i]) {
      assert r[i] in r;
    }
  }

  /** A non-space first character survives the removal of spaces. */
  lemma {:induction false} RemoveSpacesKeepsEnds(s: string)
    requires s != [] && s[0] != ' ' && s[|s| - 1] != ' '
    ensures var r := RemoveSpaces(s); r != [] && r[0] == s[0] && r[|r| - 1] == s[|s| - 1]
    decreases |s|
  {
    if |s| > 1 {
      var t := s[1..];
      if t[0] == ' ' {
        assert t[1..] != [] && t[|t| - 1] == s[|s| - 1];
        RemoveSpacesTail(t);
      } else {
        RemoveSpacesKeepsEnds(t);
      }
    }
  }

  /** The last non-space character of a string is the last character after removing spaces. */
  lemma {:induction false} RemoveSpacesTail(s: string)
    requires s != [] && s[|s| - 1] != ' '
    ensures var r := RemoveSpaces(s); r != [] && r[|r| - 1] == s[|s| - 1]
    decreases |s|
  {
    if |s| > 1 {
      RemoveSpacesTail(s[1..]);
    }
  }

  function StripStart(s: string): (r: string)
    ensures |r| <= |s| && r == s[|s| - |r|..]
    ensures forall i :: 0 <= i < |s| - |r| ==> IsSpace(s[i])
    ensures r == [] || !IsSpace(r[0])
    decreases |s|
  {
    if s != [] && IsSpace(s[0]) then
      var r := StripStart(s[1..]);
      assert forall i :: 1 <= i < |s| ==> s[i] == s[1..][i - 1];
      r
    else s
  }

  function StripEnd(s: string): (r: string)
    ensures |r| <= |s| && r == s[..|r|]
    ensures forall i :: |r| <= i < |s| ==> IsSpace(s[i])
    ensures r == [] || !IsSpace(r[|r| - 1])
    decreases |s|
  {
    if s != [] && IsSpace(s[|s| - 1]) then StripEnd(s[..|s| - 1]) else s
  }

  /** `r` is `s[i..j]`, and everything cut off before `i` and after `j` is whitespace. */
  predicate TrimmedTo(s: string, r: string, i: nat, j: nat) {
    i <= j <= |s| && r == s[i..j]
    && (forall k :: 0 <= k < i ==> IsSpace(s[k]))
    && (forall k :: j <= k < |s| ==> IsSpace(s[k]))
  }

  /** `str.strip()` with no argument, on ASCII whitespace. */
  function Strip(s: string): (r: string)
    ensures r == [] || (!IsSpace(r[0]) && !IsSpace(r[|r| - 1]))
  {
    StripEnd(StripStart(s))
  }

  /** `strip()` cuts the input to a slice, and only whitespace is cut off at
      either end. */
  lemma StripTrims(s: string)
    ensures exists i: nat, j: nat :: TrimmedTo(s, Strip(s), i, j)
  {
    var t := StripStart(s);
    var r := StripEnd(t);
    TrimmedBoth(s, t, r);
    assert TrimmedTo(s, Strip(s), |s| - |t|, |s| - |t| + |r|);
  }

  /** Cutting whitespace from the front of `s` to get `t`, then from the back
      of `t` to get `r`, trims `s` to `r`. */
  lemma TrimmedBoth(s: string, t: string, r: string)
    requires |t| <= |s| && t == s[|s| - |t|..] && forall k :: 0 <= k < |s| - |t| ==> IsSpace(s[k])
    requires |r| <= |t| && r == t[..|r|] && forall k :: |r| <= k < |t| ==> IsSpace(t[k])
    ensures TrimmedTo(s, r, |s| - |t|, |s| - |t| + |r|)
  {
    var i := |s| - |t|;
    assert forall k :: 0 <= k < |t| ==> t[k] == s[i + k];
  }

  /** A string without whitespace at either end is its own strip. */
  lemma StripIdentity(s: string)
    requires s == [] || (!IsSpace(s[0]) && !IsSpace(s[|s| - 1]))
    ensures Strip(s) == s
  {
  }

  // ---------------------------------------------------------------- decimal

  function DigitValue(c: char): nat
    requires IsDigit(c)
  {
    c as int - '0' as int
  }

  function DigitChar(d: nat): (c: char)
    requires d < 10
    ensures IsDigit(c) && DigitValue(c) == d
  {
    ('0' as int + d) as char
  }

  /** `int(s)` of a string of decimal digits (leading zeros allowed). */
  function DecimalValue(s: string): nat
    requires AllDigits(s)
  {
    if s == [] then 0 else DecimalValue(s[..|s| - 1]) * 10 + DigitValue(s[|s| - 1])
  }

  /** `str(n)` of a non-negative integer. */
  function NatToString(n: nat): (s: string)
    ensures s != [] && AllDigits(s)
  {
    if n < 10 then [DigitChar(n)] else NatToString(n / 10) + [DigitChar(n % 10)]
  }

  lemma {:induction false} NatToStringRoundTrip(n: nat)
    ensures DecimalValue(NatToString(n)) == n
  {
    if n >= 10 {
      var s := NatToString(n);
      assert s[..|s| - 1] == NatToString(n / 10);
      NatToStringRoundTrip(n / 10);
    }
  }

  // ------------------------------------------------------------ digit runs

  /** The end of the run of digits that starts at `i`. */
  function RunEnd(s: string, i: nat): (j: nat)
    requires i <= |s|
    ensures i <= j <= |s|
    ensures forall k :: i <= k < j ==> IsDigit(s[k])
    ensures j == |s| || !IsDigit(s[j])
    decreases |s| - i
  {
    if i < |s| && IsDigit(s[i]) then RunEnd(s, i + 1) else i
  }

  /** The index of the first digit at or after `i`, or `|s|` when there is none. */
  function NextDigit(s: string, i: nat): (k: nat)
    requires i <= |s|
    ensures i <= k <= |s|
    ensures forall m :: i <= m < k ==> !IsDigit(s[m])
    ensures k == |s| || IsDigit(s[k])
    decreases |s| - i
  {
    if i == |s| || IsDigit(s[i]) then i else NextDigit(s, i + 1)
  }

  /** `s[k..j]` is the leftmost maximal run of digits in `s`. */
  predicate LeftmostDigitRun(s: string, k: int, j: int) {
    0 <= k < j <= |s|
    && (forall m :: 0 <= m < k ==> !IsDigit(s[m]))
    && (forall m :: k <= m < j ==> IsDigit(s[m]))
    && (j == |s| || !IsDigit(s[j]))
  }

  /** `re.search(r'(\d+)', s)`: the first run of digits, greedy, anywhere in `s`. */
  function FirstDigitRun(s: string): (r: Option<string>)
    ensures r.None? <==> forall m :: 0 <= m < |s| ==> !IsDigit(s[m])
    ensures r.Some? ==> exists k, j :: LeftmostDigitRun(s, k, j) && r.value == s[k..j]
  {
    var k := NextDigit(s, 0);
    if k == |s| then None
    else
      var j := RunEnd(s, k);
      assert LeftmostDigitRun(s, k, j);
      Some(s[k..j])
  }

  // ----------------------------------------------- the `\.0\b` substitution

  /** The pattern `\.0\b` matches at `i`: a dot, a zero, then no word character. */
  predicate DotZeroAt(s: string, i: int) {
    0 <= i && i + 1 < |s| && s[i] == '.' && s[i + 1] == '0'
    && (i + 2 == |s| || !IsWordChar(s[i + 2]))
  }

  /** `re.sub(r'\.0\b', '', s)`: scan left to right, drop each match, resume after it. */
  function StripDotZero(s: string): (r: string)
    ensures |r| <= |s|
    decreases |s|
  {
    if s == [] then []
    else if DotZeroAt(s, 0) then StripDotZero(s[2..])
    else [s[0]] + StripDotZero(s[1..])
  }

  /** What the result starts with: the first character when no match starts the
      string, otherwise the character after a match, which is never a word character. */
  lemma {:induction false} StripDotZeroHead(s: string)
    ensures var r := StripDotZero(s);
      r != [] ==> if DotZeroAt(s, 0) then !IsWordChar(r[0]) else r[0] == s[0]
    ensures s != [] && !DotZeroAt(s, 0) ==> StripDotZero(s) != []
    decreases |s|
  {
    if s != [] && DotZeroAt(s, 0) && |s| > 2 {
      StripDotZeroHead(s[2..]);
    }
  }

  /** After the substitution no match of `\.0\b` is left. */
  lemma {:induction false} StripDotZeroLeavesNoMatch(s: string)
    ensures forall i :: !DotZeroAt(StripDotZero(s), i)
    decreases |s|
  {
    if s == [] {
    } else if DotZeroAt(s, 0) {
      StripDotZeroLeavesNoMatch(s[2..]);
    } else {
      var t := StripDotZero(s[1..]);
      var r := StripDotZero(s);
      assert r == [s[0]] + t;
      StripDotZeroLeavesNoMatch(s[1..]);
      forall i | 1 <= i
        ensures !DotZeroAt(r, i)
      {
        assert DotZeroAt(r, i) ==> DotZeroAt(t, i - 1);
      }
      if DotZeroAt(r, 0) {
        // r = "." + t with t starting "0" and no word character after it.
        StripDotZeroHead(s[1..]);
        assert !DotZeroAt(s[1..], 0) && s[1] == '0';
        assert |s| > 2 && IsWordChar(s[2]);
        var u := s[2..];
        assert !DotZeroAt(u, 0);
        StripDotZeroHead(u);
        assert false;
      }
    }
  }

  lemma {:induction false} StripDotZeroIdentity(s: string)
    requires forall i :: !DotZeroAt(s, i)
    ensures StripDotZero(s) == s
    decreases |s|
  {
    if s != [] {
      forall i ensures !DotZeroAt(s[1..], i) {
        assert DotZeroAt(s[1..], i) ==> DotZeroAt(s, i + 1);
      }
      StripDotZeroIdentity(s[1..]);
    }
  }

  /** Stripping `.0` artefacts twice is the same as stripping them once. */
  lemma StripDotZeroIdempotent(s: string)
    ensures StripDotZero(StripDotZero(s)) == StripDotZero(s)
  {
    StripDotZeroLeavesNoMatch(s);
    StripDotZeroIdentity(StripDotZero(s));
  }

  /** Text without a dot holds no match, so the substitution passes over it. */
  lemma {:induction false} StripDotZeroSkipsDotless(d: string, t: string)
    requires forall i :: 0 <= i < |d| ==> d[i] != '.'
    ensures StripDotZero(d + t) == d + StripDotZero(t)
    decreases |d|
  {
    if d != [] {
      assert (d + t)[0] == d[0] && !DotZeroAt(d + t, 0);
      assert (d + t)[1..] == d[1..] + t;
      StripDotZeroSkipsDotless(d[1..], t);
      assert [d[0]] + d[1..] == d;
    } else {
      assert d + t == t;
    }
  }
}
