/**
 * String helpers standing in for the Python string methods the source uses:
 * `str.strip`, `str.upper`, Django's `get_full_name`, case-insensitive
 * `icontains`, the `\d+` scan and `strftime('%H:%M')`. Only ASCII letters,
 * ASCII digits and ASCII whitespace are given their Python meaning.
 */
module Text {
  import opened Base

  /** The characters below 128 for which Python's `str.isspace` holds. */
  predicate IsSpace(c: char) {
    c == ' ' || ('\t' <= c <= '\r') || ('\U{1C}' <= c <= '\U{1F}')
  }

  predicate IsDigit(c: char) {
    '0' <= c <= '9'
  }

  function StripLeft(s: string): (r: string)
    ensures |r| <= |s| && r == s[|s| - |r|..]
    ensures r != [] ==> !IsSpace(r[0])
  {
    if |s| > 0 && IsSpace(s[0]) then StripLeft(s[1..]) else s
  }

  /** Only whitespace is dropped on the left. */
  lemma {:induction false} StripLeftDropsSpace(s: string)
    ensures forall i :: 0 <= i < |s| - |StripLeft(s)| ==> IsSpace(s[i])
  {
    if |s| > 0 && IsSpace(s[0]) {
      StripLeftDropsSpace(s[1..]);
      forall i | 1 <= i < |s| - |StripLeft(s)| ensures IsSpace(s[i]) {
        assert s[i] == s[1..][i - 1];
      }
    }
  }

  function StripRight(s: string): (r: string)
    ensures |r| <= |s| && r == s[..|r|]
    ensures r != [] ==> !IsSpace(r[|r| - 1])
  {
    if |s| > 0 && IsSpace(s[|s| - 1]) then StripRight(s[..|s| - 1]) else s
  }

  /** Only whitespace is dropped on the right. */
  lemma {:induction false} StripRightDropsSpace(s: string)
    ensures forall i :: |StripRight(s)| <= i < |s| ==> IsSpace(s[i])
  {
    if |s| > 0 && IsSpace(s[|s| - 1]) {
      StripRightDropsSpace(s[..|s| - 1]);
      forall i | |StripRight(s)| <= i < |s| - 1 ensures IsSpace(s[i]) {
        assert s[i] == s[..|s| - 1][i];
      }
    }
  }

  /** Python's `s.strip()`: drop leading and trailing whitespace. */
  function Strip(s: string): (r: string)
    ensures |r| <= |s|
    ensures r != [] ==> !IsSpace(r[0]) && !IsSpace(r[|r| - 1])
  {
    StripRight(StripLeft(s))
  }

  lemma {:induction false} StripLeftFixed(s: string)
    requires s == [] || !IsSpace(s[0])
    ensures StripLeft(s) == s
  {
  }

  lemma {:induction false} StripRightFixed(s: string)
    requires s == [] || !IsSpace(s[|s| - 1])
    ensures StripRight(s) == s
  {
  }

  /** Stripping twice is stripping once. */
  lemma StripIdempotent(s: string)
    ensures Strip(Strip(s)) == Strip(s)
  {
    var r := Strip(s);
    StripLeftFixed(r);
    StripRightFixed(r);
  }

  /** The stripped string is the original with only whitespace removed at both ends. */
  lemma {:induction false} StripIsInfix(s: string)
    ensures exists i, j ::
              && 0 <= i <= j <= |s| && Strip(s) == s[i..j]
              && (forall k :: 0 <= k < i ==> IsSpace(s[k]))
              && (forall k :: j <= k < |s| ==> IsSpace(s[k]))
  {
    var l := StripLeft(s);
    var i := |s| - |l|;
    var r := StripRight(l);
    StripLeftDropsSpace(s);
    StripRightDropsSpace(l);
    var j := i + |r|;
    assert Strip(s) == r;
    assert s[i..j] == l[..|r|];
    assert forall k :: 0 <= k < i ==> IsSpace(s[k]);
    forall k | j <= k < |s| ensures IsSpace(s[k]) {
      assert s[k] == l[k - i];
    }
    assert 0 <= i <= j <= |s| && Strip(s) == s[i..j];
  }

  function UpperChar(c: char): char {
    if 'a' <= c <= 'z' then (c as int - 32) as char else c
  }

  function LowerChar(c: char): char {
    if 'A' <= c <= 'Z' then (c as int + 32) as char else c
  }

  /** Python's `s.upper()` on ASCII letters; other characters are left as they are. */
  function ToUpper(s: string): (r: string)
    ensures |r| == |s|
    ensures forall i :: 0 <= i < |s| ==> r[i] == UpperChar(s[i])
  {
    seq(|s|, i requires 0 <= i < |s| => UpperChar(s[i]))
  }

  function ToLower(s: string): (r: string)
    ensures |r| == |s|
    ensures forall i :: 0 <= i < |s| ==> r[i] == LowerChar(s[i])
  {
    seq(|s|, i requires 0 <= i < |s| => LowerChar(s[i]))
  }

  /** Lower-casing a lower-cased string changes nothing. */
  lemma ToLowerIdempotent(s: string)
    ensures ToLower(ToLower(s)) == ToLower(s)
  {
  }

  /** Position of the last occurrence of `c` in `s`, or None when `c` does not occur. */
  function LastIndexOf(s: string, c: char): (r: Option<nat>)
    ensures r.None? <==> forall i :: 0 <= i < |s| ==> s[i] != c
    ensures r.Some? ==> r.value < |s| && s[r.value] == c && forall i :: r.value < i < |s| ==> s[i] != c
    decreases |s|
  {
    if s == [] then None
    else if s[|s| - 1] == c then Some(|s| - 1)
    else
      var front := s[..|s| - 1];
      assert forall i :: 0 <= i < |front| ==> front[i] == s[i];
      LastIndexOf(front, c)
  }

  /** The last occurrence is the occurrence with no other after it. */
  lemma LastIndexOfAt(s: string, c: char, k: nat)
    requires k < |s| && s[k] == c
    requires forall i :: k < i < |s| ==> s[i] != c
    ensures LastIndexOf(s, c) == Some(k)
  {
    assert LastIndexOf(s, c).Some?;
  }

  /** Upper-casing an upper-cased string changes nothing. */
  lemma ToUpperIdempotent(s: string)
    ensures ToUpper(ToUpper(s)) == ToUpper(s)
  {
  }

  /** An upper-cased string has no ASCII lower-case letter left. */
  lemma ToUpperHasNoLower(s: string)
    ensures forall i :: 0 <= i < |ToUpper(s)| ==> !('a' <= ToUpper(s)[i] <= 'z')
  {
  }

  predicate IsPrefix(p: string, s: string) {
    |p| <= |s| && s[..|p|] == p
  }

  /** `p` occurs in `s` starting at position `i`. */
  predicate OccursAt(s: string, p: string, i: nat) {
    i + |p| <= |s| && s[i..i + |p|] == p
  }

  /** Substring test, written as a scan over the start positions. */
  function ContainsFrom(s: string, p: string, k: nat): (b: bool)
    requires k <= |s|
    ensures b <==> exists i: nat :: k <= i && OccursAt(s, p, i)
    decreases |s| - k
  {
    if k + |p| > |s| then false
    else if OccursAt(s, p, k) then true
    else ContainsFrom(s, p, k + 1)
  }

  predicate Contains(s: string, p: string) {
    ContainsFrom(s, p, 0)
  }

  /** Django's `icontains` lookup: substring test after upper-casing both sides. */
  predicate ContainsIgnoreCase(s: string, p: string) {
    Contains(ToUpper(s), ToUpper(p))
  }

  /** Every string contains the empty string. */
  lemma ContainsEmpty(s: string)
    ensures Contains(s, [])
  {
    assert OccursAt(s, [], 0);
  }

  /** Django's `User.get_full_name()`: first and last name joined by a space, then stripped. */
  function FullName(first: string, last: string): string {
    Strip(first + " " + last)
  }

  /** Position of the first ASCII digit at or after `k`, or |s| when there is none. */
  function FirstDigitFrom(s: string, k: nat): (i: nat)
    requires k <= |s|
    ensures k <= i <= |s|
    ensures forall j :: k <= j < i ==> !IsDigit(s[j])
    ensures i < |s| ==> IsDigit(s[i])
    decreases |s| - k
  {
    if k == |s| || IsDigit(s[k]) then k else FirstDigitFrom(s, k + 1)
  }

  /** End of the run of digits starting at `k`. */
  function DigitRunEnd(s: string, k: nat): (j: nat)
    requires k <= |s|
    ensures k <= j <= |s|
    ensures forall m :: k <= m < j ==> IsDigit(s[m])
    ensures j < |s| ==> !IsDigit(s[j])
    decreases |s| - k
  {
    if k < |s| && IsDigit(s[k]) then DigitRunEnd(s, k + 1) else k
  }

  /**
   * The first element of Python's `re.findall(r'\d+', s)`: the first maximal run
   * of digits, or None when `s` holds no digit.
   */
  function FirstDigitRun(s: string): (r: Option<string>)
    ensures r.None? <==> forall i :: 0 <= i < |s| ==> !IsDigit(s[i])
    ensures r.Some? ==> exists i, j ::
              && 0 <= i < j <= |s| && r.value == s[i..j]
              && (forall m :: 0 <= m < i ==> !IsDigit(s[m]))
              && (forall m :: i <= m < j ==> IsDigit(s[m]))
              && (j == |s| || !IsDigit(s[j]))
  {
    var i := FirstDigitFrom(s, 0);
    if i == |s| then None
    else
      var j := DigitRunEnd(s, i);
      assert s[i..j] == s[i..j];
      Some(s[i..j])
  }

  function DigitChar(d: nat): char
    requires d < 10
  {
    ('0' as int + d) as char
  }

  /** The value of a decimal digit character. */
  function DigitValue(c: char): int {
    c as int - '0' as int
  }

  /** `strftime('%H:%M')` of a time of day given in minutes since midnight. */
  function FormatTime(m: nat): (r: string)
    requires m < 1440
    ensures |r| == 5 && r[2] == ':'
    ensures forall i :: 0 <= i < 5 && i != 2 ==> IsDigit(r[i])
    ensures DigitValue(r[0]) * 10 + DigitValue(r[1]) == m / 60
    ensures DigitValue(r[3]) * 10 + DigitValue(r[4]) == m % 60
  {
    var h, mm := m / 60, m % 60;
    [DigitChar(h / 10), DigitChar(h % 10), ':', DigitChar(mm / 10), DigitChar(mm % 10)]
  }
}
