/** The JavaScript string operations the scripts rely on, on `seq<char>`:
    `includes`, the first-occurrence `replace` with a string pattern,
    `substring(0, n)` and the decimal rendering of an integer in a template. */
module Text {
  import opened Wrappers

  /** `p` occurs in `s` starting at index `k`. */
  predicate OccursAt(s: string, p: string, k: nat)
  {
    k + |p| <= |s| && s[k..k + |p|] == p
  }

  lemma TailOccurrences(s: string, p: string)
    requires |s| > 0
    ensures forall j: nat :: 0 < j ==> OccursAt(s, p, j) == OccursAt(s[1..], p, j - 1)
  {
    forall j: nat | 0 < j
      ensures OccursAt(s, p, j) == OccursAt(s[1..], p, j - 1)
    {
      if j + |p| <= |s| {
        assert s[1..][j - 1..j - 1 + |p|] == s[j..j + |p|];
      }
    }
  }

  /** The least index at which `p` occurs in `s` (what `s.indexOf(p)` finds), if any. */
  function IndexOf(s: string, p: string): (r: Option<nat>)
    ensures r.Some? ==> OccursAt(s, p, r.value)
    ensures r.Some? ==> forall j: nat :: j < r.value ==> !OccursAt(s, p, j)
    ensures r.None? ==> forall j: nat :: !OccursAt(s, p, j)
    decreases |s|
  {
    if OccursAt(s, p, 0) then Some(0)
    else if |s| == 0 then None
    else
      TailOccurrences(s, p);
      match IndexOf(s[1..], p)
      case None => None
      case Some(k) => Some(k + 1)
  }

  /** `s.includes(p)`. */
  predicate Contains(s: string, p: string)
    ensures Contains(s, p) <==> exists k: nat :: OccursAt(s, p, k)
  {
    IndexOf(s, p).Some?
  }

  /** Every character of an occurring pattern appears in the text. */
  lemma OccurrenceCharsIn(s: string, pat: string, k: nat)
    requires OccursAt(s, pat, k)
    ensures forall i :: 0 <= i < |pat| ==> pat[i] in s
  {
    forall i | 0 <= i < |pat|
      ensures pat[i] in s
    {
      assert s[k..k + |pat|][i] == s[k + i];
    }
  }

  /** A pattern holding a character the text lacks does not occur in it. */
  lemma MissingCharRulesOut(s: string, pat: string, c: char)
    requires c in pat && c !in s
    ensures !Contains(s, pat)
  {
    if Contains(s, pat) {
      var k: nat :| OccursAt(s, pat, k);
      OccurrenceCharsIn(s, pat, k);
    }
  }

  /** `s.replace(pat, rep)` with a string pattern: only the first occurrence is replaced. */
  function ReplaceFirst(s: string, pat: string, rep: string): (r: string)
    ensures !Contains(s, pat) ==> r == s
    ensures Contains(s, pat) ==> |r| == |s| - |pat| + |rep|
  {
    match IndexOf(s, pat)
    case None => s
    case Some(k) => s[..k] + rep + s[k + |pat|..]
  }

  /** Replacing the first occurrence keeps everything before it, puts `rep`
      in its place and keeps everything after it verbatim, later occurrences
      of `pat` included. */
  lemma ReplaceFirstOnlyFirst(s: string, pat: string, rep: string, k: nat)
    requires OccursAt(s, pat, k)
    requires forall j: nat :: j < k ==> !OccursAt(s, pat, j)
    ensures |ReplaceFirst(s, pat, rep)| == |s| - |pat| + |rep|
    ensures ReplaceFirst(s, pat, rep)[..k] == s[..k]
    ensures ReplaceFirst(s, pat, rep)[k..k + |rep|] == rep
    ensures ReplaceFirst(s, pat, rep)[k + |rep|..] == s[k + |pat|..]
  {
    var r := ReplaceFirst(s, pat, rep);
    assert IndexOf(s, pat) == Some(k);
    assert r == s[..k] + rep + s[k + |pat|..];
  }

  /** With a non-empty pattern and a non-empty replacement the result is
      empty exactly when the input is. */
  lemma ReplaceFirstEmpty(s: string, pat: string, rep: string)
    requires pat != "" && rep != ""
    ensures ReplaceFirst(s, pat, rep) == "" <==> s == ""
  {
    match IndexOf(s, pat)
    case None =>
    case Some(k) =>
      assert |s[..k] + rep + s[k + |pat|..]| >= |rep| > 0;
  }

  /** `s.substring(0, n)`: the longest prefix of `s` no longer than `n`. */
  function Take(s: string, n: nat): (r: string)
    ensures r <= s
    ensures |r| <= n
    ensures |s| <= n ==> r == s
    ensures |r| == if |s| <= n then |s| else n
  {
    if |s| <= n then s else s[..n]
  }

  predicate IsDigit(c: char)
  {
    '0' <= c <= '9'
  }

  function DigitChar(d: nat): (c: char)
    requires d < 10
    ensures IsDigit(c)
  {
    ['0', '1', '2', '3', '4', '5', '6', '7', '8', '9'][d]
  }

  function DigitValue(c: char): nat
    requires IsDigit(c)
  {
    (c as int - '0' as int) as nat
  }

  /** The decimal text of `n`, as a template literal renders a non-negative integer. */
  function NatToString(n: nat): (r: string)
    ensures |r| >= 1
    ensures forall i :: 0 <= i < |r| ==> IsDigit(r[i])
  {
    if n < 10 then [DigitChar(n)]
    else NatToString(n / 10) + [DigitChar(n % 10)]
  }

  /** The number a string of decimal digits denotes. */
  function DecimalValue(s: string): nat
    requires forall i :: 0 <= i < |s| ==> IsDigit(s[i])
  {
    if s == [] then 0
    else DecimalValue(s[..|s| - 1]) * 10 + DigitValue(s[|s| - 1])
  }

  /** Reading back the rendered digits gives the number: the rendering loses nothing. */
  lemma {:induction false} NatToStringRoundTrip(n: nat)
    ensures DecimalValue(NatToString(n)) == n
  {
    var s := NatToString(n);
    if n < 10 {
      assert s[..|s| - 1] == [];
    } else {
      NatToStringRoundTrip(n / 10);
      assert s[..|s| - 1] == NatToString(n / 10);
      assert DigitValue(DigitChar(n % 10)) == n % 10;
    }
  }
}
