/** Values and string operations shared by the modules of this model: the nullable wrapper
    that stands for Kotlin's `T?`, decimal rendering of numbers inside string templates,
    ASCII case folding, and Kotlin's literal (non-regex) `String.split`. */
module Common {

  /** Kotlin's nullable types: `null` is `None`. */
  datatype Option<T> = None | Some(value: T)

  // ---------------------------------------------------------------------------
  // Decimal rendering (`"$n"` in a Kotlin string template, for n >= 0)
  // ---------------------------------------------------------------------------

  function DigitChar(d: nat): (c: char)
    requires d < 10
    ensures '0' <= c <= '9'
    ensures c as int - '0' as int == d
  {
    ('0' as int + d) as char
  }

  /** The decimal digits of `n`, without sign or leading zeros. */
  function NatToString(n: nat): (s: string)
    ensures 0 < |s|
    ensures forall i :: 0 <= i < |s| ==> '0' <= s[i] <= '9'
    ensures n >= 10 ==> s[0] != '0'
    decreases n
  {
    if n < 10 then [DigitChar(n)] else NatToString(n / 10) + [DigitChar(n % 10)]
  }

  /** `"$n"` for any integer: a minus sign before the digits of a negative number. */
  function IntToString(n: int): (s: string)
    ensures 0 < |s|
    ensures n >= 0 ==> s == NatToString(n)
    ensures n < 0 ==> s[0] == '-' && s[1..] == NatToString(-n)
  {
    if n >= 0 then NatToString(n) else "-" + NatToString(-n)
  }

  /** Distinct numbers have distinct decimal renderings. */
  lemma {:induction false} NatToStringInjective(a: nat, b: nat)
    requires NatToString(a) == NatToString(b)
    ensures a == b
    decreases a
  {
    var s := NatToString(a);
    if a < 10 && b < 10 {
      assert s[0] == DigitChar(a) && s[0] == DigitChar(b);
    } else if a >= 10 && b >= 10 {
      var pa := NatToString(a / 10);
      var pb := NatToString(b / 10);
      assert s == pa + [DigitChar(a % 10)] && s == pb + [DigitChar(b % 10)];
      assert |pa| == |pb|;
      assert s[|s| - 1] == DigitChar(a % 10) && s[|s| - 1] == DigitChar(b % 10);
      assert pa == s[..|s| - 1] == pb;
      NatToStringInjective(a / 10, b / 10);
    }
  }

  // ---------------------------------------------------------------------------
  // Case folding (ASCII letters; other characters have no case here)
  // ---------------------------------------------------------------------------

  function UpperChar(c: char): char {
    if 'a' <= c <= 'z' then (c as int - 32) as char else c
  }

  function LowerChar(c: char): char {
    if 'A' <= c <= 'Z' then (c as int + 32) as char else c
  }

  /** `Char.equals(other, ignoreCase = true)`. */
  predicate CharEqualsIgnoreCase(a: char, b: char) {
    a == b || UpperChar(a) == UpperChar(b) || LowerChar(a) == LowerChar(b)
  }

  /** `String.equals(other, ignoreCase = true)`. */
  predicate EqualsIgnoreCase(a: string, b: string) {
    |a| == |b| && forall i :: 0 <= i < |a| ==> CharEqualsIgnoreCase(a[i], b[i])
  }

  /** `String.uppercase()`. */
  function Uppercase(s: string): string {
    if s == [] then [] else [UpperChar(s[0])] + Uppercase(s[1..])
  }

  /** `String.contains(other, ignoreCase = true)`: some window of `s` equals `q` ignoring case. */
  predicate ContainsIgnoreCase(s: string, q: string) {
    exists i :: 0 <= i <= |s| - |q| && MatchesAtIgnoreCase(s, q, i)
  }

  /** The window of `s` at `i` has `q`'s length and equals `q` ignoring case. */
  predicate MatchesAtIgnoreCase(s: string, q: string, i: int) {
    0 <= i <= |s| - |q| && EqualsIgnoreCase(s[i..i + |q|], q)
  }

  // ---------------------------------------------------------------------------
  // Literal occurrences and Kotlin's `String.split(delimiter: String)`
  // ---------------------------------------------------------------------------

  /** `d` occurs in `s` starting at position `k`. */
  predicate OccursAt(s: string, d: string, k: int) {
    0 <= k && k + |d| <= |s| && s[k..k + |d|] == d
  }

  /** The first position at or after `from` where `d` occurs in `s`, if any. */
  function IndexOfFrom(s: string, d: string, from: nat): (r: Option<nat>)
    requires 0 < |d|
    ensures r.Some? ==> from <= r.value && OccursAt(s, d, r.value)
    ensures r.Some? ==> forall j :: from <= j < r.value ==> !OccursAt(s, d, j)
    ensures r.None? ==> forall j :: from <= j ==> !OccursAt(s, d, j)
    decreases |s| - from
  {
    if from + |d| > |s| then None
    else if s[from..from + |d|] == d then Some(from)
    else IndexOfFrom(s, d, from + 1)
  }

  /** `s.indexOf(d)`: the first occurrence of `d` in `s`. */
  function IndexOf(s: string, d: string): Option<nat>
    requires 0 < |d|
  {
    IndexOfFrom(s, d, 0)
  }

  /** `s.split(d)` for a non-empty literal delimiter `d`: the pieces between the
      non-overlapping occurrences of `d` found from left to right; trailing empty
      pieces are kept and a string without `d` gives one piece. */
  function Split(s: string, d: string): (pieces: seq<string>)
    requires 0 < |d|
    ensures 0 < |pieces|
    ensures pieces == [s] <==> IndexOf(s, d).None?
    decreases |s|
  {
    match IndexOf(s, d)
    case None => [s]
    case Some(k) => [s[..k]] + Split(s[k + |d|..], d)
  }

  /** Concatenation regroups freely; stated once so that proofs about queues and logs
      need not rediscover it element by element. */
  lemma ConcatAssoc<T>(a: seq<T>, b: seq<T>, c: seq<T>)
    ensures (a + b) + c == a + (b + c)
  {
  }

  /** `pieces.joinToString(d)`: the pieces in order with `d` between neighbours; the
      result starts with the first piece (and ends with the last, `JoinEndsWithLast`). */
  function Join(pieces: seq<string>, d: string): (joined: string)
    ensures |pieces| == 0 ==> joined == ""
    ensures |pieces| > 0 ==> |pieces[0]| <= |joined| && joined[..|pieces[0]|] == pieces[0]
  {
    if |pieces| == 0 then ""
    else if |pieces| == 1 then pieces[0]
    else pieces[0] + d + Join(pieces[1..], d)
  }

  /** The joined string ends with the last piece. */
  lemma {:induction false} JoinEndsWithLast(pieces: seq<string>, d: string)
    ensures |pieces| > 0 ==>
      var last := pieces[|pieces| - 1];
      |last| <= |Join(pieces, d)| && Join(pieces, d)[|Join(pieces, d)| - |last|..] == last
  {
    if |pieces| > 1 {
      var rest := Join(pieces[1..], d);
      JoinEndsWithLast(pieces[1..], d);
      assert pieces[1..][|pieces[1..]| - 1] == pieces[|pieces| - 1];
      assert (pieces[0] + d + rest)[|pieces[0] + d + rest| - |pieces[|pieces| - 1]|..]
        == rest[|rest| - |pieces[|pieces| - 1]|..];
    }
  }

  /** Splitting and re-joining with the delimiter gives back the original string. */
  lemma {:induction false} SplitJoin(s: string, d: string)
    requires 0 < |d|
    ensures Join(Split(s, d), d) == s
    decreases |s|
  {
    match IndexOf(s, d)
    case None =>
    case Some(k) =>
      var rest := Split(s[k + |d|..], d);
      SplitJoin(s[k + |d|..], d);
      assert Split(s, d) == [s[..k]] + rest;
      assert ([s[..k]] + rest)[1..] == rest;
      assert s[k..k + |d|] == d;
      CutAround(s, k, |d|);
  }

  /** A string is the text before a stretch, the stretch, and the text after it. */
  lemma CutAround(s: string, k: nat, n: nat)
    requires k + n <= |s|
    ensures s == s[..k] + s[k..k + n] + s[k + n..]
  {
    assert s[..k] + s[k..k + n] == s[..k + n];
  }

  /** The first piece is the text before the first occurrence; with no occurrence there
      is exactly one piece, the whole string. */
  lemma SplitHead(s: string, d: string)
    requires 0 < |d|
    ensures IndexOf(s, d).None? <==> |Split(s, d)| == 1
    ensures IndexOf(s, d).None? ==> Split(s, d)[0] == s
    ensures IndexOf(s, d).Some? ==> Split(s, d)[0] == s[..IndexOf(s, d).value]
  {
    match IndexOf(s, d)
    case None =>
    case Some(k) =>
      assert |Split(s[k + |d|..], d)| > 0;
  }

  /** No piece contains the delimiter. */
  lemma {:induction false} SplitPiecesFree(s: string, d: string, i: nat)
    requires 0 < |d| && i < |Split(s, d)|
    ensures forall j :: !OccursAt(Split(s, d)[i], d, j)
    decreases |s|
  {
    match IndexOf(s, d)
    case None =>
    case Some(k) =>
      if i == 0 {
        BeforeFirstIsFree(s, d, k);
      } else {
        SplitPiecesFree(s[k + |d|..], d, i - 1);
      }
  }

  /** The text before the first occurrence holds no occurrence. */
  lemma BeforeFirstIsFree(s: string, d: string, k: nat)
    requires 0 < |d| && IndexOf(s, d) == Some(k)
    ensures forall j :: !OccursAt(s[..k], d, j)
  {
    forall j ensures !OccursAt(s[..k], d, j) {
      if 0 <= j && j + |d| <= k {
        assert IndexOfFrom(s, d, 0) == Some(k);
        assert !OccursAt(s, d, j);
        assert s[..k][j..j + |d|] == s[j..j + |d|];
      }
    }
  }
}
