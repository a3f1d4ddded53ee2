/** `UploadUtil.getSDCardRoot`: the SD-card root of a file path is the path cut just
    before its third '/', or the whole path when it has fewer than three. */
module UploadUtil {

  /** Number of '/' characters in `s`. */
  function SlashCount(s: string): nat {
    if s == [] then 0 else SlashCount(s[..|s| - 1]) + (if s[|s| - 1] == '/' then 1 else 0)
  }

  /** `r` is what the SD-card root of `s` must be: a prefix of `s`; the whole of `s` when
      `s` has fewer than three '/'; otherwise the text before the third '/', which holds
      exactly two of them. */
  predicate IsSdCardRoot(s: string, r: string) {
    |r| <= |s| && r == s[..|r|] &&
    (SlashCount(s) < 3 ==> r == s) &&
    (SlashCount(s) >= 3 ==> |r| < |s| && s[|r|] == '/' && SlashCount(r) == 2)
  }

  /** The character walk of `getSDCardRoot`: `i` counts the '/' seen so far and the walk
      stops at the character that makes it three, or at the end of the path. */
  method GetSdCardRoot(s: string) returns (r: string)
    ensures IsSdCardRoot(s, r)
  {
    var i, x := 0, 0;
    while x < |s|
      invariant 0 <= x <= |s|
      invariant i == SlashCount(s[..x]) && i < 3
    {
      assert s[..x + 1][..x] == s[..x];
      if s[x] == '/' {
        i := i + 1;
      }
      if i == 3 {
        SlashCountPrefixes(s, x + 1, |s|);
        assert s[..|s|] == s;
        return s[..x];
      }
      x := x + 1;
    }
    assert s[..x] == s;
    return s[..x];
  }

  /** Counting '/' never decreases as a prefix grows. */
  lemma {:induction false} SlashCountPrefixes(s: string, a: nat, b: nat)
    requires a <= b <= |s|
    ensures SlashCount(s[..a]) <= SlashCount(s[..b])
    decreases b - a
  {
    if a < b {
      SlashCountPrefixes(s, a, b - 1);
      assert s[..b][..b - 1] == s[..b - 1];
    }
  }

  /** The SD-card root as a value: scan from position `x` having seen `i` slashes. */
  function RootEnd(s: string, x: nat, i: nat): (e: nat)
    requires x <= |s| && i == SlashCount(s[..x]) && i < 3
    ensures x <= e <= |s| && SlashCount(s[..e]) < 3
    ensures e < |s| ==> s[e] == '/' && SlashCount(s[..e]) == 2
    ensures e == |s| ==> SlashCount(s) < 3
    decreases |s| - x
  {
    assert x < |s| ==> s[..x + 1][..x] == s[..x];
    if x == |s| then (assert s[..x] == s; x)
    else if s[x] == '/' && i == 2 then x
    else RootEnd(s, x + 1, if s[x] == '/' then i + 1 else i)
  }

  /** `getSDCardRoot` as a value: a prefix of the path with fewer than three '/', cut just
      before the third '/' when there is one (`SdCardRootIsRoot` gives the whole of it). */
  function SdCardRoot(s: string): (r: string)
    ensures |r| <= |s| && r == s[..|r|]
    ensures SlashCount(r) < 3
    ensures |r| < |s| ==> s[|r|] == '/'
  {
    assert s[..0] == [];
    s[..RootEnd(s, 0, 0)]
  }

  lemma SdCardRootIsRoot(s: string)
    ensures IsSdCardRoot(s, SdCardRoot(s))
  {
    assert s[..0] == [];
    var e := RootEnd(s, 0, 0);
    assert SdCardRoot(s) == s[..e];
    if e < |s| {
      assert s[..e + 1][..e] == s[..e];
      SlashCountPrefixes(s, e + 1, |s|);
      assert s[..|s|] == s;
    } else {
      assert s[..e] == s;
    }
  }

  /** The requirements pin the root down: the walk and the value agree. */
  lemma SdCardRootUnique(s: string, r1: string, r2: string)
    requires IsSdCardRoot(s, r1) && IsSdCardRoot(s, r2)
    ensures r1 == r2
  {
    if SlashCount(s) >= 3 && |r1| != |r2| {
      var a := if |r1| < |r2| then r1 else r2;
      var b := if |r1| < |r2| then r2 else r1;
      assert a == s[..|a|] && b == s[..|b|];
      assert s[..|a| + 1][..|a|] == s[..|a|];
      SlashCountPrefixes(s, |a| + 1, |b|);
      assert false;
    }
  }

  lemma GetSdCardRootAgrees(s: string, r: string)
    requires IsSdCardRoot(s, r)
    ensures r == SdCardRoot(s)
  {
    SdCardRootIsRoot(s);
    SdCardRootUnique(s, r, SdCardRoot(s));
  }

  /** Taking the SD-card root of an SD-card root changes nothing. */
  lemma SdCardRootIdempotent(s: string)
    ensures SdCardRoot(SdCardRoot(s)) == SdCardRoot(s)
  {
    var r := SdCardRoot(s);
    SdCardRootIsRoot(s);
    assert SlashCount(r) < 3;
    assert r[..|r|] == r;
    assert IsSdCardRoot(r, r);
    GetSdCardRootAgrees(r, r);
  }
}
