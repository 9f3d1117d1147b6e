/**
 * The JavaScript string built-ins the application calls, `startsWith` and
 * `trim`, over UTF-16 code units modelled as `char`. `LastIndexOf` is not
 * called by the application; it serves the regex-free restatement of
 * `cleanFilename`.
 */
module JsString {

  /** `s.startsWith(prefix)`: compares code units from the front, case-sensitively. */
  function StartsWith(s: string, prefix: string): (b: bool)
    ensures b <==> prefix <= s
  {
    if |prefix| == 0 then true
    else if |s| == 0 then false
    else s[0] == prefix[0] && StartsWith(s[1..], prefix[1..])
  }

  /** `s.lastIndexOf(c)`: the index of the last occurrence of `c`, or -1. */
  function LastIndexOf(s: string, c: char): (i: int)
    ensures -1 <= i < |s|
    ensures 0 <= i ==> s[i] == c
    ensures forall j :: i < j < |s| ==> s[j] != c
  {
    if |s| == 0 then -1
    else if s[|s| - 1] == c then |s| - 1
    else LastIndexOf(s[..|s| - 1], c)
  }

  /**
   * The code units `trim` removes: the WhiteSpace and LineTerminator
   * productions of ECMAScript (section 12.2 and 12.3 of ECMA-262), that is
   * TAB, VT, FF, SP, NBSP, ZWNBSP, the Unicode space separators, LF, CR,
   * LINE SEPARATOR and PARAGRAPH SEPARATOR.
   */
  predicate IsWhiteSpace(c: char) {
    var n := c as int;
    (0x09 <= n <= 0x0D) || n == 0x20 || n == 0xA0 || n == 0x1680
    || (0x2000 <= n <= 0x200A) || n == 0x2028 || n == 0x2029 || n == 0x202F
    || n == 0x205F || n == 0x3000 || n == 0xFEFF
  }

  predicate AllWhiteSpace(s: string) {
    forall i :: 0 <= i < |s| ==> IsWhiteSpace(s[i])
  }

  /** The first index at or after `i` that holds no white space, or `|s|`. */
  function SkipBlanks(s: string, i: nat): (k: nat)
    requires i <= |s|
    ensures i <= k <= |s|
    ensures forall j :: i <= j < k ==> IsWhiteSpace(s[j])
    ensures k < |s| ==> !IsWhiteSpace(s[k])
    decreases |s| - i
  {
    if i < |s| && IsWhiteSpace(s[i]) then SkipBlanks(s, i + 1) else i
  }

  /**
   * Scanning back from `e` but not below `lo`: the index just past the last
   * code unit that is not white space, or `lo`.
   */
  function SkipBlanksBack(s: string, lo: nat, e: nat): (k: nat)
    requires lo <= e <= |s|
    ensures lo <= k <= e
    ensures forall j :: k <= j < e ==> IsWhiteSpace(s[j])
    ensures lo < k ==> !IsWhiteSpace(s[k - 1])
    decreases e - lo
  {
    if lo < e && IsWhiteSpace(s[e - 1]) then SkipBlanksBack(s, lo, e - 1) else e
  }

  /** `s.trim()`: white space removed from both ends, nothing else touched. */
  function Trim(s: string): (r: string)
    ensures |r| <= |s|
    ensures r != [] ==> !IsWhiteSpace(r[0]) && !IsWhiteSpace(r[|r| - 1])
    ensures r == [] <==> AllWhiteSpace(s)
  {
    var k := SkipBlanks(s, 0);
    var e := SkipBlanksBack(s, k, |s|);
    if k == e then
      assert AllWhiteSpace(s);
      []
    else
      assert !IsWhiteSpace(s[k]);
      s[k..e]
  }

  /** `s` is white space, then `r` starting at index `k`, then white space. */
  predicate PaddedAt(s: string, r: string, k: nat) {
    k + |r| <= |s| && r == s[k..k + |r|]
    && AllWhiteSpace(s[..k]) && AllWhiteSpace(s[k + |r|..])
  }

  /** `trim` cuts `s` into white space, the result, and white space. */
  lemma TrimSlice(s: string)
    ensures exists k :: PaddedAt(s, Trim(s), k)
  {
    var k := SkipBlanks(s, 0);
    var e := SkipBlanksBack(s, k, |s|);
    if k == e {
      assert s[0 + |Trim(s)|..] == s;
      assert PaddedAt(s, Trim(s), 0);
    } else {
      assert Trim(s) == s[k..e];
      forall j | 0 <= j < k ensures IsWhiteSpace(s[..k][j]) {
        assert s[..k][j] == s[j];
      }
      forall j | 0 <= j < |s| - e ensures IsWhiteSpace(s[e..][j]) {
        assert s[e..][j] == s[e + j];
      }
      assert PaddedAt(s, Trim(s), k);
    }
  }

  /** Padding a word that has no white space at its ends and trimming gives the word back. */
  lemma TrimPadded(pre: string, w: string, post: string)
    requires AllWhiteSpace(pre) && AllWhiteSpace(post)
    requires w != [] ==> !IsWhiteSpace(w[0]) && !IsWhiteSpace(w[|w| - 1])
    ensures Trim(pre + w + post) == w
  {
    var s := pre + w + post;
    forall i | 0 <= i < |pre| ensures IsWhiteSpace(s[i]) {
      assert s[i] == pre[i];
    }
    forall i | |pre| + |w| <= i < |s| ensures IsWhiteSpace(s[i]) {
      assert s[i] == post[i - |pre| - |w|];
    }
    if w != [] {
      var k := SkipBlanks(s, 0);
      assert s[|pre|] == w[0];
      assert k == |pre|;
      var e := SkipBlanksBack(s, k, |s|);
      assert s[|pre| + |w| - 1] == w[|w| - 1];
      assert e == |pre| + |w|;
      assert s[k..e] == w;
    }
  }

  /** Trimming twice is trimming once. */
  lemma TrimIdempotent(s: string)
    ensures Trim(Trim(s)) == Trim(s)
  {
    var r := Trim(s);
    assert [] + r + [] == r;
    TrimPadded([], r, []);
  }
}
