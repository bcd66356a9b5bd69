/**
 * The small string functions the token step applies inline: removing every
 * quote from a command's output, trimming surrounding white space, and taking
 * the fixed-length prefix of a UUID string.
 */
module Text {
  import opened Wrappers

  /** `s` with every character in `drop` removed, the rest kept in order. */
  function RemoveAll(s: string, drop: set<char>): (r: string)
    ensures forall i :: 0 <= i < |r| ==> r[i] !in drop
    ensures |r| <= |s|
  {
    if s == [] then []
    else (if s[0] in drop then [] else [s[0]]) + RemoveAll(s[1..], drop)
  }

  /** Every character outside `drop` keeps its number of occurrences. */
  lemma {:induction false} RemoveAllKeepsOthers(s: string, drop: set<char>, ch: char)
    requires ch !in drop
    ensures multiset(RemoveAll(s, drop))[ch] == multiset(s)[ch]
  {
    if s != [] {
      assert s == [s[0]] + s[1..];
      RemoveAllKeepsOthers(s[1..], drop, ch);
    }
  }

  /** Removing characters commutes with concatenation. */
  lemma {:induction false} RemoveAllAppend(a: string, b: string, drop: set<char>)
    ensures RemoveAll(a + b, drop) == RemoveAll(a, drop) + RemoveAll(b, drop)
  {
    if a == [] {
      assert a + b == b;
    } else {
      var head := if a[0] in drop then [] else [a[0]];
      assert (a + b)[0] == a[0];
      assert (a + b)[1..] == a[1..] + b;
      assert RemoveAll(a + b, drop) == head + RemoveAll(a[1..] + b, drop);
      RemoveAllAppend(a[1..], b, drop);
      assert RemoveAll(a, drop) == head + RemoveAll(a[1..], drop);
    }
  }

  /** A string with none of the dropped characters is left as it is. */
  lemma {:induction false} RemoveAllNothingToDrop(s: string, drop: set<char>)
    requires forall i :: 0 <= i < |s| ==> s[i] !in drop
    ensures RemoveAll(s, drop) == s
  {
    if s != [] {
      RemoveAllNothingToDrop(s[1..], drop);
    }
  }

  /** The quote character the cluster client wraps its templated output in. */
  const Quote: char := '\''

  /** Every single quote removed (a global replace of `'` by nothing). */
  function StripQuotes(s: string): (r: string)
    ensures forall i :: 0 <= i < |r| ==> r[i] != Quote
    ensures forall ch :: ch != Quote ==> multiset(r)[ch] == multiset(s)[ch]
  {
    var r := RemoveAll(s, {Quote});
    forall ch | ch != Quote ensures multiset(r)[ch] == multiset(s)[ch] {
      RemoveAllKeepsOthers(s, {Quote}, ch);
    }
    r
  }

  /** Stripping twice is stripping once. */
  lemma StripQuotesIdempotent(s: string)
    ensures StripQuotes(StripQuotes(s)) == StripQuotes(s)
  {
    RemoveAllNothingToDrop(StripQuotes(s), {Quote});
  }

  /** Stripping the quotes around a quote-free payload gives back the payload. */
  lemma StripQuotesUnwraps(payload: string)
    requires forall i :: 0 <= i < |payload| ==> payload[i] != Quote
    ensures StripQuotes([Quote] + payload + [Quote]) == payload
  {
    RemoveAllAppend([Quote] + payload, [Quote], {Quote});
    RemoveAllAppend([Quote], payload, {Quote});
    RemoveAllNothingToDrop(payload, {Quote});
  }

  /** White space as the trimming function understands it (the Unicode White_Space characters). */
  predicate IsSpace(ch: char)
  {
    var n := ch as int;
    (9 <= n <= 13) || n == 32 || n == 0x85 || n == 0xA0 || n == 0x1680
    || (0x2000 <= n <= 0x200A) || n == 0x2028 || n == 0x2029 || n == 0x202F
    || n == 0x205F || n == 0x3000
  }

  /** Every character of `s` is white space. */
  predicate AllSpace(s: string)
  {
    forall i :: 0 <= i < |s| ==> IsSpace(s[i])
  }

  /** `s` neither starts nor ends with white space. */
  predicate Trimmed(s: string)
  {
    s != [] ==> !IsSpace(s[0]) && !IsSpace(s[|s| - 1])
  }

  /** The index of the first non-space character at or after `i` (or `|s|`). */
  function SkipSpaceForward(s: string, i: nat): (k: nat)
    requires i <= |s|
    ensures i <= k <= |s|
    ensures forall m :: i <= m < k ==> IsSpace(s[m])
    ensures k < |s| ==> !IsSpace(s[k])
    decreases |s| - i
  {
    if i < |s| && IsSpace(s[i]) then SkipSpaceForward(s, i + 1) else i
  }

  /** The index just after the last non-space character before `j`, but not below `lo`. */
  function SkipSpaceBackward(s: string, lo: nat, j: nat): (k: nat)
    requires lo <= j <= |s|
    ensures lo <= k <= j
    ensures forall m :: k <= m < j ==> IsSpace(s[m])
    ensures k > lo ==> !IsSpace(s[k - 1])
    decreases j - lo
  {
    if j > lo && IsSpace(s[j - 1]) then SkipSpaceBackward(s, lo, j - 1) else j
  }

  /** `s` without its leading and trailing white space. */
  function TrimSpace(s: string): (r: string)
    ensures Trimmed(r)
    ensures exists i :: 0 <= i <= |s| - |r| && r == s[i..i + |r|] && AllSpace(s[..i]) && AllSpace(s[i + |r|..])
  {
    var i := SkipSpaceForward(s, 0);
    var j := SkipSpaceBackward(s, i, |s|);
    assert AllSpace(s[..i]);
    assert AllSpace(s[j..]);
    s[i..j]
  }

  lemma {:induction false} SkipForwardOver(s: string, i: nat, target: nat)
    requires i <= target <= |s|
    requires forall m :: i <= m < target ==> IsSpace(s[m])
    requires target < |s| ==> !IsSpace(s[target])
    ensures SkipSpaceForward(s, i) == target
    decreases target - i
  {
    if i < target {
      SkipForwardOver(s, i + 1, target);
    }
  }

  lemma {:induction false} SkipBackwardOver(s: string, lo: nat, j: nat, target: nat)
    requires lo <= target <= j <= |s|
    requires forall m :: target <= m < j ==> IsSpace(s[m])
    requires target > lo ==> !IsSpace(s[target - 1])
    ensures SkipSpaceBackward(s, lo, j) == target
    decreases j - target
  {
    if target < j {
      SkipBackwardOver(s, lo, j - 1, target);
    }
  }

  /** Trimming only ever removes white space around an already trimmed core. */
  lemma TrimSpaceOfPadded(pre: string, core: string, post: string)
    requires AllSpace(pre) && AllSpace(post) && Trimmed(core)
    ensures TrimSpace(pre + core + post) == core
  {
    var s := pre + core + post;
    if core == [] {
      SkipForwardOver(s, 0, |s|);
      SkipBackwardOver(s, |s|, |s|, |s|);
      assert s[|s|..|s|] == core;
    } else {
      SkipForwardOver(s, 0, |pre|);
      SkipBackwardOver(s, |pre|, |s|, |pre| + |core|);
      assert s[|pre|..|pre| + |core|] == core;
    }
  }

  /** Trimming twice is trimming once. */
  lemma TrimSpaceIdempotent(s: string)
    ensures TrimSpace(TrimSpace(s)) == TrimSpace(s)
  {
    TrimSpaceOfPadded([], TrimSpace(s), []);
    assert [] + TrimSpace(s) + [] == TrimSpace(s);
  }

  /** The length of the generated access token. */
  const TokenLength: nat := 20

  /**
   * The first `TokenLength` characters of a UUID string; slicing a shorter
   * string is a runtime panic, modelled as `None`.
   */
  function TokenPrefix(uuid: string): (r: Option<string>)
    ensures r.Some? <==> |uuid| >= TokenLength
    ensures r.Some? ==> |r.value| == TokenLength && r.value <= uuid
  {
    if |uuid| < TokenLength then None else Some(uuid[..TokenLength])
  }

  predicate IsLowerHex(ch: char)
  {
    ('0' <= ch <= '9') || ('a' <= ch <= 'f')
  }

  /** The canonical textual form of a UUID: 8-4-4-4-12 lower-case hex digits. */
  predicate CanonicalUuid(u: string)
  {
    && |u| == 36
    && (forall i :: 0 <= i < 36 ==> (i == 8 || i == 13 || i == 18 || i == 23) == (u[i] == '-'))
    && (forall i :: 0 <= i < 36 && u[i] != '-' ==> IsLowerHex(u[i]))
  }

  /**
   * A canonical UUID string always yields a token, and the token holds no
   * quote, so it can be spliced into a quoted command argument as it is.
   */
  lemma CanonicalUuidToken(u: string)
    requires CanonicalUuid(u)
    ensures TokenPrefix(u).Some?
    ensures var t := TokenPrefix(u).value;
      t != "" && t[8] == '-' && forall i :: 0 <= i < |t| ==> t[i] != Quote
  {
    var t := TokenPrefix(u).value;
    forall i | 0 <= i < |t| ensures t[i] != Quote {
      assert t[i] == u[i];
    }
  }
}
