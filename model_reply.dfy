/**
 * String clean-up in backend/pkg/ai/openai.go: `cleanJSONResponse`, which
 * strips a Markdown code fence from a model's reply, and the base-URL trim
 * in `NewOpenAIClient`. Go's `strings.TrimSpace`, `TrimPrefix` and
 * `TrimSuffix` are modelled exactly, over Unicode code points.
 */
module ModelReply {
  import opened Wrappers

  /** Go's `unicode.IsSpace`. */
  predicate IsSpace(c: char) {
    c == '\t' || c == '\n' || c == '\U{000B}' || c == '\U{000C}' || c == '\r' || c == ' '
    || c == '\U{0085}' || c == '\U{00A0}' || c == '\U{1680}'
    || ('\U{2000}' <= c <= '\U{200A}')
    || c == '\U{2028}' || c == '\U{2029}' || c == '\U{202F}' || c == '\U{205F}' || c == '\U{3000}'
  }

  predicate AllSpace(s: string) {
    forall i :: 0 <= i < |s| ==> IsSpace(s[i])
  }

  /** Neither end is white space. */
  predicate Trimmed(s: string) {
    s == [] || (!IsSpace(s[0]) && !IsSpace(s[|s| - 1]))
  }

  function TrimLeft(s: string): string
    decreases |s|
  {
    if s != [] && IsSpace(s[0]) then TrimLeft(s[1..]) else s
  }

  function TrimRight(s: string): string
    decreases |s|
  {
    if s != [] && IsSpace(s[|s| - 1]) then TrimRight(s[..|s| - 1]) else s
  }

  /** `strings.TrimSpace`. */
  function TrimSpace(s: string): string {
    TrimRight(TrimLeft(s))
  }

  /** `strings.TrimPrefix`. */
  function TrimPrefix(s: string, prefix: string): string {
    if prefix <= s then s[|prefix|..] else s
  }

  predicate EndsWith(s: string, suffix: string) {
    |suffix| <= |s| && s[|s| - |suffix|..] == suffix
  }

  /** `strings.TrimSuffix`. */
  function TrimSuffix(s: string, suffix: string): string {
    if EndsWith(s, suffix) then s[..|s| - |suffix|] else s
  }

  const Fence: string := "```"
  const JsonFence: string := "```json"

  /** `cleanJSONResponse`. */
  function CleanJson(content: string): string {
    TrimSpace(TrimSuffix(TrimPrefix(TrimPrefix(TrimSpace(content), JsonFence), Fence), Fence))
  }

  /** The base-URL option `NewOpenAIClient` adds: none for "", else one trailing '/' removed. */
  function BaseUrl(apiBase: string): (r: Option<string>)
    ensures r.None? <==> apiBase == ""
    ensures r.Some? ==> (r.value == apiBase <==> apiBase[|apiBase| - 1] != '/')
    ensures r.Some? && r.value != apiBase ==> apiBase == r.value + "/"
  {
    if apiBase == "" then None else Some(TrimSuffix(apiBase, "/"))
  }

  /** TrimLeft drops a leading run of white space: the result is a suffix with no leading space. */
  lemma {:induction false} TrimLeftSuffix(s: string)
    ensures |TrimLeft(s)| <= |s| && TrimLeft(s) == s[|s| - |TrimLeft(s)|..]
    ensures TrimLeft(s) == [] || !IsSpace(TrimLeft(s)[0])
    ensures AllSpace(s[..|s| - |TrimLeft(s)|])
    decreases |s|
  {
    if s != [] && IsSpace(s[0]) {
      TrimLeftSuffix(s[1..]);
      var k := |s| - |TrimLeft(s)|;
      assert s[1..][k - 1..] == s[k..];
      assert forall i :: 1 <= i < k ==> s[..k][i] == s[1..][..k - 1][i - 1];
    }
  }

  /** TrimRight drops a trailing run of white space: the result is a prefix with no trailing space. */
  lemma {:induction false} TrimRightPrefix(s: string)
    ensures |TrimRight(s)| <= |s| && TrimRight(s) == s[..|TrimRight(s)|]
    ensures TrimRight(s) == [] || !IsSpace(TrimRight(s)[|TrimRight(s)| - 1])
    ensures AllSpace(s[|TrimRight(s)|..])
    decreases |s|
  {
    if s != [] && IsSpace(s[|s| - 1]) {
      var n := |s| - 1;
      TrimRightPrefix(s[..n]);
      var k := |TrimRight(s)|;
      assert s[..n][..k] == s[..k];
      assert forall i :: k <= i < |s| ==> i == n || s[i] == s[..n][i];
    }
  }

  /** TrimRight keeps a string that is already trimmed on the left trimmed on the left. */
  lemma {:induction false} TrimRightKeepsHead(s: string)
    requires s == [] || !IsSpace(s[0])
    ensures TrimRight(s) == [] || !IsSpace(TrimRight(s)[0])
    decreases |s|
  {
    TrimRightPrefix(s);
    if s != [] && IsSpace(s[|s| - 1]) {
      TrimRightKeepsHead(s[..|s| - 1]);
    }
  }

  /** TrimSpace leaves no white space at either end. */
  lemma TrimSpaceTrimmed(s: string)
    ensures Trimmed(TrimSpace(s))
  {
    TrimLeftSuffix(s);
    TrimRightKeepsHead(TrimLeft(s));
    TrimRightPrefix(TrimLeft(s));
  }

  /** TrimSpace returns a contiguous piece of its input. */
  lemma TrimSpaceSlice(s: string)
    ensures Slice(TrimSpace(s), s)
  {
    TrimLeftSuffix(s);
    TrimRightPrefix(TrimLeft(s));
    var i := |s| - |TrimLeft(s)|;
    var j := i + |TrimSpace(s)|;
    assert TrimSpace(s) == s[i..j];
  }

  /** A string with nothing to trim comes back unchanged. */
  lemma TrimSpaceKeepsTrimmed(s: string)
    requires Trimmed(s)
    ensures TrimSpace(s) == s
  {
  }

  /** White space around a piece does not change what TrimSpace makes of it. */
  lemma {:induction false} TrimLeftPadding(a: string, x: string)
    requires AllSpace(a)
    ensures TrimLeft(a + x) == TrimLeft(x)
    decreases |a|
  {
    if a != [] {
      assert (a + x)[1..] == a[1..] + x;
      TrimLeftPadding(a[1..], x);
    } else {
      assert a + x == x;
    }
  }

  lemma {:induction false} TrimRightPadding(x: string, b: string)
    requires AllSpace(b)
    ensures TrimRight(x + b) == TrimRight(x)
    decreases |b|
  {
    if b != [] {
      var n := |b| - 1;
      assert (x + b)[..|x + b| - 1] == x + b[..n];
      TrimRightPadding(x, b[..n]);
    } else {
      assert x + b == x;
    }
  }

  lemma {:induction false} TrimSpaceAppend(x: string, b: string)
    requires AllSpace(b)
    ensures TrimRight(TrimLeft(x + b)) == TrimRight(TrimLeft(x))
    decreases |x|
  {
    if x == [] {
      assert x + b == b;
      TrimRightPadding([], b);
      assert TrimLeft(b) == b[|b| - |TrimLeft(b)|..] by { TrimLeftSuffix(b); }
      TrimLeftAllSpace(b);
    } else if IsSpace(x[0]) {
      assert (x + b)[1..] == x[1..] + b;
      TrimSpaceAppend(x[1..], b);
    } else {
      TrimRightPadding(x, b);
    }
  }

  lemma {:induction false} TrimLeftAllSpace(s: string)
    requires AllSpace(s)
    ensures TrimLeft(s) == []
    decreases |s|
  {
    if s != [] {
      TrimLeftAllSpace(s[1..]);
    }
  }

  /** TrimSpace ignores white space added at either end. */
  lemma TrimSpacePadding(a: string, x: string, b: string)
    requires AllSpace(a) && AllSpace(b)
    ensures TrimSpace(a + x + b) == TrimSpace(x)
  {
    assert a + x + b == a + (x + b);
    TrimLeftPadding(a, x + b);
    TrimSpaceAppend(x, b);
  }

  /** The cleaned reply has no white space at either end. */
  lemma CleanJsonTrimmed(content: string)
    ensures Trimmed(CleanJson(content))
  {
    var t := TrimSuffix(TrimPrefix(TrimPrefix(TrimSpace(content), JsonFence), Fence), Fence);
    TrimSpaceTrimmed(t);
  }

  /** t is a contiguous piece of s. */
  predicate Slice(t: string, s: string) {
    exists i, j :: 0 <= i <= j <= |s| && t == s[i..j]
  }

  lemma SliceTrans(a: string, b: string, c: string)
    requires Slice(a, b) && Slice(b, c)
    ensures Slice(a, c)
  {
    var i, j :| 0 <= i <= j <= |b| && a == b[i..j];
    var k, l :| 0 <= k <= l <= |c| && b == c[k..l];
    forall m | 0 <= m < j - i
      ensures a[m] == c[k + i + m]
    {
      assert a[m] == b[i + m];
    }
    assert a == c[k + i..k + j];
  }

  lemma TrimAffixSlice(s: string, affix: string)
    ensures Slice(TrimPrefix(s, affix), s) && Slice(TrimSuffix(s, affix), s)
  {
    assert TrimPrefix(s, affix) == s[|s| - |TrimPrefix(s, affix)|..|s|];
    assert TrimSuffix(s, affix) == s[0..|TrimSuffix(s, affix)|];
  }

  /** The cleaned reply is a contiguous piece of the reply, so never longer. */
  lemma CleanJsonSlice(content: string)
    ensures Slice(CleanJson(content), content)
    ensures |CleanJson(content)| <= |content|
  {
    var t0 := TrimSpace(content);
    var t1 := TrimPrefix(t0, JsonFence);
    var t2 := TrimPrefix(t1, Fence);
    var t3 := TrimSuffix(t2, Fence);
    TrimSpaceSlice(content);
    TrimAffixSlice(t0, JsonFence);
    TrimAffixSlice(t1, Fence);
    TrimAffixSlice(t2, Fence);
    TrimSpaceSlice(t3);
    SliceTrans(t1, t0, content);
    SliceTrans(t2, t1, content);
    SliceTrans(t3, t2, content);
    SliceTrans(TrimSpace(t3), t3, content);
    var i, j :| 0 <= i <= j <= |content| && CleanJson(content) == content[i..j];
  }

  /** Around a trimmed body, white space is dropped before the fences are looked for. */
  lemma CleanPaddedBody(before: string, body: string, after: string)
    requires AllSpace(before) && AllSpace(after) && Trimmed(body)
    ensures CleanJson(before + body + after)
      == TrimSpace(TrimSuffix(TrimPrefix(TrimPrefix(body, JsonFence), Fence), Fence))
  {
    TrimSpacePadding(before, body, after);
    TrimSpaceKeepsTrimmed(body);
  }

  lemma DropPrefix(p: string, rest: string)
    ensures TrimPrefix(p + rest, p) == rest
  {
    assert p <= p + rest;
    assert (p + rest)[|p|..] == rest;
  }

  lemma DropSuffix(rest: string, q: string)
    ensures TrimSuffix(rest + q, q) == rest
  {
    assert (rest + q)[|rest + q| - |q|..] == q;
    assert (rest + q)[..|rest|] == rest;
  }

  /** A reply fenced as "```json" newline X newline "```" yields X, trimmed. */
  lemma JsonFenceUnwrapped(before: string, x: string, after: string)
    requires AllSpace(before) && AllSpace(after)
    ensures CleanJson(before + JsonFence + "\n" + x + "\n" + Fence + after) == TrimSpace(x)
  {
    var inner := "\n" + x + "\n";
    var body := JsonFence + (inner + Fence);
    assert before + JsonFence + "\n" + x + "\n" + Fence + after == before + body + after;
    assert body[0] == '`' && body[|body| - 1] == '`';
    CleanPaddedBody(before, body, after);
    DropPrefix(JsonFence, inner + Fence);
    assert (inner + Fence)[0] == '\n';
    DropSuffix(inner, Fence);
    TrimSpacePadding("\n", x, "\n");
  }

  /** A reply in a bare "```" fence is unwrapped the same way. */
  lemma BareFenceUnwrapped(before: string, x: string, after: string)
    requires AllSpace(before) && AllSpace(after)
    ensures CleanJson(before + Fence + "\n" + x + "\n" + Fence + after) == TrimSpace(x)
  {
    var inner := "\n" + x + "\n";
    var body := Fence + (inner + Fence);
    assert before + Fence + "\n" + x + "\n" + Fence + after == before + body + after;
    assert body[0] == '`' && body[|body| - 1] == '`';
    CleanPaddedBody(before, body, after);
    assert body[3] == '\n';
    DropPrefix(Fence, inner + Fence);
    DropSuffix(inner, Fence);
    TrimSpacePadding("\n", x, "\n");
  }

  /** A reply with no fence at either end is only trimmed. */
  lemma UnfencedOnlyTrimmed(content: string)
    requires !(Fence <= TrimSpace(content)) && !EndsWith(TrimSpace(content), Fence)
    ensures CleanJson(content) == TrimSpace(content)
  {
    var t := TrimSpace(content);
    assert !(JsonFence <= t);
    TrimSpaceTrimmed(content);
    TrimSpaceKeepsTrimmed(t);
  }

  /** Only one closing fence is removed: a doubled one leaves the other in place. */
  lemma OneClosingFenceRemoved(x: string)
    requires x != [] && x[0] != '`' && Trimmed(x)
    ensures CleanJson(x + Fence + Fence) == x + Fence
  {
    var s := x + Fence + Fence;
    TrimSpaceKeepsTrimmed(s);
    assert !(JsonFence <= s) && !(Fence <= s) by { assert s[0] == x[0]; }
    assert s[..|s| - 3] == x + Fence;
    TrimSpaceKeepsTrimmed(x + Fence);
  }
}
