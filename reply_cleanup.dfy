/**
 * Cleanup of the language model's reply before it is parsed as JSON: strip
 * surrounding whitespace; when the reply opens with a ``` fence keep only
 * the text up to the next fence, minus a leading "json" tag; drop a trailing
 * fence; strip again.  Strings follow Python's str semantics.
 */
module ReplyCleanup {

  /** Python's str.isspace for one character (the characters str.strip() removes). */
  predicate IsSpace(c: char) {
    || ('\t' <= c <= '\r')
    || ('\U{1c}' <= c <= ' ')
    || c == '\U{85}' || c == '\U{a0}' || c == '\U{1680}'
    || ('\U{2000}' <= c <= '\U{200a}')
    || c == '\U{2028}' || c == '\U{2029}' || c == '\U{202f}' || c == '\U{205f}' || c == '\U{3000}'
  }

  predicate AllSpace(s: string) {
    forall i :: 0 <= i < |s| ==> IsSpace(s[i])
  }

  /** No whitespace at either end. */
  predicate Trimmed(s: string) {
    s == [] || (!IsSpace(s[0]) && !IsSpace(s[|s| - 1]))
  }

  /** str.lstrip(): the suffix left after the leading whitespace. */
  function StripStart(s: string): (r: string)
    ensures |r| <= |s| && r == s[|s| - |r|..]
    ensures forall i :: 0 <= i < |s| - |r| ==> IsSpace(s[i])
    ensures r == [] || !IsSpace(r[0])
  {
    if s != [] && IsSpace(s[0]) then StripStart(s[1..]) else s
  }

  /** str.rstrip(): the prefix left before the trailing whitespace. */
  function StripEnd(s: string): (r: string)
    ensures r <= s
    ensures forall i :: |r| <= i < |s| ==> IsSpace(s[i])
    ensures r == [] || !IsSpace(r[|r| - 1])
  {
    if s != [] && IsSpace(s[|s| - 1]) then StripEnd(s[..|s| - 1]) else s
  }

  /** `r` is `s` less `lead` characters of whitespace in front and only whitespace behind. */
  predicate IsMiddle(s: string, lead: int, r: string) {
    && 0 <= lead && lead + |r| <= |s| && r == s[lead..lead + |r|]
    && (forall i :: 0 <= i < lead ==> IsSpace(s[i]))
    && (forall i :: lead + |r| <= i < |s| ==> IsSpace(s[i]))
  }

  /** str.strip(): the middle of `s`, with only whitespace cut from either side. */
  function Strip(s: string): (r: string)
    ensures Trimmed(r)
    ensures IsMiddle(s, |s| - |StripStart(s)|, r)
  {
    var tail := StripStart(s);
    var r := StripEnd(tail);
    StripSlices(s, tail, r);
    r
  }

  /** Cutting trailing whitespace from `tail`, what str.lstrip() left of `s`, leaves a trimmed middle of `s`. */
  lemma StripSlices(s: string, tail: string, r: string)
    requires |tail| <= |s| && tail == s[|s| - |tail|..]
    requires forall i :: 0 <= i < |s| - |tail| ==> IsSpace(s[i])
    requires tail == [] || !IsSpace(tail[0])
    requires r <= tail && forall i :: |r| <= i < |tail| ==> IsSpace(tail[i])
    requires r == [] || !IsSpace(r[|r| - 1])
    ensures Trimmed(r)
    ensures IsMiddle(s, |s| - |tail|, r)
  {
    var lead := |s| - |tail|;
    assert r == tail[..|r|];
    assert r != [] ==> r[0] == tail[0];
    forall i | lead + |r| <= i < |s| ensures IsSpace(s[i]) {
      assert s[i] == tail[i - lead];
    }
  }

  // ---------------------------------------------------------------------------
  // Fences
  // ---------------------------------------------------------------------------

  /** A ``` fence (three backticks) starts at index i of s. */
  predicate FenceAt(s: string, i: int) {
    0 <= i && i + 3 <= |s| && s[i] == '`' && s[i + 1] == '`' && s[i + 2] == '`'
  }

  predicate HasFence(s: string) {
    exists i :: 0 <= i < |s| && FenceAt(s, i)
  }

  /** str.startswith("```") and str.endswith("```"). */
  predicate StartsWithFence(s: string) {
    FenceAt(s, 0)
  }

  predicate EndsWithFence(s: string) {
    |s| >= 3 && FenceAt(s, |s| - 3)
  }

  const JsonTag := "json"

  /** str.startswith("json"). */
  predicate StartsWithJsonTag(s: string) {
    |s| >= |JsonTag| && s[..|JsonTag|] == JsonTag
  }

  /** `t.split("```")[0]`: the text of `t` before its first fence, or all of `t`. */
  function SegmentBeforeFence(t: string): (seg: string)
    ensures seg <= t
    ensures forall i :: 0 <= i < |seg| ==> !FenceAt(t, i)
    ensures |seg| == |t| || FenceAt(t, |seg|)
  {
    if |t| < 3 then t
    else if FenceAt(t, 0) then []
    else
      var rest := SegmentBeforeFence(t[1..]);
      assert forall i :: 1 <= i <= |rest| ==> (FenceAt(t, i) <==> FenceAt(t[1..], i - 1));
      [t[0]] + rest
  }

  /** A piece cut out of fence-free text is fence-free. */
  lemma FenceFreeSlice(s: string, a: nat, b: nat)
    requires a <= b <= |s| && !HasFence(s)
    ensures !HasFence(s[a..b])
  {
    forall i | 0 <= i < b - a && FenceAt(s[a..b], i)
      ensures false
    {
      assert FenceAt(s, a + i);
    }
  }

  /** The segment before the first fence holds no fence. */
  lemma SegmentIsFenceFree(t: string)
    ensures !HasFence(SegmentBeforeFence(t))
  {
    var seg := SegmentBeforeFence(t);
    forall i | 0 <= i < |seg| && FenceAt(seg, i)
      ensures false
    {
      assert FenceAt(t, i);
    }
  }

  /** Stripping text that is already trimmed changes nothing. */
  lemma StripTrimmed(s: string)
    requires Trimmed(s)
    ensures Strip(s) == s
  {
  }

  // ---------------------------------------------------------------------------
  // The cleanup
  // ---------------------------------------------------------------------------

  /** Stripping fence-free text leaves fence-free text. */
  lemma StripKeepsFenceFree(s: string)
    requires !HasFence(s)
    ensures !HasFence(Strip(s))
  {
    MiddleKeepsFenceFree(s, |s| - |StripStart(s)|, Strip(s));
  }

  lemma MiddleKeepsFenceFree(s: string, lead: int, r: string)
    requires !HasFence(s) && IsMiddle(s, lead, r)
    ensures !HasFence(r)
  {
    FenceFreeSlice(s, lead, lead + |r|);
  }

  /**
   * In a reply that opens with a fence, index k is where the enclosed text
   * ends: the next fence starts there, or the reply does.
   */
  predicate NextFence(s: string, k: int) {
    3 <= k <= |s| && (k == |s| || FenceAt(s, k)) && forall i :: 3 <= i < k ==> !FenceAt(s, i)
  }

  /** The segment after the opening fence ends at the next fence. */
  lemma OpeningSegment(s: string)
    requires |s| >= 3
    ensures var segment := SegmentBeforeFence(s[3..]);
      NextFence(s, 3 + |segment|) && segment == s[3..3 + |segment|]
  {
    var t := s[3..];
    var segment := SegmentBeforeFence(t);
    forall i | 3 <= i <= 3 + |segment| && i + 3 <= |s|
      ensures FenceAt(s, i) <==> FenceAt(t, i - 3)
    {
      assert s[i] == t[i - 3] && s[i + 1] == t[i - 2] && s[i + 2] == t[i - 1];
    }
  }

  /**
   * The opening-fence step: for a reply that opens with a fence, the text up
   * to the next fence less a leading "json" tag; any other reply unchanged.
   */
  function OpeningFenceRemoved(s: string): (u: string)
    ensures StartsWithFence(s) ==> !HasFence(u)
    ensures StartsWithFence(s) ==>
      exists k :: NextFence(s, k) && u == if StartsWithJsonTag(s[3..k]) then s[3 + |JsonTag|..k] else s[3..k]
    ensures !StartsWithFence(s) ==> u == s
  {
    if StartsWithFence(s) then
      var segment := SegmentBeforeFence(s[3..]);
      SegmentIsFenceFree(s[3..]);
      OpeningSegment(s);
      assert NextFence(s, 3 + |segment|);
      if StartsWithJsonTag(segment) then
        FenceFreeSlice(segment, |JsonTag|, |segment|);
        assert segment[|JsonTag|..] == segment[|JsonTag|..|segment|] == s[3 + |JsonTag|..3 + |segment|];
        segment[|JsonTag|..]
      else segment
    else s
  }

  /** The closing-fence step: three characters fewer when the text ends with a fence. */
  function ClosingFenceRemoved(s: string): (u: string)
    ensures u <= s
    ensures |u| == if EndsWithFence(s) then |s| - 3 else |s|
    ensures !HasFence(s) ==> u == s
  {
    if EndsWithFence(s) then
      assert FenceAt(s, |s| - 3);
      s[..|s| - 3]
    else s
  }

  /** The reply text handed to the JSON parser. */
  function CleanReply(text: string): (r: string)
    ensures Trimmed(r)
    ensures !StartsWithFence(Strip(text)) && !EndsWithFence(Strip(text)) ==> r == Strip(text)
    ensures StartsWithFence(Strip(text)) ==> !HasFence(r)
    ensures StartsWithFence(Strip(text)) ==> r == Strip(OpeningFenceRemoved(Strip(text)))
  {
    var stripped := Strip(text);
    CleanupStages(stripped);
    Strip(ClosingFenceRemoved(OpeningFenceRemoved(stripped)))
  }

  lemma CleanupStages(stripped: string)
    requires Trimmed(stripped)
    ensures var r := Strip(ClosingFenceRemoved(OpeningFenceRemoved(stripped)));
      && (!StartsWithFence(stripped) && !EndsWithFence(stripped) ==> r == stripped)
      && (StartsWithFence(stripped) ==> !HasFence(r) && r == Strip(OpeningFenceRemoved(stripped)))
  {
    var unfenced := OpeningFenceRemoved(stripped);
    if StartsWithFence(stripped) {
      StripKeepsFenceFree(ClosingFenceRemoved(unfenced));
    } else {
      StripTrimmed(stripped);
    }
  }
}
