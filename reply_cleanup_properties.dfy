/**
 * What the reply cleanup achieves: a reply wrapped in a fence (with or
 * without a "json" tag) comes back as exactly the wrapped text, a reply with
 * only a closing fence loses it, and a plain reply is only stripped.
 */
module ReplyCleanupProperties {
  import opened ReplyCleanup

  // ---------------------------------------------------------------------------
  // Stripping padded text
  // ---------------------------------------------------------------------------

  lemma {:induction false} StripStartSkipsSpace(pre: string, rest: string)
    requires AllSpace(pre)
    ensures StripStart(pre + rest) == StripStart(rest)
  {
    if pre != [] {
      assert (pre + rest)[1..] == pre[1..] + rest;
      StripStartSkipsSpace(pre[1..], rest);
    } else {
      assert pre + rest == rest;
    }
  }

  lemma {:induction false} StripEndSkipsSpace(rest: string, post: string)
    requires AllSpace(post)
    ensures StripEnd(rest + post) == StripEnd(rest)
  {
    if post != [] {
      var s := rest + post;
      assert s[..|s| - 1] == rest + post[..|post| - 1];
      StripEndSkipsSpace(rest, post[..|post| - 1]);
    } else {
      assert rest + post == rest;
    }
  }

  /** Text made only of whitespace strips to nothing. */
  lemma {:induction false} AllSpaceStripsToEmpty(x: string)
    requires AllSpace(x)
    ensures StripStart(x) == []
  {
    if x != [] {
      AllSpaceStripsToEmpty(x[1..]);
    }
  }

  /** Leading whitespace before trimmed text is all that str.lstrip() removes. */
  lemma {:induction false} StripStartOfPadded(pre: string, body: string, post: string)
    requires AllSpace(pre) && AllSpace(post) && Trimmed(body)
    ensures StripStart(pre + body + post) == if body == [] then [] else body + post
  {
    if body == [] {
      assert pre + body + post == pre + post;
      StripStartSkipsSpace(pre, post);
      AllSpaceStripsToEmpty(post);
    } else {
      assert pre + body + post == pre + (body + post);
      StripStartSkipsSpace(pre, body + post);
      assert (body + post)[0] == body[0];
    }
  }

  /** Whitespace on either side of trimmed text is all that str.strip() removes. */
  lemma {:induction false} StripPadded(pre: string, body: string, post: string)
    requires AllSpace(pre) && AllSpace(post) && Trimmed(body)
    ensures Strip(pre + body + post) == body
  {
    StripStartOfPadded(pre, body, post);
    if body != [] {
      StripEndSkipsSpace(body, post);
    }
  }

  // ---------------------------------------------------------------------------
  // Splitting at the closing fence
  // ---------------------------------------------------------------------------

  /** Fence-free text that does not end in a backtick is the whole segment before a fence that follows it. */
  lemma {:induction false} SegmentBeforeClosingFence(x: string, y: string)
    requires !HasFence(x)
    requires x == [] || x[|x| - 1] != '`'
    ensures SegmentBeforeFence(x + "```" + y) == x
  {
    var t := x + "```" + y;
    assert FenceAt(t, |x|);
    forall i | 0 <= i < |x|
      ensures !FenceAt(t, i)
    {
      if i + 3 <= |x| {
        assert FenceAt(t, i) ==> FenceAt(x, i);
      } else {
        assert t[|x| - 1] == x[|x| - 1];
      }
    }
    var seg := SegmentBeforeFence(t);
    assert |seg| == |x|;
    assert seg == t[..|x|] == x;
  }

  /** No fence can straddle text made of backtick-free padding around fence-free text. */
  lemma {:induction false} PaddedFenceFree(tag: string, pre: string, body: string, post: string)
    requires tag == JsonTag || tag == []
    requires AllSpace(pre) && AllSpace(post) && !HasFence(body)
    ensures !HasFence(tag + pre + body + post)
  {
    var x := tag + pre + body + post;
    var off := |tag| + |pre|;
    assert forall k :: 0 <= k < off ==> x[k] != '`' by {
      forall k | 0 <= k < off ensures x[k] != '`' {
        if k < |tag| { assert x[k] == tag[k]; } else { assert x[k] == pre[k - |tag|]; }
      }
    }
    assert forall k :: off + |body| <= k < |x| ==> x[k] == post[k - off - |body|];
    forall i | 0 <= i < |x|
      ensures !FenceAt(x, i)
    {
      if off <= i && i + 3 <= off + |body| {
        assert FenceAt(x, i) ==> FenceAt(body, i - off);
      } else if i + 3 <= |x| && off <= i {
        assert x[i + 2] == post[i + 2 - off - |body|];
      }
    }
  }

  // ---------------------------------------------------------------------------
  // Round trips
  // ---------------------------------------------------------------------------

  /** The opening-fence step on a block closed by a fence keeps the whole block, less a "json" tag, whatever follows. */
  lemma {:induction false} OpeningFenceOfClosedBlock(x: string, y: string)
    requires !HasFence(x)
    requires x == [] || x[|x| - 1] != '`'
    ensures OpeningFenceRemoved("```" + x + "```" + y) == if StartsWithJsonTag(x) then x[|JsonTag|..] else x
  {
    var text := "```" + x + "```" + y;
    assert FenceAt(text, 0);
    assert text[3..] == x + "```" + y;
    SegmentBeforeClosingFence(x, y);
  }

  /** The last character of padded text is never a backtick when the text it pads does not end in one. */
  lemma {:induction false} PaddedEndsWithoutBacktick(tag: string, pre: string, body: string, post: string)
    requires tag == JsonTag || tag == []
    requires AllSpace(pre) && AllSpace(post)
    requires post != [] || body == [] || body[|body| - 1] != '`'
    ensures var x := tag + pre + body + post; x == [] || x[|x| - 1] != '`'
  {
    var x := tag + pre + body + post;
    if post != [] {
      assert x[|x| - 1] == post[|post| - 1];
    } else if body != [] {
      assert x[|x| - 1] == body[|body| - 1];
    } else if pre != [] {
      assert x[|x| - 1] == pre[|pre| - 1];
    } else if tag != [] {
      assert x == JsonTag;
    }
  }

  /** Removing a leading "json" tag undoes prefixing it; text with no tag is left alone. */
  lemma {:induction false} TagRemoved(tag: string, inner: string)
    requires tag == JsonTag || (tag == [] && !StartsWithJsonTag(inner))
    ensures var x := tag + inner;
      (if StartsWithJsonTag(x) then x[|JsonTag|..] else x) == inner
  {
    var x := tag + inner;
    if tag == JsonTag {
      assert x[..|JsonTag|] == JsonTag;
      assert x[|JsonTag|..] == inner;
    } else {
      assert x == inner;
    }
  }

  /** The opening-fence step on a padded fenced block leaves exactly the padded text, whatever follows the block. */
  lemma {:induction false} OpeningFenceOfPaddedBlock(tag: string, pre: string, body: string, post: string, y: string)
    requires tag == JsonTag || (tag == [] && !StartsWithJsonTag(pre + body + post))
    requires AllSpace(pre) && AllSpace(post) && !HasFence(body)
    requires post != [] || body == [] || body[|body| - 1] != '`'
    ensures OpeningFenceRemoved("```" + (tag + (pre + body + post)) + "```" + y) == pre + body + post
  {
    var inner := pre + body + post;
    var x := tag + inner;
    assert tag + pre + body + post == x;
    PaddedFenceFree(tag, pre, body, post);
    PaddedEndsWithoutBacktick(tag, pre, body, post);
    OpeningFenceOfClosedBlock(x, y);
    TagRemoved(tag, inner);
  }

  /**
   * A reply that is a fenced block, with or without a "json" tag and with
   * whitespace inside the fences, cleans up to exactly the enclosed text.
   * The enclosed text must hold no fence of its own and must not run into
   * the closing fence; without a tag it must not itself begin with "json".
   */
  lemma {:induction false} FencedReplyRoundTrip(tag: string, pre: string, body: string, post: string)
    requires tag == JsonTag || (tag == [] && !StartsWithJsonTag(pre + body + post))
    requires AllSpace(pre) && AllSpace(post) && Trimmed(body) && !HasFence(body)
    requires post != [] || body == [] || body[|body| - 1] != '`'
    ensures CleanReply("```" + (tag + (pre + body + post)) + "```") == body
  {
    var block := "```" + (tag + (pre + body + post)) + "```";
    assert block + [] == block;
    FencedReplyWithTrailerRoundTrip(tag, pre, body, post, []);
  }

  /**
   * Text after the closing fence ("Hope this helps") is dropped: a fenced
   * block followed by anything at all still cleans up to exactly the
   * enclosed text.
   */
  lemma {:induction false} FencedReplyWithTrailerRoundTrip(tag: string, pre: string, body: string, post: string, y: string)
    requires tag == JsonTag || (tag == [] && !StartsWithJsonTag(pre + body + post))
    requires AllSpace(pre) && AllSpace(post) && Trimmed(body) && !HasFence(body)
    requires post != [] || body == [] || body[|body| - 1] != '`'
    ensures CleanReply("```" + (tag + (pre + body + post)) + "```" + y) == body
  {
    var block := "```" + (tag + (pre + body + post)) + "```";
    var text := block + y;
    assert text[0] == '`' && text[|block| - 1] == '`';
    assert StripStart(text) == text;
    var stripped := Strip(text);
    assert |stripped| >= |block|;
    var kept := y[..|stripped| - |block|];
    assert stripped == block + kept;
    OpeningFenceOfPaddedBlock(tag, pre, body, post, kept);
    assert StartsWithFence(stripped);
    StripPadded(pre, body, post);
  }

  /**
   * A reply that only closes a fence loses the fence and the whitespace
   * before it.
   */
  lemma {:induction false} ClosingFenceOnlyRoundTrip(body: string, post: string)
    requires Trimmed(body) && body != [] && !StartsWithFence(body + post + "```")
    requires AllSpace(post)
    ensures CleanReply(body + post + "```") == body
  {
    assert [] + body == body;
    StripPadded([], body, post);
    var x := body + post;
    assert x[0] == body[0];
    FencedTailTrimmed(x);
    CleanUnopenedReply(x + "```");
    ClosingFenceCut(x);
  }

  /** Text that does not start with whitespace is trimmed once a fence is appended. */
  lemma FencedTailTrimmed(x: string)
    requires x == [] || !IsSpace(x[0])
    ensures Trimmed(x + "```")
  {
    var t := x + "```";
    assert t[|t| - 1] == '`';
    assert t[0] == if x == [] then '`' else x[0];
  }

  /** The closing-fence step undoes appending a fence. */
  lemma ClosingFenceCut(x: string)
    ensures ClosingFenceRemoved(x + "```") == x
  {
    assert FenceAt(x + "```", |x|);
    assert (x + "```")[..|x|] == x;
  }

  /** On a trimmed reply that does not open with a fence, only the closing-fence step and the final strip act. */
  lemma CleanUnopenedReply(text: string)
    requires Trimmed(text) && !StartsWithFence(text)
    ensures CleanReply(text) == Strip(ClosingFenceRemoved(text))
  {
    StripTrimmed(text);
  }

  /** A trimmed reply with no fence at either end is passed through unchanged. */
  lemma {:induction false} PlainReplyUnchanged(text: string)
    requires Trimmed(text) && !StartsWithFence(text) && !EndsWithFence(text)
    ensures CleanReply(text) == text
  {
    StripTrimmed(text);
  }

  /** Trimmed, fence-free text neither opens nor closes with a fence. */
  lemma {:induction false} FenceFreeIsUnfenced(r: string)
    requires !HasFence(r)
    ensures !StartsWithFence(r) && !EndsWithFence(r)
  {
    if |r| >= 3 {
      assert !FenceAt(r, 0) && !FenceAt(r, |r| - 3);
    }
  }

  /** Cleaning a reply that opened with a fence a second time changes nothing. */
  lemma {:induction false} CleanFencedReplyIsIdempotent(text: string)
    requires StartsWithFence(Strip(text))
    ensures CleanReply(CleanReply(text)) == CleanReply(text)
  {
    var r := CleanReply(text);
    StripTrimmed(r);
    FenceFreeIsUnfenced(r);
    assert CleanReply(r) == r;
  }
}
