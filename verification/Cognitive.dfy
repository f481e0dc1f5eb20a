/**
  The bridge's own condenser: when the estimated tokens exceed the limit it copies messages into
  a fixed buffer until the buffer is full.
*/
module Cognitive {
  import opened Bytes
  import opened Sequences

  datatype CondenserOutput = CondenserOutput(summary: seq<Byte>, tokensSaved: nat)

  /** The estimate: four bytes to a token, rounded down per message. */
  function EstimatedTokens(messages: seq<seq<Byte>>): nat {
    if messages == [] then 0
    else EstimatedTokens(messages[..|messages| - 1]) + |messages[|messages| - 1]| / 4
  }

  function Concatenated(messages: seq<seq<Byte>>): seq<Byte> {
    if messages == [] then []
    else Concatenated(messages[..|messages| - 1]) + messages[|messages| - 1]
  }

  /** Rounding down loses bytes, never gains them. */
  lemma {:induction false} EstimateIsLow(messages: seq<seq<Byte>>)
    ensures 4 * EstimatedTokens(messages) <= |Concatenated(messages)|
  {
    if messages != [] { EstimateIsLow(messages[..|messages| - 1]); }
  }

  /** Nor does it lose more than three bytes of each message, so the estimate is the sum of the rounded quarters. */
  lemma {:induction false} EstimateIsClose(messages: seq<seq<Byte>>)
    ensures |Concatenated(messages)| <= 4 * EstimatedTokens(messages) + 3 * |messages|
  {
    if messages != [] { EstimateIsClose(messages[..|messages| - 1]); }
  }

  /** The parts of a conversation add up, and are joined in their order. */
  lemma {:induction false} PartsAddUp(a: seq<seq<Byte>>, b: seq<seq<Byte>>)
    ensures EstimatedTokens(a + b) == EstimatedTokens(a) + EstimatedTokens(b)
    ensures Concatenated(a + b) == Concatenated(a) + Concatenated(b)
  {
    if b == [] {
      assert a + b == a;
    } else {
      assert (a + b)[..|a + b| - 1] == a + b[..|b| - 1];
      PartsAddUp(a, b[..|b| - 1]);
    }
  }

  lemma OneMessage(m: seq<Byte>)
    ensures Concatenated([m]) == m && 4 * EstimatedTokens([m]) <= |m| < 4 * EstimatedTokens([m]) + 4
  {
    assert [m][..0] == [];
  }

  lemma {:induction false} ConcatenatedPrefix(messages: seq<seq<Byte>>, i: nat)
    requires i <= |messages|
    ensures Concatenated(messages[..i]) <= Concatenated(messages)
  {
    if i == |messages| {
      assert messages[..i] == messages;
    } else {
      assert messages[..|messages| - 1][..i] == messages[..i];
      ConcatenatedPrefix(messages[..|messages| - 1], i);
    }
  }

  /** Copies into the buffer from `at` on. */
  method CopyInto(summary: array<Byte>, at: nat, content: seq<Byte>, len: nat)
    requires len <= |content| && at + len <= summary.Length
    modifies summary
    ensures summary[..at] == old(summary[..at]) && summary[at..at + len] == content[..len]
  {
    var k := 0;
    while k < len
      invariant 0 <= k <= len
      invariant summary[..at] == old(summary[..at]) && summary[at..at + k] == content[..k]
    {
      summary[at + k] := content[k];
      assert summary[at..at + k + 1] == summary[at..at + k] + [content[k]];
      k := k + 1;
    }
  }

  /** The copy loop: it fills the buffer with the first bytes of the concatenated messages. */
  method Truncate(messages: seq<seq<Byte>>, target: nat) returns (summary: array<Byte>)
    requires |Concatenated(messages)| >= target
    ensures fresh(summary) && summary[..] == Concatenated(messages)[..target]
  {
    summary := new Byte[target](_ => 0);
    var written, i := 0, 0;
    while i < |messages| && written < target
      invariant 0 <= i <= |messages|
      invariant written == Min(target, |Concatenated(messages[..i])|)
      invariant summary[..written] == Concatenated(messages[..i])[..written]
    {
      var content := messages[i];
      var len := Min(|content|, target - written);
      assert messages[..i + 1][..i] == messages[..i];
      ghost var before := summary[..written];
      CopyInto(summary, written, content, len);
      assert summary[..written + len] == before + content[..len];
      written := written + len;
      i := i + 1;
    }
    ConcatenatedPrefix(messages, i);
    assert messages[..|messages|] == messages;
    assert summary[..] == summary[..written];
  }

  /**
    `condense`.  Below the limit the summary is empty; above it, every byte of the summary is
    written, and it is exactly the first four times `maxTokens` bytes of the messages.
  */
  method Condense(messages: seq<seq<Byte>>, maxTokens: nat) returns (out: CondenserOutput)
    ensures EstimatedTokens(messages) <= maxTokens ==> out == CondenserOutput([], 0)
    ensures EstimatedTokens(messages) > maxTokens ==>
              && 4 * maxTokens <= |Concatenated(messages)|
              && out.summary == Concatenated(messages)[..4 * maxTokens]
              && out.tokensSaved == EstimatedTokens(messages) - maxTokens
  {
    var total, i := 0, 0;
    while i < |messages|
      invariant 0 <= i <= |messages| && total == EstimatedTokens(messages[..i])
    {
      assert messages[..i + 1][..i] == messages[..i];
      total := total + |messages[i]| / 4;
      i := i + 1;
    }
    assert messages[..i] == messages;
    if total <= maxTokens { return CondenserOutput([], 0); }
    EstimateIsLow(messages);
    var summary := Truncate(messages, maxTokens * 4);
    return CondenserOutput(summary[..], total - maxTokens);
  }
}
