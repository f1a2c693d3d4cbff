/** The instruction template `DeepSeekChatbot.generate_response` wraps a user
    message in, and the extraction that recovers the assistant's turn from the
    decoded model output (app.py lines 72 and 102). */
module ChatTemplate {
  import opened Outcomes
  import opened PyStr

  /** Opens the user's turn. */
  const UserOpen: string := "<|im_start|>user\n"
  /** Closes a turn. */
  const TurnEnd: string := "<|im_end|>"
  /** Opens the assistant's turn; the prompt ends with it. */
  const AssistantOpen: string := "<|im_start|>assistant\n"

  /** Everything the template adds after the message. */
  function PromptTail(): string {
    TurnEnd + "\n" + AssistantOpen
  }

  /** The formatted prompt: the user marker, the message verbatim, the end
      marker and a newline, then the assistant marker. */
  function Format(message: string): (prompt: string)
    ensures |prompt| == |message| + 50
    ensures prompt[..|UserOpen|] == UserOpen
    ensures prompt[|UserOpen|..|UserOpen| + |message|] == message
    ensures prompt[|UserOpen| + |message|..] == PromptTail()
    ensures prompt[|prompt| - |AssistantOpen|..] == AssistantOpen
  {
    var prompt := UserOpen + message + PromptTail();
    assert prompt[|UserOpen| + |message|..] == PromptTail();
    assert PromptTail()[|PromptTail()| - |AssistantOpen|..] == AssistantOpen;
    prompt
  }

  /** Distinct messages give distinct prompts, so the message can always be
      read back from the prompt. */
  lemma FormatInjective(m1: string, m2: string)
    requires Format(m1) == Format(m2)
    ensures m1 == m2
  {
    assert |m1| == |m2|;
    assert m1 == Format(m1)[|UserOpen|..|UserOpen| + |m1|];
  }

  /** `response.split("<|im_start|>assistant\n")[-1].split("<|im_end|>")[0].strip()`:
      the text after the last assistant marker the split finds, cut at the
      first end marker after it, without surrounding whitespace. The result
      holds neither marker and has no whitespace at either end. */
  function Extract(decoded: string): (response: string)
    ensures !Contains(response, AssistantOpen) && !Contains(response, TurnEnd)
    ensures response == [] || (!IsSpace(response[0]) && !IsSpace(response[|response| - 1]))
  {
    var afterAssistant := Last(Split(decoded, AssistantOpen));
    var beforeEnd := First(Split(afterAssistant, TurnEnd));
    SplitFirst(afterAssistant, TurnEnd);
    BeforeEndIsFree(afterAssistant, AssistantOpen, TurnEnd);
    StripKeepsFree(beforeEnd, AssistantOpen);
    StripKeepsFree(beforeEnd, TurnEnd);
    Strip(beforeEnd)
  }

  /** Cutting a string at the first occurrence of `end` keeps it free of any
      `sep` it was free of. */
  lemma BeforeEndIsFree(s: string, sep: string, end: string)
    requires end != [] && !Contains(s, sep)
    ensures !Contains(First(Split(s, end)), sep)
  {
    SplitFirst(s, end);
    var f := Find(s, end);
    if f.Some? {
      SliceOfFree(s, sep, 0, f.value);
      assert s[..f.value] == s[0..f.value];
    } else {
      assert First(Split(s, end)) == s;
    }
  }

  /** Stripping never creates an occurrence of `sep`. */
  lemma StripKeepsFree(s: string, sep: string)
    requires !Contains(s, sep)
    ensures !Contains(Strip(s), sep)
  {
    var a := |s| - |TrimStart(s)|;
    SliceOfFree(s, sep, a, a + |Strip(s)|);
  }

  /** Only the last character of the assistant marker is a newline, so no
      proper prefix of it is also a suffix: two of its occurrences never
      overlap. */
  lemma AssistantOpenNoSelfOverlap()
    ensures NoSelfOverlap(AssistantOpen)
  {
    var n := |AssistantOpen|;
    forall d | 0 < d < n
      ensures AssistantOpen[d..] != AssistantOpen[..n - d]
    {
      assert AssistantOpen[d..][n - d - 1] == '\n';
      assert AssistantOpen[..n - d][n - d - 1] == AssistantOpen[n - d - 1];
      assert AssistantOpen[n - d - 1] != '\n';
    }
  }

  /** Only the first character of the end marker is `<`, so no proper suffix
      of it is also a prefix: two of its occurrences never overlap. */
  lemma TurnEndNoSelfOverlap()
    ensures NoSelfOverlap(TurnEnd)
  {
    var n := |TurnEnd|;
    forall d | 0 < d < n
      ensures TurnEnd[d..] != TurnEnd[..n - d]
    {
      assert TurnEnd[..n - d][0] == '<';
      assert TurnEnd[d..][0] == TurnEnd[d];
      assert TurnEnd[d] != '<';
    }
  }

  /** In a text made of `g`, the end marker and anything after it, where `g`
      holds no end marker, the leftmost end marker is the one right after `g`. */
  lemma FindTurnEndAfter(g: string, rest: string)
    requires !Contains(g, TurnEnd)
    ensures Find(g + TurnEnd + rest, TurnEnd) == Some(|g|)
  {
    var x := g + TurnEnd + rest;
    assert x[|g|..|g| + |TurnEnd|] == TurnEnd;
    assert OccursAt(x, TurnEnd, |g|);
    var i := Find(x, TurnEnd).value;
    if i < |g| {
      TurnEndNoSelfOverlap();
      OccurrencesApart(x, TurnEnd, i, |g|);
      assert x[i..i + |TurnEnd|] == g[i..i + |TurnEnd|];
      assert OccursAt(g, TurnEnd, i);
      assert false;
    }
  }

  /** The assistant's turn ends at the first end marker after the assistant
      marker: whatever follows that marker is dropped, and the text before
      it is returned stripped, whatever the user's message was. */
  lemma ExtractCutsAtTurnEnd(message: string, generated: string, rest: string)
    requires !Contains(generated, TurnEnd)
    requires !Contains(generated + TurnEnd + rest, AssistantOpen)
    ensures Extract(Format(message) + (generated + TurnEnd + rest)) == Strip(generated)
  {
    var x := generated + TurnEnd + rest;
    var p := UserOpen + message + TurnEnd + "\n";
    assert Format(message) + x == p + AssistantOpen + x;
    AssistantOpenNoSelfOverlap();
    SplitLastAfterSeparator(p, AssistantOpen, x);
    FindTurnEndAfter(generated, rest);
    SplitFirst(x, TurnEnd);
    assert x[..|generated|] == generated;
  }

  /** Extraction is idempotent: a response extracted once comes back unchanged. */
  lemma ExtractIdempotent(decoded: string)
    ensures Extract(Extract(decoded)) == Extract(decoded)
  {
    var r := Extract(decoded);
    SplitOfFree(r, AssistantOpen);
    SplitOfFree(r, TurnEnd);
    StripOfStripped(r);
  }

  /** Without any assistant marker the whole decoded text is searched for the
      end marker: the result is the stripped text before the first end marker,
      or the whole stripped text if that marker is missing too. */
  lemma ExtractWithoutAssistantMarker(decoded: string)
    requires !Contains(decoded, AssistantOpen)
    ensures Extract(decoded) == Strip(First(Split(decoded, TurnEnd)))
    ensures Find(decoded, TurnEnd).Some? ==> Extract(decoded) == Strip(decoded[..Find(decoded, TurnEnd).value])
    ensures !Contains(decoded, TurnEnd) ==> Extract(decoded) == Strip(decoded)
  {
    SplitOfFree(decoded, AssistantOpen);
    SplitFirst(decoded, TurnEnd);
  }

  /** When the model's output is the prompt followed by a generated text that
      holds neither marker, extraction returns exactly that text stripped, no
      matter what the user's message contained (markers included). */
  lemma ExtractAfterPrompt(message: string, generated: string)
    requires !Contains(generated, AssistantOpen) && !Contains(generated, TurnEnd)
    ensures Extract(Format(message) + generated) == Strip(generated)
  {
    var p := UserOpen + message + TurnEnd + "\n";
    assert Format(message) + generated == p + AssistantOpen + generated;
    AssistantOpenNoSelfOverlap();
    SplitLastAfterSeparator(p, AssistantOpen, generated);
    SplitOfFree(generated, TurnEnd);
  }

  /** An output that only echoes the prompt yields the empty response. */
  lemma ExtractOfBarePrompt(message: string)
    ensures Extract(Format(message)) == []
  {
    assert !Contains([], AssistantOpen);
    assert !Contains([], TurnEnd);
    ExtractAfterPrompt(message, []);
    assert Format(message) + [] == Format(message);
  }
}
