/** Removal of the Markdown code fences a language model may wrap its JSON answer in. */
module Fences {
  import opened Text

  /** Three backticks: a Markdown code fence. */
  const Fence: string := "```"

  predicate StartsWith(s: string, p: string) {
    |p| <= |s| && s[..|p|] == p
  }

  predicate EndsWith(s: string, p: string) {
    |p| <= |s| && s[|s| - |p|..] == p
  }

  /** The opening-fence pattern `/```json?\n?/` matches at position `i` of `s`: its fixed part,
      three backticks and "jso", is there. */
  predicate TagAt(s: string, i: int) {
    && 0 <= i && i + 6 <= |s|
    && s[i] == '`' && s[i + 1] == '`' && s[i + 2] == '`'
    && s[i + 3] == 'j' && s[i + 4] == 's' && s[i + 5] == 'o'
  }

  /** No position of `s` starts a match of the opening-fence pattern. */
  predicate TagFree(s: string) {
    forall i :: 0 <= i < |s| ==> !TagAt(s, i)
  }

  /** The length of the match of `/```json?\n?/` at the start of `s`: the tag, then "n" if
      present, then a line feed if present (both optional parts are greedy). */
  function MatchLength(s: string): (n: nat)
    requires TagAt(s, 0)
    ensures 6 <= n <= 6 + 2 && n <= |s|
    ensures n == 6 + 2 <==> |s| >= 6 + 2 && s[6] == 'n' && s[6 + 1] == '\n'
  {
    var k := if |s| > 6 && s[6] == 'n' then 6 + 1 else 6;
    if |s| > k && s[k] == '\n' then k + 1 else k
  }

  /** `s.replace(/```json?\n?/g, '')`: a left-to-right scan that deletes every match. */
  function StripTags(s: string): (r: string)
    ensures |r| <= |s|
    decreases |s|
  {
    if s == [] then []
    else if TagAt(s, 0) then StripTags(s[MatchLength(s)..])
    else [s[0]] + StripTags(s[1..])
  }

  /** `s.replace(/```$/g, '')`: `$` without the multiline flag matches only at the very end,
      so at most one closing fence goes. */
  function StripClosingFence(s: string): (r: string)
    ensures EndsWith(s, Fence) ==> r + Fence == s
    ensures !EndsWith(s, Fence) ==> r == s
  {
    if EndsWith(s, Fence) then s[..|s| - |Fence|] else s
  }

  /** The cleanup applied to a model's answer before `JSON.parse`: trim, and when the trimmed
      answer opens with a fence, strip the tags and one closing fence and trim again. */
  function CleanResponse(text: string): (r: string)
    ensures IsTrimmed(r)
    ensures |r| <= |text|
    ensures !StartsWith(Trim(text), Fence) ==> r == Trim(text)
  {
    var t := Trim(text);
    if StartsWith(t, Fence) then Trim(StripClosingFence(StripTags(t))) else t
  }

  /** Dropping the first character moves every match start back by one. */
  lemma TagAtShift(s: string, i: nat)
    requires s != []
    ensures TagAt(s[1..], i) <==> TagAt(s, i + 1)
  {
  }

  /** Where no match starts, the scan copies one character. */
  lemma StripTagsCopiesOne(s: string)
    requires s != [] && !TagAt(s, 0)
    ensures StripTags(s) == [s[0]] + StripTags(s[1..])
  {
  }

  /** Scanning a prefix in which no match starts copies that prefix unchanged. */
  lemma {:induction false} StripTagsCopiesPrefix(s: string, k: nat)
    requires k <= |s|
    requires forall i :: 0 <= i < k ==> !TagAt(s, i)
    ensures StripTags(s) == s[..k] + StripTags(s[k..])
    decreases k
  {
    if k > 0 {
      var t := s[1..];
      StripTagsCopiesOne(s);
      forall i | 0 <= i < k - 1
        ensures !TagAt(t, i)
      {
        TagAtShift(s, i);
      }
      StripTagsCopiesPrefix(t, k - 1);
      assert t[k - 1..] == s[k..];
      assert [s[0]] + t[..k - 1] == s[..k];
      ConcatAssoc([s[0]], t[..k - 1], StripTags(s[k..]));
    }
  }

  /** Text in which the pattern never matches passes through the tag stripping unchanged. */
  lemma StripTagsOfTagFree(s: string)
    requires TagFree(s)
    ensures StripTags(s) == s
  {
    StripTagsCopiesPrefix(s, |s|);
    assert s[..|s|] == s;
  }

  /** Appending text without an "o" to tag-free text keeps it tag-free: every match ends in "o". */
  lemma TagFreeAppend(b: string, y: string)
    requires TagFree(b)
    requires 'o' !in y
    ensures TagFree(b + y)
  {
    var s := b + y;
    forall i | 0 <= i < |s|
      ensures !TagAt(s, i)
    {
      if i + 6 <= |b| {
        assert !TagAt(b, i);
      } else if i + 6 <= |s| {
        assert s[i + 5] == y[i + 5 - |b|];
      }
    }
  }

  /** Joining two tag-free texts at a line feed keeps them tag-free: no match contains one. */
  lemma TagFreeJoinAtNewline(x: string, t: string)
    requires TagFree(x) && TagFree(t)
    requires x != [] && x[|x| - 1] == '\n'
    ensures TagFree(x + t)
  {
    var s := x + t;
    forall i | 0 <= i < |s|
      ensures !TagAt(s, i)
    {
      if i + 6 <= |x| {
        assert !TagAt(x, i);
      } else if i >= |x| {
        assert !TagAt(t, i - |x|);
      } else if i + 6 <= |s| {
        assert s[|x| - 1] == '\n';
      }
    }
  }

  /** An answer that opens with a fence and ends in a backtick skips the first trim. */
  lemma CleanFenced(s: string)
    requires StartsWith(s, Fence) && s[|s| - 1] == '`'
    ensures CleanResponse(s) == Trim(StripClosingFence(StripTags(s)))
  {
    assert s[0] == Fence[0];
    assert !IsSpace(s[0]) && !IsSpace(s[|s| - 1]);
    TrimTrimmed(s);
  }

  lemma ConcatAssoc(x: string, y: string, z: string)
    ensures (x + y) + z == x + (y + z)
  {
  }

  /** A closing fence on a line of its own is stripped, leaving the line feed before it. */
  lemma StripClosingOnOwnLine(p: string)
    ensures StripClosingFence(p + "\n```") == p + "\n"
  {
    var q := p + "\n```";
    assert q[|q| - 3..] == Fence;
    assert q[..|q| - 3] == p + "\n";
  }

  /** Trimming a trimmed text followed by a line feed gives the text back. */
  lemma TrimLineFed(b: string)
    requires IsTrimmed(b)
    ensures Trim(b + "\n") == b
  {
    if b == [] {
      assert TrimStart("\n") == TrimStart([]);
    } else {
      assert TrimStart(b + "\n") == b + "\n";
      assert (b + "\n")[..|b|] == b;
      assert TrimEnd(b + "\n") == TrimEnd(b);
    }
  }

  /** After the "```json" line, the tag stripping copies the rest of a fenced answer. */
  lemma StripTagsAfterJsonLine(b: string)
    requires TagFree(b)
    ensures StripTags("```json\n" + b + "\n```") == b + "\n```"
  {
    var s := "```json\n" + b + "\n```";
    var body := b + "\n```";
    ConcatAssoc("```json\n", b, "\n```");
    assert TagAt(s, 0);
    assert MatchLength(s) == 8;
    assert s[8..] == body;
    TagFreeAppend(b, "\n```");
    StripTagsOfTagFree(body);
  }

  /** The answer the prompt asks models not to give, a body in a "```json" fence, is unwrapped to
      exactly the body (when the body itself holds no fence tag and is already trimmed). */
  lemma UnwrapJsonFence(b: string)
    requires IsTrimmed(b) && TagFree(b)
    ensures CleanResponse("```json\n" + b + "\n```") == b
  {
    var s := "```json\n" + b + "\n```";
    assert s[..3] == Fence;
    CleanFenced(s);
    StripTagsAfterJsonLine(b);
    StripClosingOnOwnLine(b);
    TrimLineFed(b);
  }

  /** A bare fence line leaves the tag stripping nothing to remove. */
  lemma StripTagsAfterBareLine(b: string)
    requires TagFree(b)
    ensures StripTags("```\n" + b + "\n```") == "```\n" + b + "\n```"
  {
    var s := "```\n" + b + "\n```";
    ConcatAssoc("```\n", b, "\n```");
    TagFreeAppend(b, "\n```");
    assert TagFree("```\n");
    TagFreeJoinAtNewline("```\n", b + "\n```");
    StripTagsOfTagFree(s);
  }

  /** A bare opening fence, without the "json" tag, is left in place: only the closing fence and
      the trailing line feed go. */
  lemma BareFenceKept(b: string)
    requires IsTrimmed(b) && TagFree(b) && b != []
    ensures CleanResponse("```\n" + b + "\n```") == "```\n" + b
  {
    var open := "```\n" + b;
    var s := open + "\n```";
    assert s[..3] == Fence;
    CleanFenced(s);
    StripTagsAfterBareLine(b);
    StripClosingOnOwnLine(open);
    assert open[|open| - 1] == b[|b| - 1];
    TrimLineFed(open);
  }
}
