/**
 * Recognising Mermaid diagram text and cutting it out of a language-model
 * reply: the validity test on the first line, the three-step extraction from
 * a free-form answer, and the two post-processors the diagram refiner applies
 * to an improved class or sequence diagram.
 */
module Mermaid {
  import opened Wrappers
  import opened JsString

  /** The diagram-type keywords accepted on the first line, in the order they are tried. */
  const DiagramKeywords: seq<string> :=
    ["graph", "flowchart", "sequenceDiagram", "classDiagram", "stateDiagram",
     "erDiagram", "journey", "gantt", "pie"]

  const Fence: string := "```"
  /** The language tag that may follow an opening fence. */
  const MermaidTag: string := "mermaid"
  const ClassKeyword: string := "classDiagram"
  const SequenceKeyword: string := "sequenceDiagram"

  /** No keyword contains white space, and none is empty. */
  predicate SpaceFreeWord(w: string)
  {
    w != [] && forall i :: 0 <= i < |w| ==> !IsSpace(w[i])
  }

  /** A word of ASCII letters only. */
  predicate LetterWord(w: string)
  {
    w != [] && forall i :: 0 <= i < |w| ==> 'a' <= w[i] <= 'z' || 'A' <= w[i] <= 'Z'
  }

  lemma LetterWordIsSpaceFree(w: string)
    requires LetterWord(w)
    ensures SpaceFreeWord(w)
  {
    forall i | 0 <= i < |w|
      ensures !IsSpace(w[i])
    {
      assert 'a' <= w[i] <= 'z' || 'A' <= w[i] <= 'Z';
    }
  }

  lemma KeywordsAreWords()
    ensures forall k :: 0 <= k < |DiagramKeywords| ==> SpaceFreeWord(DiagramKeywords[k])
  {
    forall k | 0 <= k < |DiagramKeywords|
      ensures SpaceFreeWord(DiagramKeywords[k])
    {
      assert LetterWord(DiagramKeywords[k]);
      LetterWordIsSpaceFree(DiagramKeywords[k]);
    }
  }

  lemma KeywordsListed()
    ensures DiagramKeywords[2] == SequenceKeyword && DiagramKeywords[3] == ClassKeyword
    ensures SpaceFreeWord(SequenceKeyword) && SpaceFreeWord(ClassKeyword)
  {
    KeywordsAreWords();
  }

  /** The trimmed first line of the trimmed code: `code.trim().split('\n')[0].trim()`. */
  function FirstLine(code: string): string
  {
    Trim(Split(Trim(code), '\n')[0])
  }

  /** `keywords.some(k => line.startsWith(k) || line.startsWith(k + ' '))`. */
  predicate SomeKeywordStarts(line: string, keywords: seq<string>)
    decreases |keywords|
  {
    |keywords| > 0
    && (StartsWith(line, keywords[0]) || StartsWith(line, keywords[0] + " ")
        || SomeKeywordStarts(line, keywords[1..]))
  }

  /** `isMermaidCode`; blank text never qualifies. */
  predicate IsMermaidCode(code: string)
    ensures IsMermaidCode(code) ==> Trim(code) != []
  {
    BlankHasNoKeyword(code);
    SomeKeywordStarts(FirstLine(code), DiagramKeywords)
  }

  /** The first line of blank text is empty, and no keyword starts an empty line. */
  lemma BlankHasNoKeyword(code: string)
    ensures Trim(code) == [] ==> !SomeKeywordStarts(FirstLine(code), DiagramKeywords)
  {
    if Trim(code) == [] {
      assert Split([], '\n') == [[]];
      assert FirstLine(code) == [];
      NothingStartsEmptyLine(DiagramKeywords);
    }
  }

  /** The second alternative of the test (keyword then a space) adds nothing to the first. */
  lemma {:induction false} SomeKeywordStartsIff(line: string, keywords: seq<string>)
    ensures SomeKeywordStarts(line, keywords)
            <==> exists k :: 0 <= k < |keywords| && StartsWith(line, keywords[k])
    decreases |keywords|
  {
    if |keywords| > 0 {
      SomeKeywordStartsIff(line, keywords[1..]);
      if StartsWith(line, keywords[0] + " ") {
        assert line[..|keywords[0]|] == (keywords[0] + " ")[..|keywords[0]|];
      }
      if exists k :: 0 <= k < |keywords| && StartsWith(line, keywords[k]) {
        var k :| 0 <= k < |keywords| && StartsWith(line, keywords[k]);
        if k > 0 { assert keywords[1..][k - 1] == keywords[k]; }
      }
      if exists k :: 0 <= k < |keywords[1..]| && StartsWith(line, keywords[1..][k]) {
        var k :| 0 <= k < |keywords[1..]| && StartsWith(line, keywords[1..][k]);
        assert keywords[k + 1] == keywords[1..][k];
      }
    }
  }

  /** Code is Mermaid exactly when its trimmed first line starts with one of the nine keywords. */
  lemma IsMermaidCodeIff(code: string)
    ensures IsMermaidCode(code)
            <==> exists k :: 0 <= k < |DiagramKeywords| && StartsWith(FirstLine(code), DiagramKeywords[k])
  {
    SomeKeywordStartsIff(FirstLine(code), DiagramKeywords);
  }

  /** Trimming the input first does not change the verdict. */
  lemma IsMermaidCodeOfTrim(code: string)
    ensures IsMermaidCode(Trim(code)) == IsMermaidCode(code)
  {
    TrimIdempotent(code);
  }

  /** Empty text is not a diagram. */
  lemma EmptyIsNotMermaid()
    ensures !IsMermaidCode([])
  {
    assert Trim([]) == [];
    assert Split([], '\n') == [[]];
    assert FirstLine([]) == [];
    NothingStartsEmptyLine(DiagramKeywords);
  }

  lemma {:induction false} NothingStartsEmptyLine(keywords: seq<string>)
    requires forall k :: 0 <= k < |keywords| ==> keywords[k] != []
    ensures !SomeKeywordStarts([], keywords)
    decreases |keywords|
  {
    if |keywords| > 0 {
      assert forall k :: 0 <= k < |keywords[1..]| ==> keywords[1..][k] == keywords[k + 1];
      NothingStartsEmptyLine(keywords[1..]);
    }
  }

  /** Text that begins with a keyword (no white space before it) is Mermaid. */
  lemma StartsWithKeywordIsMermaid(s: string, k: nat)
    requires k < |DiagramKeywords| && StartsWith(s, DiagramKeywords[k])
    ensures IsMermaidCode(s)
  {
    var kw := DiagramKeywords[k];
    KeywordsAreWords();
    assert '\n' !in kw by {
      assert IsSpace('\n');
    }
    TrimKeepsPrefix(s, kw);
    SplitHeadKeepsPrefix(Trim(s), '\n', kw);
    TrimKeepsPrefix(Split(Trim(s), '\n')[0], kw);
    IsMermaidCodeIff(s);
  }

  /** Where the optional tag after the fence at `open` ends: the tag is taken whenever it is there. */
  function TagEnd(s: string, open: nat): (t: nat)
    requires open + |Fence| <= |s|
    ensures OccursAt(s, MermaidTag, open + |Fence|) ==> t == open + |Fence| + |MermaidTag|
    ensures !OccursAt(s, MermaidTag, open + |Fence|) ==> t == open + |Fence|
    ensures t <= |s|
  {
    var afterFence := open + |Fence|;
    if OccursAt(s, MermaidTag, afterFence) then afterFence + |MermaidTag| else afterFence
  }

  /**
   * Where the body of the block opened at `open` begins: after the fence,
   * the optional tag and all the white space that follows them.
   */
  function BodyStart(s: string, open: nat): (b: nat)
    requires open + |Fence| <= |s|
    ensures TagEnd(s, open) <= b <= |s|
    ensures forall k :: TagEnd(s, open) <= k < b ==> IsSpace(s[k])
    ensures b == |s| || !IsSpace(s[b])
  {
    var afterTag := TagEnd(s, open);
    var rest := TrimStart(s[afterTag..]);
    assert forall k :: afterTag <= k < |s| - |rest| ==> s[k] == s[afterTag..][k - afterTag];
    assert |s| - |rest| < |s| ==> s[|s| - |rest|] == rest[0];
    |s| - |rest|
  }

  /** Nothing between the end of the opening fence and the start of the body is a backtick. */
  lemma NoBacktickBeforeBody(s: string, open: nat, k: int)
    requires open + |Fence| <= |s| && open + |Fence| <= k < BodyStart(s, open)
    ensures s[k] != '`'
  {
    var afterFence := open + |Fence|;
    if k < TagEnd(s, open) {
      OccursAtChar(s, MermaidTag, afterFence, k - afterFence);
    }
  }

  /**
   * The inner group of the first match of ```(?:mermaid)?\s*([\s\S]*?)``` in
   * `s`, or `None` when the pattern does not match. The match starts at the
   * first fence; the optional tag and the white space after it are consumed
   * greedily, and the group runs lazily up to the next fence.
   */
  function FencedBlockBody(s: string): (r: Option<string>)
    ensures r.Some? ==>
              IndexOf(s, Fence) != -1
              && var b := BodyStart(s, IndexOf(s, Fence));
                 exists j :: b <= j && OccursAt(s, Fence, j) && r.value == s[b..j]
                             && forall k :: b <= k < j ==> !OccursAt(s, Fence, k)
  {
    var open := IndexOf(s, Fence);
    if open == -1 then None
    else
      var bodyStart := BodyStart(s, open);
      var close := IndexOfFrom(s, Fence, bodyStart);
      if close == -1 then None else Some(s[bodyStart..close])
  }

  /**
   * A fenced block is found exactly when the reply holds two fences that do
   * not overlap, and it is missing exactly when there is no fence, or no
   * fence from the body's start on.
   */
  lemma FencedBlockFound(s: string)
    ensures FencedBlockBody(s).Some?
            <==> exists i, j :: OccursAt(s, Fence, i) && i + |Fence| <= j && OccursAt(s, Fence, j)
    ensures FencedBlockBody(s).None?
            <==> IndexOf(s, Fence) == -1
                 || forall j :: BodyStart(s, IndexOf(s, Fence)) <= j ==> !OccursAt(s, Fence, j)
  {
    var open := IndexOf(s, Fence);
    if open != -1 {
      var b := BodyStart(s, open);
      if exists i, j :: OccursAt(s, Fence, i) && i + |Fence| <= j && OccursAt(s, Fence, j) {
        var i, j :| OccursAt(s, Fence, i) && i + |Fence| <= j && OccursAt(s, Fence, j);
        OccursAtChar(s, Fence, j, 0);
        if j < b {
          NoBacktickBeforeBody(s, open, j);
        }
        assert IndexOfFrom(s, Fence, b) != -1;
      }
      var close := IndexOfFrom(s, Fence, b);
      if close != -1 {
        assert OccursAt(s, Fence, open) && open + |Fence| <= close && OccursAt(s, Fence, close);
      }
    }
  }

  /**
   * `extractMermaidCode`: the reply itself if it is Mermaid, otherwise the
   * first fenced block's body if that is Mermaid, otherwise the reply; always trimmed.
   */
  function ExtractMermaidCode(response: string): (r: string)
    ensures IsTrimmed(r)
  {
    if IsMermaidCode(response) then Trim(response)
    else
      var block := FencedBlockBody(response);
      if block.Some? && block.value != [] && IsMermaidCode(Trim(block.value)) then Trim(block.value)
      else Trim(response)
  }

  /** The extraction yields a diagram exactly when the reply or its first fenced block is one. */
  lemma ExtractFindsDiagram(response: string)
    ensures IsMermaidCode(ExtractMermaidCode(response))
            <==> IsMermaidCode(response)
                 || (FencedBlockBody(response).Some? && IsMermaidCode(FencedBlockBody(response).value))
  {
    IsMermaidCodeOfTrim(response);
    var block := FencedBlockBody(response);
    if block.Some? {
      IsMermaidCodeOfTrim(block.value);
      if block.value == [] {
        EmptyIsNotMermaid();
      }
    }
  }

  /** Whenever the extraction yields a diagram, extracting again changes nothing. */
  lemma ExtractIdempotentOnDiagrams(response: string)
    requires IsMermaidCode(ExtractMermaidCode(response))
    ensures ExtractMermaidCode(ExtractMermaidCode(response)) == ExtractMermaidCode(response)
  {
    TrimTrimmed(ExtractMermaidCode(response));
  }

  /**
   * The class refiner's post-processing: from the first `classDiagram` on,
   * trimmed; the reply unchanged when the keyword is absent.
   */
  function TrimClassReply(content: string): (r: string)
    ensures IndexOf(content, ClassKeyword) == -1 ==> r == content
    ensures IndexOf(content, ClassKeyword) != -1 ==>
              StartsWith(r, ClassKeyword) && r == Trim(content[IndexOf(content, ClassKeyword)..])
  {
    var index := IndexOf(content, ClassKeyword);
    if index != -1 then
      assert SpaceFreeWord(ClassKeyword) by { KeywordsListed(); }
      TrimKeepsPrefix(content[index..], ClassKeyword);
      Trim(SubstringFrom(content, index))
    else content
  }

  /** Whenever the class keyword occurs in the reply, the trimmed reply is a valid diagram. */
  lemma ClassReplyIsDiagram(content: string)
    requires IndexOf(content, ClassKeyword) != -1
    ensures IsMermaidCode(TrimClassReply(content))
  {
    KeywordsListed();
    StartsWithKeywordIsMermaid(TrimClassReply(content), 3);
  }

  /** The fence cannot start inside an occurrence of the sequence keyword: the keyword has no backtick. */
  lemma FenceNotInsideKeyword(content: string, start: int, end: int)
    requires OccursAt(content, SequenceKeyword, start) && OccursAt(content, Fence, end)
    ensures end < start || end >= start + |SequenceKeyword|
  {
    assert content[end] == content[end..end + 3][0] == '`';
    if start <= end < start + |SequenceKeyword| {
      assert false;
    }
  }

  /**
   * The sequence refiner's post-processing as written: when both the keyword
   * and a fence occur, the trimmed `substring(first keyword, last fence)`,
   * whose bounds JavaScript swaps when the fence comes first; otherwise the
   * reply unchanged.
   */
  function TrimSequenceReplyAsWritten(content: string): (r: string)
    ensures IndexOf(content, SequenceKeyword) == -1 || LastIndexOf(content, Fence) == -1 ==> r == content
    ensures var s, e := IndexOf(content, SequenceKeyword), LastIndexOf(content, Fence);
            s != -1 && e != -1 ==> r == Trim(if s <= e then content[s..e] else content[e..s])
  {
    var startIndex := IndexOf(content, SequenceKeyword);
    var endIndex := LastIndexOf(content, Fence);
    if startIndex != -1 && endIndex != -1 then Trim(Substring(content, startIndex, endIndex)) else content
  }

  /** Each character of an occurrence is the pattern's character. */
  lemma OccursAtChar(s: string, p: string, i: int, k: nat)
    requires OccursAt(s, p, i) && k < |p|
    ensures s[i + k] == p[k]
  {
    assert s[i..i + |p|][k] == s[i + k];
  }

  /** An occurrence of the sequence keyword with no `s` before it is the first one. */
  lemma FirstSequenceKeyword(reply: string, s: nat)
    requires OccursAt(reply, SequenceKeyword, s)
    requires forall i :: 0 <= i < s ==> reply[i] != 's'
    ensures IndexOf(reply, SequenceKeyword) == s
  {
    var start := IndexOf(reply, SequenceKeyword);
    OccursAtChar(reply, SequenceKeyword, start, 0);
  }

  /** A fence at the very start with no backtick after it is the last fence. */
  lemma OnlyLeadingFence(reply: string)
    requires OccursAt(reply, Fence, 0)
    requires forall j :: 3 <= j < |reply| ==> reply[j] != '`'
    ensures LastIndexOf(reply, Fence) == 0
  {
    var end := LastIndexOf(reply, Fence);
    OccursAtChar(reply, Fence, end, 2);
  }

  /** The opening line of a fence: the fence, then no `s` and no further backtick. */
  predicate FenceHead(head: string)
  {
    |head| >= |Fence| && head[..|Fence|] == Fence
    && (forall i :: 0 <= i < |head| ==> head[i] != 's')
    && (forall i :: |Fence| <= i < |head| ==> head[i] != '`')
  }

  /**
   * A reply that opens a fence, then the keyword, and never closes the fence
   * (the model's output-token limit makes this ordinary) loses the whole
   * diagram: the bounds are swapped and what is left is the opening fence and its tag.
   */
  lemma {:induction false} UnclosedFenceLosesDiagram(head: string, rest: string)
    requires FenceHead(head) && '`' !in rest
    ensures TrimSequenceReplyAsWritten(head + SequenceKeyword + rest) == Trim(head)
  {
    var reply := head + SequenceKeyword + rest;
    UnclosedFenceShape(head, rest);
    FirstSequenceKeyword(reply, |head|);
    OnlyLeadingFence(reply);
    assert reply[0..|head|] == head;
  }

  /** Where the keyword and the fences sit in a reply whose fence is never closed. */
  lemma UnclosedFenceShape(head: string, rest: string)
    requires FenceHead(head) && '`' !in rest
    ensures var reply, s := head + SequenceKeyword + rest, |head|;
            && OccursAt(reply, SequenceKeyword, s)
            && (forall i :: 0 <= i < s ==> reply[i] != 's')
            && OccursAt(reply, Fence, 0)
            && (forall j :: 3 <= j < |reply| ==> reply[j] != '`')
  {
    var reply := head + SequenceKeyword + rest;
    var s := |head|;
    assert reply[s..s + |SequenceKeyword|] == SequenceKeyword;
    forall i | 0 <= i < s ensures reply[i] != 's' {
      assert reply[i] == head[i];
    }
    forall j | 3 <= j < |reply| ensures reply[j] != '`' {
      if j < s { assert reply[j] == head[j]; }
      else if j < s + |SequenceKeyword| { assert reply[j] == SequenceKeyword[j - s]; }
      else { assert reply[j] == rest[j - s - |SequenceKeyword|]; }
    }
    assert reply[0..3] == head[..3];
  }


  /** A space-free word followed by a line break trims to the word. */
  lemma TrimWordLine(w: string)
    requires SpaceFreeWord(w)
    ensures Trim(w + "\n") == w
  {
    assert IsSpace('\n');
    assert TrimStart(w + "\n") == w + "\n";
    assert (w + "\n")[..|w|] == w;
    assert TrimEnd(w + "\n") == TrimEnd(w);
  }

  /** The opening fence with its tag is one space-free word beginning with a backtick. */
  lemma FenceLineIsWord()
    ensures SpaceFreeWord(Fence + MermaidTag) && (Fence + MermaidTag)[0] == '`'
  {
  }

  /** A one-arrow diagram body, as the model would continue it. */
  const ArrowBody: string := "\n  A->>B: Call B\n"

  /** With a space-free tag on the fence line, the unclosed reply is cut down to that line. */
  lemma UnclosedTaggedFence(w: string, rest: string)
    requires SpaceFreeWord(Fence + w) && 's' !in w && '`' !in w && '`' !in rest
    ensures TrimSequenceReplyAsWritten(Fence + w + "\n" + SequenceKeyword + rest) == Fence + w
  {
    var head := Fence + w + "\n";
    forall i | 0 <= i < |head| ensures head[i] != 's' && (i >= |Fence| ==> head[i] != '`') {
      if i >= |Fence| && i < |Fence + w| { assert head[i] == w[i - |Fence|]; }
    }
    assert head[..|Fence|] == Fence;
    UnclosedFenceLosesDiagram(head, rest);
    TrimWordLine(Fence + w);
  }

  /** The tag and the arrow body carry no backtick, and the tag no `s`. */
  lemma TruncatedPartsPlain()
    ensures 's' !in MermaidTag && '`' !in MermaidTag && '`' !in ArrowBody
  {
  }

  /** Cutting off the reply after its first arrow leaves the opening fence and its tag. */
  lemma TruncatedReplyLeavesFence()
    ensures TrimSequenceReplyAsWritten(Fence + MermaidTag + "\n" + SequenceKeyword + ArrowBody)
            == Fence + MermaidTag
  {
    TruncatedPartsPlain();
    FenceLineIsWord();
    UnclosedTaggedFence(MermaidTag, ArrowBody);
  }

  /** What the truncated reply is cut down to is not a diagram. */
  lemma FenceLineIsNotDiagram()
    ensures !IsMermaidCode(Fence + MermaidTag)
  {
    FenceLineIsWord();
    NotDiagramWhenFenced(Fence + MermaidTag);
  }

  /** A line whose first character starts none of the words is matched by none of them. */
  lemma {:induction false} NoWordStarts(line: string, words: seq<string>)
    requires |line| > 0
    requires forall k :: 0 <= k < |words| ==> words[k] != [] && words[k][0] != line[0]
    ensures !SomeKeywordStarts(line, words)
    decreases |words|
  {
    if |words| > 0 {
      NoWordStarts(line, words[1..]);
    }
  }

  lemma KeywordInitials()
    ensures forall k :: 0 <= k < |DiagramKeywords| ==> DiagramKeywords[k] != [] && DiagramKeywords[k][0] != '`'
  {
  }

  /** Text that begins with a backtick and has no white space is not a diagram. */
  lemma NotDiagramWhenFenced(s: string)
    requires SpaceFreeWord(s) && s[0] == '`'
    ensures !IsMermaidCode(s)
  {
    assert '\n' !in s by {
      assert IsSpace('\n');
    }
    assert StartsWith(s, s);
    TrimKeepsPrefix(s, s);
    SplitHeadKeepsPrefix(Trim(s), '\n', s);
    TrimKeepsPrefix(Split(Trim(s), '\n')[0], s);
    var line := FirstLine(s);
    assert line[..|s|][0] == line[0];
    KeywordInitials();
    NoWordStarts(line, DiagramKeywords);
  }

  /**
   * The sequence post-processing with the swap removed: from the first
   * keyword up to the last fence when that fence follows it, else to the end
   * of the reply; the reply unchanged when the keyword or every fence is missing.
   */
  function TrimSequenceReply(content: string): (r: string)
    ensures IndexOf(content, SequenceKeyword) == -1 || LastIndexOf(content, Fence) == -1 ==> r == content
    ensures IndexOf(content, SequenceKeyword) != -1 && LastIndexOf(content, Fence) != -1 ==>
              StartsWith(r, SequenceKeyword)
  {
    var startIndex := IndexOf(content, SequenceKeyword);
    var endIndex := LastIndexOf(content, Fence);
    if startIndex != -1 && endIndex != -1 then
      KeywordsListed();
      FenceNotInsideKeyword(content, startIndex, endIndex);
      var body := if startIndex < endIndex then content[startIndex..endIndex] else content[startIndex..];
      assert body[..|SequenceKeyword|] == content[startIndex..startIndex + |SequenceKeyword|];
      TrimKeepsPrefix(body, SequenceKeyword);
      Trim(body)
    else content
  }

  /** Whenever both the keyword and a fence occur, the corrected post-processing yields a valid diagram. */
  lemma SequenceReplyIsDiagram(content: string)
    requires IndexOf(content, SequenceKeyword) != -1 && LastIndexOf(content, Fence) != -1
    ensures IsMermaidCode(TrimSequenceReply(content))
  {
    KeywordsListed();
    StartsWithKeywordIsMermaid(TrimSequenceReply(content), 2);
  }

  /** The correction changes nothing unless the last fence precedes the keyword. */
  lemma SequenceFixOnlyTouchesSwap(content: string)
    requires IndexOf(content, SequenceKeyword) == -1 || LastIndexOf(content, Fence) == -1
             || IndexOf(content, SequenceKeyword) < LastIndexOf(content, Fence)
    ensures TrimSequenceReplyAsWritten(content) == TrimSequenceReply(content)
  {
  }
}
