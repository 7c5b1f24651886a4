/** Word, line and paragraph counts of a transcript, as splits with the empty pieces dropped. */
module TranscriptCounts {
  import opened Basics
  import opened Transcript

  predicate IsBlankText(s: string) {
    forall i :: 0 <= i < |s| ==> IsSpace(s[i])
  }

  function NonBlank(pieces: seq<string>): nat {
    if pieces == [] then 0 else (if IsBlankText(pieces[0]) then 0 else 1) + NonBlank(pieces[1..])
  }

  // ---------------------------------------------------------------- words

  /** Where the word at the start of the text ends. */
  function WordEnd(s: string): (k: nat)
    ensures k <= |s|
    ensures s != "" && !IsSpace(s[0]) ==> k > 0
  {
    if s == "" || IsSpace(s[0]) then 0 else 1 + WordEnd(s[1..])
  }

  /** Pieces between runs of white space, the empty ones dropped. */
  function Words(s: string): nat
    decreases |s|
  {
    if s == "" then 0
    else if IsSpace(s[0]) then Words(s[1..])
    else 1 + Words(s[WordEnd(s)..])
  }

  // ---------------------------------------------------------------- lines

  function FirstNewline(s: string): (i: nat)
    ensures i <= |s|
    ensures forall k :: 0 <= k < i ==> s[k] != '\n'
    ensures i < |s| ==> s[i] == '\n'
  {
    if s == "" || s[0] == '\n' then 0 else 1 + FirstNewline(s[1..])
  }

  function SplitLines(s: string): seq<string>
    decreases |s|
  {
    var i := FirstNewline(s);
    if i == |s| then [s] else [s[..i]] + SplitLines(s[i + 1..])
  }

  function Lines(s: string): nat {
    NonBlank(SplitLines(s))
  }

  // ---------------------------------------------------------------- paragraphs

  function SpaceEnd(s: string, i: nat): (k: nat)
    requires i <= |s|
    ensures i <= k <= |s| && forall j :: i <= j < k ==> IsSpace(s[j])
    decreases |s| - i
  {
    if i < |s| && IsSpace(s[i]) then SpaceEnd(s, i + 1) else i
  }

  /** The last newline in a stretch, if any. */
  function LastNewline(s: string, low: nat, high: nat): (r: Option<nat>)
    requires low <= high <= |s|
    ensures r.Some? ==> low <= r.value < high && s[r.value] == '\n'
    ensures r.None? ==> forall k :: low <= k < high ==> s[k] != '\n'
    decreases high
  {
    if low == high then None
    else if s[high - 1] == '\n' then Some(high - 1)
    else LastNewline(s, low, high - 1)
  }

  /** A paragraph break that starts here: a newline, white space as far as possible, and a newline. */
  function BreakEnd(s: string, i: nat): (r: Option<nat>)
    requires i < |s|
    ensures r.Some? ==> i + 1 < r.value <= |s| && s[i] == '\n' && s[r.value - 1] == '\n' && IsBlankText(s[i..r.value])
  {
    if s[i] != '\n' then None
    else
      var last := LastNewline(s, i + 1, SpaceEnd(s, i + 1));
      if last == None then None else Some(last.value + 1)
  }

  /** Split at the breaks, scanning from position `i`. */
  function SplitParagraphs(s: string, i: nat): seq<string>
    requires i <= |s|
    decreases |s|, |s| - i
  {
    if i == |s| then [s]
    else
      var end := BreakEnd(s, i);
      if end == None then SplitParagraphs(s, i + 1) else [s[..i]] + SplitParagraphs(s[end.value..], 0)
  }

  function Paragraphs(s: string): nat {
    NonBlank(SplitParagraphs(s, 0))
  }

  // ---------------------------------------------------------------- counts add up over line ends

  lemma {:induction false} WordEndStops(a: string, b: string)
    requires a != "" && !IsSpace(a[0])
    ensures WordEnd(a + "\n" + b) == WordEnd(a)
  {
    assert (a + "\n" + b)[1..] == a[1..] + "\n" + b;
    if |a| > 1 && !IsSpace(a[1]) {
      WordEndStops(a[1..], b);
    }
  }

  lemma {:induction false} WordsAdd(a: string, b: string)
    ensures Words(a + "\n" + b) == Words(a) + Words(b)
    decreases |a|
  {
    var s := a + "\n" + b;
    if a == "" {
      assert s[1..] == b;
    } else if IsSpace(a[0]) {
      assert s[1..] == a[1..] + "\n" + b;
      WordsAdd(a[1..], b);
    } else {
      WordEndStops(a, b);
      assert s[WordEnd(a)..] == a[WordEnd(a)..] + "\n" + b;
      WordsAdd(a[WordEnd(a)..], b);
    }
  }

  lemma {:induction false} WordsPresent(s: string)
    ensures Words(s) == 0 <==> IsBlankText(s)
    ensures Words(s) <= |s|
    decreases |s|
  {
    if s != "" {
      if IsSpace(s[0]) {
        WordsPresent(s[1..]);
        assert forall i :: 0 < i < |s| ==> s[i] == s[1..][i - 1];
      } else {
        WordsPresent(s[WordEnd(s)..]);
      }
    }
  }

  lemma FirstNewlineIn(a: string, b: string)
    ensures FirstNewline(a + "\n" + b) == FirstNewline(a)
  {
    var s, i := a + "\n" + b, FirstNewline(a);
    assert s[i] == '\n' && forall k :: 0 <= k < i ==> s[k] == a[k];
  }

  lemma {:induction false} LinesAdd(a: string, b: string)
    ensures Lines(a + "\n" + b) == Lines(a) + Lines(b)
    decreases |a|
  {
    var s, i := a + "\n" + b, FirstNewline(a);
    FirstNewlineIn(a, b);
    assert s[..i] == a[..i];
    LinesStep(s);
    LinesStep(a);
    if i == |a| {
      assert s[i + 1..] == b && a[..i] == a;
    } else {
      assert s[i + 1..] == a[i + 1..] + "\n" + b;
      LinesAdd(a[i + 1..], b);
    }
  }

  lemma NonBlankCons(piece: string, rest: seq<string>)
    ensures NonBlank([piece] + rest) == (if IsBlankText(piece) then 0 else 1) + NonBlank(rest)
  {
    assert ([piece] + rest)[1..] == rest;
  }

  lemma LinesStep(s: string)
    ensures var i := FirstNewline(s);
            Lines(s) == (if IsBlankText(s[..i]) then 0 else 1) + (if i == |s| then 0 else Lines(s[i + 1..]))
  {
    var i := FirstNewline(s);
    if i == |s| {
      assert s[..i] == s;
      NonBlankCons(s, []);
      assert [s] + [] == [s];
    } else {
      NonBlankCons(s[..i], SplitLines(s[i + 1..]));
    }
  }

  /** A line that is not blank holds a word. */
  lemma {:induction false} LinesWithinWords(s: string)
    ensures Lines(s) <= Words(s)
    ensures Lines(s) == 0 ==> IsBlankText(s)
    decreases |s|
  {
    var i := FirstNewline(s);
    LinesStep(s);
    WordsPresent(s[..i]);
    WordsPresent(s);
    if i == |s| {
      assert s[..i] == s;
    } else {
      LinesWithinWords(s[i + 1..]);
      assert s == s[..i] + "\n" + s[i + 1..];
      WordsAdd(s[..i], s[i + 1..]);
      WordsPresent(s[i + 1..]);
    }
  }

  /** A paragraph that is not blank holds a line that is not blank, and breaks hold none. */
  lemma {:induction false} ParagraphsWithinLines(s: string, i: nat)
    requires i <= |s|
    ensures NonBlank(SplitParagraphs(s, i)) <= Lines(s)
    ensures NonBlank(SplitParagraphs(s, i)) == 0 ==> IsBlankText(s)
    decreases |s|, |s| - i
  {
    LinesWithinWords(s);
    if i == |s| {
      NonBlankCons(s, []);
      assert [s] + [] == [s];
    } else if BreakEnd(s, i) == None {
      ParagraphsWithinLines(s, i + 1);
    } else {
      var end := BreakEnd(s, i).value;
      ParagraphsWithinLines(s[end..], 0);
      LinesAtBreak(s, i, end);
      NonBlankCons(s[..i], SplitParagraphs(s[end..], 0));
      LinesWithinWords(s[..i]);
      if IsBlankText(s[..i]) && IsBlankText(s[end..]) {
        BlankParts(s, i, end);
      }
    }
  }

  lemma LinesAtBreak(s: string, i: nat, end: nat)
    requires i + 1 < end <= |s| && s[i] == '\n' && s[end - 1] == '\n'
    ensures Lines(s) >= Lines(s[..i]) + Lines(s[end..])
  {
    var before, gap, after := s[..i], s[i + 1..end - 1], s[end..];
    assert s == before + "\n" + (gap + "\n" + after);
    LinesAdd(before, gap + "\n" + after);
    LinesAdd(gap, after);
  }

  lemma BlankParts(s: string, i: nat, end: nat)
    requires i < end <= |s| && IsBlankText(s[i..end]) && IsBlankText(s[..i]) && IsBlankText(s[end..])
    ensures IsBlankText(s)
  {
    forall k | 0 <= k < |s| ensures IsSpace(s[k]) {
      if k < i {
        assert s[..i][k] == s[k];
      } else if k < end {
        assert s[i..end][k - i] == s[k];
      } else {
        assert s[end..][k - end] == s[k];
      }
    }
  }

  /** On a normal form that is not empty: at least one paragraph, and no more paragraphs than lines than words than characters. */
  lemma CountsOrdered(s: string)
    requires s != "" && IsNormal(s)
    ensures 1 <= Paragraphs(s) <= Lines(s) <= Words(s) <= |s|
  {
    ParagraphsWithinLines(s, 0);
    LinesWithinWords(s);
    WordsPresent(s);
    assert !IsSpace(s[0]);
  }
}
