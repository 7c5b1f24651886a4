/** What the counts of a transcript count, said of the text itself: the places where a word, a line or a paragraph starts. */
module TranscriptStarts {
  import opened Basics
  import opened Transcript
  import opened TranscriptCounts

  predicate Solid(s: string, i: int) {
    0 <= i < |s| && s[i] !in WHITE_SPACE
  }

  /** A word starts here: no white space, but at the start of the text or after white space. */
  predicate WordAt(s: string, i: int) {
    Solid(s, i) && (i == 0 || s[i - 1] in WHITE_SPACE)
  }

  /** At how many of the first n places a word starts. */
  function WordStarts(s: string, n: nat): nat {
    if n == 0 then 0 else WordStarts(s, n - 1) + if WordAt(s, n - 1) then 1 else 0
  }

  /** One newline, or two, between two places. */
  ghost predicate Gap(s: string, k: int, i: int, two: bool) {
    exists m, n :: 0 <= m < |s| && 0 <= n < |s| && k < m <= n < i && s[m] == '\n' && s[n] == '\n' && (two ==> m < n)
  }

  /** A line, or a paragraph, starts here: a newline, or two, since whatever came before that is not white space. */
  ghost predicate StartsAt(s: string, i: int, two: bool) {
    Solid(s, i) && forall k :: 0 <= k < i && Solid(s, k) ==> Gap(s, k, i, two)
  }

  ghost function Starts(s: string, two: bool, n: nat): nat {
    if n == 0 then 0 else Starts(s, two, n - 1) + if StartsAt(s, n - 1, two) then 1 else 0
  }

  // ---------------------------------------------------------------- words

  lemma SolidIs(s: string, i: int)
    requires 0 <= i < |s|
    ensures Solid(s, i) <==> !IsSpace(s[i])
  {
    SpaceIs(s[i]);
  }

  lemma {:induction false} WordEndIs(s: string)
    requires s != "" && Solid(s, 0)
    ensures var e := WordEnd(s); 0 < e <= |s| && (forall i :: 0 <= i < e ==> s[i] !in WHITE_SPACE) && (e < |s| ==> s[e] in WHITE_SPACE)
  {
    SolidIs(s, 0);
    if |s| > 1 {
      SolidIs(s, 1);
      if Solid(s, 1) {
        WordEndIs(s[1..]);
        assert forall i :: 0 < i < |s| ==> s[i] == s[1..][i - 1];
      }
    }
  }

  /** Words start after position e of the text as they do in what is left from there, if that is where a word ended. */
  lemma WordMoves(s: string, e: nat, i: nat)
    requires 0 < e <= |s| && (e < |s| ==> s[e] in WHITE_SPACE || s[e - 1] in WHITE_SPACE)
    ensures WordAt(s[e..], i) <==> WordAt(s, e + i)
  {
  }

  lemma {:induction false} WordsCarryOn(s: string, e: nat, n: nat)
    requires 0 < e <= |s| && (e < |s| ==> s[e] in WHITE_SPACE || s[e - 1] in WHITE_SPACE)
    ensures WordStarts(s, e + n) == WordStarts(s, e) + WordStarts(s[e..], n)
  {
    hide WordAt;
    if n > 0 {
      WordsCarryOn(s, e, n - 1);
      WordMoves(s, e, n - 1);
    }
  }

  lemma {:induction false} OneWord(s: string, e: nat)
    requires 0 < e && forall i :: 0 <= i < e ==> (WordAt(s, i) <==> i == 0 && Solid(s, 0))
    ensures WordStarts(s, e) == if Solid(s, 0) then 1 else 0
    decreases e
  {
    hide WordAt, Solid;
    if e > 1 {
      OneWord(s, e - 1);
    }
  }

  /** The words that splitting at white space leaves are as many as there are places where a word starts. */
  lemma {:induction false} WordsAreStarts(s: string)
    ensures Words(s) == WordStarts(s, |s|)
    decreases |s|
  {
    hide WordAt, Words;
    if s == "" {
      NoWords();
    } else {
      var e := if Solid(s, 0) then WordEnd(s) else 1;
      WordsStep(s, e);
      WordsAreStarts(s[e..]);
      WordsCarryOn(s, e, |s| - e);
      OneWord(s, e);
    }
  }

  lemma NoWords()
    ensures Words("") == 0
  {
  }

  lemma WordsStep(s: string, e: nat)
    requires s != "" && e == if Solid(s, 0) then WordEnd(s) else 1
    ensures 0 < e <= |s| && (e < |s| ==> s[e] in WHITE_SPACE || s[e - 1] in WHITE_SPACE)
    ensures Words(s) == Words(s[e..]) + if Solid(s, 0) then 1 else 0
    ensures forall i :: 0 <= i < e ==> (WordAt(s, i) <==> i == 0 && Solid(s, 0))
  {
    SolidIs(s, 0);
    if Solid(s, 0) {
      WordEndIs(s);
    }
  }

  // ---------------------------------------------------------------- a text of two parts

  lemma GapMoves(a: string, b: string, k: int, i: int, two: bool)
    requires -1 <= k && i <= |b|
    ensures Gap(b, k, i, two) <==> Gap(a + b, |a| + k, |a| + i, two)
  {
    var s := a + b;
    assert forall j :: 0 <= j < |b| ==> s[|a| + j] == b[j];
    if Gap(b, k, i, two) {
      var m, n :| 0 <= m < |b| && 0 <= n < |b| && k < m <= n < i && b[m] == '\n' && b[n] == '\n' && (two ==> m < n);
      assert s[|a| + m] == '\n' && s[|a| + n] == '\n';
    }
    if Gap(s, |a| + k, |a| + i, two) {
      var m, n :| 0 <= m < |s| && 0 <= n < |s| && |a| + k < m <= n < |a| + i && s[m] == '\n' && s[n] == '\n' && (two ==> m < n);
      assert b[m - |a|] == '\n' && b[n - |a|] == '\n';
    }
  }

  lemma GapStays(a: string, b: string, k: int, i: int, two: bool)
    requires i <= |a|
    ensures Gap(a, k, i, two) <==> Gap(a + b, k, i, two)
  {
    var s := a + b;
    assert forall j :: 0 <= j < |a| ==> s[j] == a[j];
    if Gap(a, k, i, two) {
      var m, n :| 0 <= m < |a| && 0 <= n < |a| && k < m <= n < i && a[m] == '\n' && a[n] == '\n' && (two ==> m < n);
      assert s[m] == '\n' && s[n] == '\n';
    }
    if Gap(s, k, i, two) {
      var m, n :| 0 <= m < |s| && 0 <= n < |s| && k < m <= n < i && s[m] == '\n' && s[n] == '\n' && (two ==> m < n);
      assert a[m] == '\n' && a[n] == '\n';
    }
  }

  /** White space with a newline in it, or two where two are asked for. */
  ghost predicate Parts(gap: string, two: bool) {
    (forall i :: 0 <= i < |gap| ==> !Solid(gap, i)) && Gap(gap, -1, |gap|, two)
  }

  lemma SolidMoves(a: string, b: string, i: int)
    ensures i >= |a| ==> (Solid(a + b, i) <==> Solid(b, i - |a|))
    ensures i < |a| ==> (Solid(a + b, i) <==> Solid(a, i))
  {
  }

  lemma FirstPart(a: string, rest: string, i: nat, two: bool)
    requires i < |a|
    ensures StartsAt(a + rest, i, two) <==> StartsAt(a, i, two)
  {
    hide Gap, Solid;
    forall k | 0 <= k <= i
      ensures Solid(a + rest, k) <==> Solid(a, k)
      ensures Gap(a + rest, k, i, two) <==> Gap(a, k, i, two)
    {
      SolidMoves(a, rest, k);
      GapStays(a, rest, k, i, two);
    }
  }

  lemma GapInside(a: string, gap: string, b: string, k: nat, i: nat, two: bool)
    requires Parts(gap, two) && k < |a| && i >= |a| + |gap| && i <= |a| + |gap| + |b|
    ensures Gap(a + gap + b, k, i, two)
  {
    var m, n :| 0 <= m < |gap| && 0 <= n < |gap| && -1 < m <= n < |gap| && gap[m] == '\n' && gap[n] == '\n' && (two ==> m < n);
    var s := a + gap + b;
    assert s[|a| + m] == '\n' && s[|a| + n] == '\n';
  }

  lemma LastPart(a: string, gap: string, b: string, i: nat, two: bool)
    requires Parts(gap, two) && i < |b|
    ensures StartsAt(a + gap + b, |a| + |gap| + i, two) <==> StartsAt(b, i, two)
  {
    hide Gap, Solid;
    var s, d := a + gap + b, |a| + |gap|;
    forall k | 0 <= k <= i
      ensures Solid(s, d + k) <==> Solid(b, k)
      ensures Gap(s, d + k, d + i, two) <==> Gap(b, k, i, two)
    {
      SolidMoves(a + gap, b, d + k);
      GapMoves(a + gap, b, k, i, two);
    }
    forall k | 0 <= k < d && Solid(s, k) ensures Gap(s, k, d + i, two) {
      SolidMoves(a + gap, b, k);
      SolidMoves(a, gap, k);
      GapInside(a, gap, b, k, d + i, two);
    }
    if StartsAt(s, d + i, two) {
      forall k | 0 <= k < i && Solid(b, k) ensures Gap(b, k, i, two) {
        assert Solid(s, d + k);
      }
    }
    if StartsAt(b, i, two) {
      forall k | d <= k < d + i && Solid(s, k) ensures Gap(s, k, d + i, two) {
        assert Solid(b, k - d) && k == d + (k - d);
      }
    }
  }

  lemma {:induction false} StartsStay(a: string, rest: string, n: nat, two: bool)
    requires n <= |a|
    ensures Starts(a + rest, two, n) == Starts(a, two, n)
  {
    hide StartsAt;
    if n > 0 {
      StartsStay(a, rest, n - 1, two);
      FirstPart(a, rest, n - 1, two);
    }
  }

  lemma {:induction false} NoneInGap(a: string, gap: string, b: string, n: nat, two: bool)
    requires Parts(gap, two) && n <= |gap|
    ensures Starts(a + gap + b, two, |a| + n) == Starts(a, two, |a|)
  {
    hide Gap, Solid;
    assert a + gap + b == a + (gap + b);
    if n == 0 {
      StartsStay(a, gap + b, |a|, two);
    } else {
      NoneInGap(a, gap, b, n - 1, two);
      SolidMoves(a, gap + b, |a| + n - 1);
      SolidMoves(gap, b, n - 1);
    }
  }

  lemma {:induction false} StartsCarryOn(a: string, gap: string, b: string, n: nat, two: bool)
    requires Parts(gap, two) && n <= |b|
    ensures Starts(a + gap + b, two, |a| + |gap| + n) == Starts(a, two, |a|) + Starts(b, two, n)
  {
    hide StartsAt, Parts;
    if n == 0 {
      NoneInGap(a, gap, b, |gap|, two);
    } else {
      StartsCarryOn(a, gap, b, n - 1, two);
      LastPart(a, gap, b, n - 1, two);
    }
  }

  /** A gap parts a text into two whose starts are those of the whole. */
  lemma StartsSplit(a: string, gap: string, b: string, two: bool)
    requires Parts(gap, two)
    ensures var s := a + gap + b; Starts(s, two, |s|) == Starts(a, two, |a|) + Starts(b, two, |b|)
  {
    StartsCarryOn(a, gap, b, |b|, two);
  }

  // ---------------------------------------------------------------- a text of one part

  lemma {:induction false} SolidBefore(s: string, i: nat) returns (k: int)
    requires i <= |s|
    ensures -1 <= k < i && (k >= 0 ==> Solid(s, k)) && forall j :: k < j < i ==> !Solid(s, j)
  {
    if i == 0 {
      k := -1;
    } else if Solid(s, i - 1) {
      k := i - 1;
    } else {
      k := SolidBefore(s, i - 1);
    }
  }

  /** No white space between two solid characters has a newline in it, or two where two are asked for. */
  ghost predicate Whole(s: string, two: bool) {
    forall k, i :: 0 <= k < i < |s| && Solid(s, k) && Solid(s, i) && (forall j :: k < j < i ==> !Solid(s, j)) ==> !Gap(s, k, i, two)
  }

  /** Only the first solid character starts something. */
  lemma {:induction false} WholeStarts(s: string, n: nat, two: bool)
    requires Whole(s, two) && n <= |s|
    ensures Starts(s, two, n) == if forall i :: 0 <= i < n ==> !Solid(s, i) then 0 else 1
  {
    hide Gap, Solid;
    if n > 0 {
      WholeStarts(s, n - 1, two);
      var k := SolidBefore(s, n - 1);
    }
  }

  lemma BlankIs(s: string)
    ensures IsBlankText(s) <==> forall i :: 0 <= i < |s| ==> !Solid(s, i)
  {
    forall i | 0 <= i < |s| ensures Solid(s, i) <==> !IsSpace(s[i]) {
      SolidIs(s, i);
    }
  }

  lemma WholeStartsOnce(s: string, two: bool)
    requires Whole(s, two)
    ensures Starts(s, two, |s|) == if IsBlankText(s) then 0 else 1
  {
    WholeStarts(s, |s|, two);
    BlankIs(s);
  }

  // ---------------------------------------------------------------- lines

  lemma NoNewlineIsWhole(s: string)
    requires forall i :: 0 <= i < |s| ==> s[i] != '\n'
    ensures Whole(s, false)
  {
  }

  lemma NewlineParts()
    ensures Parts("\n", false)
  {
    var gap := "\n";
    assert gap[0] == '\n';
  }

  /** The lines that are not blank are as many as there are places where a line starts. */
  lemma {:induction false} LinesAreStarts(s: string)
    ensures Lines(s) == Starts(s, false, |s|)
    decreases |s|
  {
    hide Whole, Starts, Parts;
    var i := FirstNewline(s);
    LinesStep(s);
    NoNewlineIsWhole(s[..i]);
    WholeStartsOnce(s[..i], false);
    if i == |s| {
      assert s[..i] == s;
    } else {
      LinesAreStarts(s[i + 1..]);
      NewlineParts();
      StartsSplit(s[..i], "\n", s[i + 1..], false);
      assert s == s[..i] + "\n" + s[i + 1..];
    }
  }

  // ---------------------------------------------------------------- paragraphs

  lemma {:induction false} SpacesEnd(s: string, i: nat, k: nat)
    requires i <= k <= |s| && forall j :: i <= j < k ==> IsSpace(s[j])
    ensures SpaceEnd(s, i) >= k
    decreases k - i
  {
    if i < k {
      SpacesEnd(s, i + 1, k);
    }
  }

  lemma BreakHere(s: string, m: nat, n: nat, p: nat)
    requires m < n < p <= |s| && s[m] == '\n' && s[n] == '\n' && forall j :: m + 1 <= j < p ==> IsSpace(s[j])
    ensures BreakEnd(s, m).Some?
  {
    SpacesEnd(s, m + 1, p);
  }

  /** Where no break starts, the text so far is one paragraph. */
  lemma NoBreakIsWhole(s: string, i: nat)
    requires i <= |s| && forall j :: 0 <= j < i ==> BreakEnd(s, j) == None
    ensures Whole(s[..i], true)
  {
    var a := s[..i];
    forall k, p | 0 <= k < p < |a| && Solid(a, k) && Solid(a, p) && (forall j :: k < j < p ==> !Solid(a, j))
      ensures !Gap(a, k, p, true)
    {
      if Gap(a, k, p, true) {
        var m, n :| 0 <= m < |a| && 0 <= n < |a| && k < m <= n < p && a[m] == '\n' && a[n] == '\n' && m < n;
        forall j | m + 1 <= j < p ensures IsSpace(s[j]) {
          SolidIs(a, j);
        }
        BreakHere(s, m, n, p);
      }
    }
  }

  lemma BreakParts(s: string, i: nat)
    requires i < |s| && BreakEnd(s, i).Some?
    ensures Parts(s[i..BreakEnd(s, i).value], true)
  {
    var gap := s[i..BreakEnd(s, i).value];
    assert gap[0] == '\n' && gap[|gap| - 1] == '\n';
    BlankIs(gap);
  }

  lemma {:induction false} ParagraphsFrom(s: string, i: nat)
    requires i <= |s| && forall j :: 0 <= j < i ==> BreakEnd(s, j) == None
    ensures NonBlank(SplitParagraphs(s, i)) == Starts(s, true, |s|)
    decreases |s|, |s| - i
  {
    hide Whole, Starts, Parts, BreakEnd;
    NoBreakIsWhole(s, i);
    if i == |s| {
      assert s[..i] == s;
      NonBlankCons(s, []);
      assert [s] + [] == [s];
      WholeStartsOnce(s, true);
    } else if BreakEnd(s, i) == None {
      ParagraphsFrom(s, i + 1);
    } else {
      var end := BreakEnd(s, i).value;
      ParagraphsFrom(s[end..], 0);
      NonBlankCons(s[..i], SplitParagraphs(s[end..], 0));
      WholeStartsOnce(s[..i], true);
      BreakParts(s, i);
      StartsSplit(s[..i], s[i..end], s[end..], true);
      assert s == s[..i] + s[i..end] + s[end..];
    }
  }

  /** The paragraphs that are not blank are as many as there are places where a paragraph starts. */
  lemma ParagraphsAreStarts(s: string)
    ensures Paragraphs(s) == Starts(s, true, |s|)
  {
    ParagraphsFrom(s, 0);
  }
}
