/** Which transcripts have one normal form, said of the texts as they are read: letter by letter, and white space run by run. */
module TranscriptRuns {
  import opened Transcript

  /** A run of blanks, a run of line ends, or any other character. */
  datatype Run = Blanks | Lines(n: nat) | Letter(c: char)

  /** The length of the line end a text starts with: a return with its newline, a return, a newline. */
  function LineEnd(s: string): (n: nat)
    ensures n <= |s|
  {
    if |s| > 1 && s[0] == '\r' && s[1] == '\n' then 2
    else if s != "" && (s[0] == '\r' || s[0] == '\n') then 1
    else 0
  }

  function OneBlank(runs: seq<Run>): seq<Run> {
    if runs != [] && runs[0].Blanks? then runs else [Blanks] + runs
  }

  function OneLine(runs: seq<Run>): seq<Run> {
    if runs != [] && runs[0].Lines? then [Lines(runs[0].n + 1)] + runs[1..] else [Lines(1)] + runs
  }

  /** A text as it was written, read into runs. */
  function Runs(s: string): seq<Run>
    decreases |s|
  {
    if s == "" then []
    else if IsBlank(s[0]) then OneBlank(Runs(s[1..]))
    else if LineEnd(s) > 0 then OneLine(Runs(s[LineEnd(s)..]))
    else [Letter(s[0])] + Runs(s[1..])
  }

  predicate White(run: Run) {
    run.Letter? ==> IsSpace(run.c)
  }

  function WithoutStart(runs: seq<Run>): seq<Run> {
    if runs != [] && White(runs[0]) then WithoutStart(runs[1..]) else runs
  }

  function WithoutEnd(runs: seq<Run>): seq<Run> {
    if runs != [] && White(runs[|runs| - 1]) then WithoutEnd(runs[..|runs| - 1]) else runs
  }

  /** What a text says: its runs without the white space around them. */
  function Core(s: string): seq<Run> {
    WithoutEnd(WithoutStart(Runs(s)))
  }

  /** Two runs of line ends are alike from two line ends on; all else is alike only when equal. */
  predicate Alike(x: Run, y: Run) {
    x == y || (x.Lines? && y.Lines? && x.n >= 2 && y.n >= 2)
  }

  predicate AllAlike(a: seq<Run>, b: seq<Run>) {
    |a| == |b| && forall i :: 0 <= i < |a| ==> Alike(a[i], b[i])
  }

  // ---------------------------------------------------------------- the shape of a reading

  predicate Legal(run: Run) {
    match run
    case Blanks => true
    case Lines(n) => n >= 1
    case Letter(c) => !IsBlank(c) && c != '\n' && c != '\r'
  }

  /** Runs are as long as they can be. */
  predicate Apart(x: Run, y: Run) {
    !(x.Blanks? && y.Blanks?) && !(x.Lines? && y.Lines?)
  }

  ghost predicate WellRead(runs: seq<Run>) {
    && (forall i :: 0 <= i < |runs| ==> Legal(runs[i]))
    && forall i, k :: 0 <= i < k < |runs| && k == i + 1 ==> Apart(runs[i], runs[k])
  }

  lemma WellReadMore(run: Run, rest: seq<Run>)
    requires WellRead(rest) && Legal(run) && (rest != [] ==> Apart(run, rest[0]))
    ensures WellRead([run] + rest)
  {
    var all := [run] + rest;
    assert forall i :: 0 < i < |all| ==> all[i] == rest[i - 1];
  }

  lemma WellReadTail(runs: seq<Run>)
    requires WellRead(runs) && runs != []
    ensures WellRead(runs[1..]) && (|runs| > 1 ==> Apart(runs[0], runs[1]))
  {
    assert forall i :: 0 <= i < |runs| - 1 ==> runs[1..][i] == runs[i + 1];
  }

  lemma {:induction false} RunsWellRead(s: string)
    ensures WellRead(Runs(s))
    decreases |s|
  {
    if s == "" {
    } else if IsBlank(s[0]) {
      var rest := Runs(s[1..]);
      RunsWellRead(s[1..]);
      if !(rest != [] && rest[0].Blanks?) {
        WellReadMore(Blanks, rest);
      }
    } else if LineEnd(s) > 0 {
      var rest := Runs(s[LineEnd(s)..]);
      RunsWellRead(s[LineEnd(s)..]);
      if rest != [] && rest[0].Lines? {
        WellReadTail(rest);
        WellReadMore(Lines(rest[0].n + 1), rest[1..]);
      } else {
        WellReadMore(Lines(1), rest);
      }
    } else {
      RunsWellRead(s[1..]);
      WellReadMore(Letter(s[0]), Runs(s[1..]));
    }
  }

  lemma {:induction false} StartWellRead(runs: seq<Run>)
    requires WellRead(runs)
    ensures WellRead(WithoutStart(runs))
  {
    if runs != [] && White(runs[0]) {
      WellReadTail(runs);
      StartWellRead(runs[1..]);
    }
  }

  lemma {:induction false} EndWellRead(runs: seq<Run>)
    requires WellRead(runs)
    ensures WellRead(WithoutEnd(runs))
  {
    if runs != [] && White(runs[|runs| - 1]) {
      var init := runs[..|runs| - 1];
      assert forall i :: 0 <= i < |init| ==> init[i] == runs[i];
      EndWellRead(init);
    }
  }

  // ---------------------------------------------------------------- the rewrites keep the reading

  /** The first two rewrites together: every line end becomes a newline. */
  lemma LineEndsUnified(s: string)
    requires s != ""
    ensures var n := LineEnd(s);
            CrToLf(CrLfToLf(s)) == if n > 0 then "\n" + CrToLf(CrLfToLf(s[n..])) else [s[0]] + CrToLf(CrLfToLf(s[1..]))
  {
    var n := LineEnd(s);
    var c := if n == 2 then '\n' else s[0];
    var rest := CrLfToLf(s[if n > 0 then n else 1..]);
    assert CrLfToLf(s) == [c] + rest;
    assert ([c] + rest)[1..] == rest;
  }

  lemma {:induction false} ReadUnified(s: string)
    ensures Runs(CrToLf(CrLfToLf(s))) == Runs(s)
    decreases |s|
  {
    if s != "" {
      LineEndsUnified(s);
      var n := LineEnd(s);
      var first, rest := if n > 0 then '\n' else s[0], CrToLf(CrLfToLf(s[if n > 0 then n else 1..]));
      assert CrToLf(CrLfToLf(s)) == [first] + rest && ([first] + rest)[1..] == rest;
      ReadUnified(s[if n > 0 then n else 1..]);
    }
  }

  lemma {:induction false} ReadDropped(s: string)
    requires NoReturns(s)
    ensures OneBlank(Runs(DropBlanks(s))) == OneBlank(Runs(s))
  {
    if s != "" && IsBlank(s[0]) {
      ReadDropped(s[1..]);
    }
  }

  lemma {:induction false} ReadCollapsed(s: string)
    requires NoReturns(s)
    ensures Runs(CollapseBlanks(s)) == Runs(s)
    decreases |s|
  {
    if s != "" {
      var rest := if IsBlank(s[0]) then DropBlanks(s[1..]) else s[1..];
      var first := if IsBlank(s[0]) then ' ' else s[0];
      DroppedBlanks(s[1..]);
      ReadCollapsed(rest);
      assert CollapseBlanks(s) == [first] + CollapseBlanks(rest);
      assert ([first] + CollapseBlanks(rest))[1..] == CollapseBlanks(rest);
      BlanksCollapsed(s);
      assert CollapseBlanks(s)[0] == first;
      if IsBlank(s[0]) {
        ReadDropped(s[1..]);
      }
    }
  }

  // ---------------------------------------------------------------- the normal form shows the reading

  function Show(run: Run): (s: string)
    ensures s != ""
  {
    match run
    case Blanks => " "
    case Lines(n) => if n >= 2 then "\n\n" else "\n"
    case Letter(c) => [c]
  }

  function ShowAll(runs: seq<Run>): string {
    if runs == [] then "" else Show(runs[0]) + ShowAll(runs[1..])
  }

  lemma ShowCons(run: Run, rest: seq<Run>)
    ensures ShowAll([run] + rest) == Show(run) + ShowAll(rest)
  {
    assert ([run] + rest)[1..] == rest;
  }

  /** A text that starts with newlines reads as that many line ends, and then the rest. */
  lemma {:induction false} ReadNewlines(s: string) returns (n: nat)
    requires NoReturns(s) && s != "" && s[0] == '\n'
    ensures n >= 1 && Runs(s) == [Lines(n)] + Runs(DropNewlines(s))
    ensures forall k: nat :: Newlines(s, k) <==> k <= n
    decreases |s|
  {
    n := 1;
    var rest := s[1..];
    assert LineEnd(s) == 1;
    assert forall k: nat :: k > 0 ==> (Newlines(s, k) <==> Newlines(rest, k - 1)) by {
      forall k: nat | k > 0 ensures Newlines(s, k) <==> Newlines(rest, k - 1) {
        OneLess(s, k);
      }
    }
    if rest != "" && rest[0] == '\n' {
      n := ReadNewlines(rest);
      assert ([Lines(n)] + Runs(DropNewlines(rest)))[1..] == Runs(DropNewlines(rest));
      n := n + 1;
    } else {
      NotLines(rest);
    }
  }

  lemma OneLess(s: string, k: nat)
    requires s != "" && s[0] == '\n' && k > 0
    ensures Newlines(s, k) <==> Newlines(s[1..], k - 1)
  {
    if Newlines(s[1..], k - 1) {
      forall i | 0 < i < k ensures s[i] == '\n' {
        assert s[1..][i - 1] == '\n';
      }
    }
  }

  lemma NotLines(s: string)
    requires NoReturns(s) && (s != "" ==> s[0] != '\n')
    ensures Runs(s) != [] ==> !Runs(s)[0].Lines?
  {
  }

  lemma NotBlanks(s: string)
    requires s != "" ==> !IsBlank(s[0])
    ensures Runs(s) != [] ==> !Runs(s)[0].Blanks?
  {
  }

  lemma DropThree(s: string)
    requires Newlines(s, 3)
    ensures DropNewlines(s) == DropNewlines(s[3..])
  {
    assert s[1..][1..] == s[2..] && s[2..][1..] == s[3..];
    assert s[1..][0] == s[1] && s[2..][0] == s[2];
    assert DropNewlines(s[1..]) == DropNewlines(s[2..]);
  }

  lemma {:induction false} NewlinesShow(s: string)
    requires Shaped0(s)
    ensures CollapseNewlines(s) == ShowAll(Runs(s))
    decreases |s|
  {
    if s == "" {
    } else if s[0] == '\n' {
      ShowNewlines(s);
    } else {
      TailKeepsShape(s, 1);
      NewlinesShow(s[1..]);
      ShowCons(if IsBlank(s[0]) then Blanks else Letter(s[0]), Runs(s[1..]));
      if IsBlank(s[0]) {
        assert |s| > 1 ==> !IsBlank(s[1]);
        NotBlanks(s[1..]);
      }
    }
  }

  lemma {:induction false} ShowNewlines(s: string)
    requires Shaped0(s) && s != "" && s[0] == '\n'
    ensures CollapseNewlines(s) == ShowAll(Runs(s))
    decreases |s|, 0
  {
    var n := ReadNewlines(s);
    ShowCons(Lines(n), Runs(DropNewlines(s)));
    if Newlines(s, 3) {
      DropThree(s);
      AfterNewlines(s);
      NewlinesShow(DropNewlines(s[3..]));
    } else {
      TailKeepsShape(s, 1);
      NewlinesShow(s[1..]);
      if n == 2 {
        OneLess(s, 2);
        var m := ReadNewlines(s[1..]);
        ShowCons(Lines(m), Runs(DropNewlines(s)));
        OneLess(s, 3);
        assert m == 1;
      } else {
        OneLess(s, 2);
        assert DropNewlines(s) == s[1..];
      }
    }
  }

  lemma {:induction false} ShowSnoc(runs: seq<Run>, run: Run)
    ensures ShowAll(runs + [run]) == ShowAll(runs) + Show(run)
  {
    if runs == [] {
      ShowCons(run, []);
      assert [] + [run] == [run] + [];
    } else {
      ShowSnoc(runs[1..], run);
      assert (runs + [run])[1..] == runs[1..] + [run];
    }
  }

  lemma {:induction false} TrimSpacesBefore(a: string, b: string)
    requires forall i :: 0 <= i < |a| ==> IsSpace(a[i])
    ensures TrimStart(a + b) == TrimStart(b)
  {
    if a == "" {
      assert a + b == b;
    } else {
      TrimSpacesBefore(a[1..], b);
      assert (a + b)[1..] == a[1..] + b;
    }
  }

  lemma {:induction false} TrimSpacesAfter(a: string, b: string)
    requires forall i :: 0 <= i < |b| ==> IsSpace(b[i])
    ensures TrimEnd(a + b) == TrimEnd(a)
    decreases |b|
  {
    if b == "" {
      assert a + b == a;
    } else {
      TrimSpacesAfter(a, b[..|b| - 1]);
      assert (a + b)[..|a + b| - 1] == a + b[..|b| - 1];
    }
  }

  lemma {:induction false} StartShows(runs: seq<Run>)
    ensures TrimStart(ShowAll(runs)) == ShowAll(WithoutStart(runs))
  {
    if runs != [] && White(runs[0]) {
      StartShows(runs[1..]);
      TrimSpacesBefore(Show(runs[0]), ShowAll(runs[1..]));
    }
  }

  lemma {:induction false} EndShows(runs: seq<Run>)
    ensures TrimEnd(ShowAll(runs)) == ShowAll(WithoutEnd(runs))
  {
    if runs != [] {
      var init, last := runs[..|runs| - 1], runs[|runs| - 1];
      assert runs == init + [last];
      ShowSnoc(init, last);
      if White(last) {
        EndShows(init);
        TrimSpacesAfter(ShowAll(init), Show(last));
      }
    }
  }

  /** The normal form is the text's reading without the white space around it, written out. */
  lemma NormalShowsCore(s: string)
    ensures NormalizeTranscript(s) == ShowAll(Core(s))
  {
    var unified := CrToLf(CrLfToLf(s));
    CrRemoved(CrLfToLf(s));
    ReadUnified(s);
    BlanksCollapsed(unified);
    ReadCollapsed(unified);
    NewlinesShow(CollapseBlanks(unified));
    StartShows(Runs(s));
    EndShows(WithoutStart(Runs(s)));
  }

  // ---------------------------------------------------------------- what is shown can be read

  lemma {:induction false} AlikeShows(a: seq<Run>, b: seq<Run>)
    requires AllAlike(a, b)
    ensures ShowAll(a) == ShowAll(b)
  {
    if a != [] {
      assert Alike(a[0], b[0]);
      AlikeShows(a[1..], b[1..]);
    }
  }

  lemma ShowHead(runs: seq<Run>)
    requires WellRead(runs)
    ensures runs == [] <==> ShowAll(runs) == ""
    ensures runs != [] ==> (ShowAll(runs)[0] == ' ' <==> runs[0].Blanks?) && (ShowAll(runs)[0] == '\n' <==> runs[0].Lines?)
  {
    if runs != [] {
      assert Legal(runs[0]);
    }
  }

  /** The first runs of texts that show the same are alike, and so the rest shows the same. */
  lemma HeadsAlike(a: seq<Run>, b: seq<Run>)
    requires WellRead(a) && WellRead(b) && a != [] && b != [] && ShowAll(a) == ShowAll(b)
    ensures Alike(a[0], b[0]) && Show(a[0]) == Show(b[0])
  {
    ShowHead(a);
    ShowHead(b);
    if a[0].Lines? {
      OneOrMore(a);
      OneOrMore(b);
    }
  }

  lemma OneOrMore(runs: seq<Run>)
    requires WellRead(runs) && runs != [] && runs[0].Lines?
    ensures runs[0].n >= 2 <==> Newlines(ShowAll(runs), 2)
    ensures runs[0].n >= 1
  {
    WellReadTail(runs);
    ShowHead(runs[1..]);
    var rest := ShowAll(runs[1..]);
    assert Legal(runs[0]);
    if runs[0].n == 1 {
      assert ShowAll(runs) == "\n" + rest;
      assert rest != "" ==> ShowAll(runs)[1] == rest[0];
    }
  }

  lemma {:induction false} ShowsAlike(a: seq<Run>, b: seq<Run>)
    requires WellRead(a) && WellRead(b) && ShowAll(a) == ShowAll(b)
    ensures AllAlike(a, b)
  {
    ShowHead(a);
    ShowHead(b);
    if a != [] {
      HeadsAlike(a, b);
      WellReadTail(a);
      WellReadTail(b);
      assert ShowAll(a)[|Show(a[0])|..] == ShowAll(a[1..]) && ShowAll(b)[|Show(b[0])|..] == ShowAll(b[1..]);
      ShowsAlike(a[1..], b[1..]);
      assert forall i :: 0 < i < |a| ==> a[i] == a[1..][i - 1] && b[i] == b[1..][i - 1];
    }
  }

  // ---------------------------------------------------------------- which texts share a normal form and a hash

  /** The texts say the same: equal letters in equal order, blanks where there are blanks, one line end where there is one,
      more where there are more, and anything around it. */
  predicate SameText(a: string, b: string) {
    AllAlike(Core(a), Core(b))
  }

  /** Two texts have one normal form exactly when they say the same. */
  lemma SameNormalIff(a: string, b: string)
    ensures NormalizeTranscript(a) == NormalizeTranscript(b) <==> SameText(a, b)
  {
    NormalShowsCore(a);
    NormalShowsCore(b);
    forall s ensures WellRead(Core(s)) {
      RunsWellRead(s);
      StartWellRead(Runs(s));
      EndWellRead(WithoutStart(Runs(s)));
    }
    if SameText(a, b) {
      AlikeShows(Core(a), Core(b));
    }
    if ShowAll(Core(a)) == ShowAll(Core(b)) {
      ShowsAlike(Core(a), Core(b));
    }
  }

  /** Two different strings of one hash. */
  predicate Collide(x: string, y: string, sha256: string -> string) {
    x != y && sha256(x) == sha256(y)
  }

  /** Two texts have one hash exactly when they say the same, or their normal forms are a collision of the hash function. */
  lemma SameHashIff(a: string, b: string, sha256: string -> string)
    ensures ComputeTranscriptHash(a, sha256) == ComputeTranscriptHash(b, sha256) <==>
            SameText(a, b) || Collide(NormalizeTranscript(a), NormalizeTranscript(b), sha256)
  {
    SameNormalIff(a, b);
  }

  /** The text without its white space. */
  function Ink(s: string): string {
    if s == "" then "" else (if IsSpace(s[0]) then "" else [s[0]]) + Ink(s[1..])
  }

  /** White space can matter: a blank before a line end tells texts of equal ink apart, whatever the hash function, up to a collision. */
  lemma BlankBeforeLineEndMatters(x: char, y: char, sha256: string -> string)
    requires !IsSpace(x) && !IsSpace(y)
    ensures var a, b := [x, ' ', '\n', y], [x, '\n', y];
            && Ink(a) == Ink(b) && !SameText(a, b)
            && (ComputeTranscriptHash(a, sha256) == ComputeTranscriptHash(b, sha256) ==> Collide(a, b, sha256))
  {
    var a, b := [x, ' ', '\n', y], [x, '\n', y];
    NormalIsFixed(a);
    NormalIsFixed(b);
    assert |a| == 4 && |b| == 3;
    SameHashIff(a, b, sha256);
    SameNormalIff(a, b);
    assert Ink(b[1..]) == Ink(b[2..]) && a[2..] == b[1..] && Ink(a[1..]) == Ink(a[2..]);
  }
}
