/** Transcript normalization: a chain of rewrites whose results are exactly the texts it leaves alone. */
module Transcript {

  /** What trim() and \s take for white space. */
  predicate IsSpace(c: char) {
    || ('\t' <= c <= '\r') || c == ' ' || c == '\U{00A0}' || c == '\U{1680}' || ('\U{2000}' <= c <= '\U{200A}')
    || c == '\U{2028}' || c == '\U{2029}' || c == '\U{202F}' || c == '\U{205F}' || c == '\U{3000}' || c == '\U{FEFF}'
  }

  /** White space and line terminators as ECMAScript lists them, code point by code point. */
  const WHITE_SPACE: set<char> := {
    '\U{0009}', '\U{000A}', '\U{000B}', '\U{000C}', '\U{000D}', '\U{0020}', '\U{00A0}', '\U{1680}', '\U{2000}', '\U{2001}',
    '\U{2002}', '\U{2003}', '\U{2004}', '\U{2005}', '\U{2006}', '\U{2007}', '\U{2008}', '\U{2009}', '\U{200A}', '\U{2028}',
    '\U{2029}', '\U{202F}', '\U{205F}', '\U{3000}', '\U{FEFF}'}

  lemma SpaceIs(c: char)
    ensures IsSpace(c) <==> c in WHITE_SPACE
  {
  }

  function CrLfToLf(s: string): string {
    if s == "" then ""
    else if |s| > 1 && s[0] == '\r' && s[1] == '\n' then "\n" + CrLfToLf(s[2..])
    else [s[0]] + CrLfToLf(s[1..])
  }

  function CrToLf(s: string): string {
    if s == "" then "" else [if s[0] == '\r' then '\n' else s[0]] + CrToLf(s[1..])
  }

  predicate IsBlank(c: char) {
    c == ' ' || c == '\t'
  }

  function DropBlanks(s: string): (r: string)
    ensures |r| <= |s|
  {
    if s != "" && IsBlank(s[0]) then DropBlanks(s[1..]) else s
  }

  /** Every run of blanks becomes one space. */
  function CollapseBlanks(s: string): string
    decreases |s|
  {
    if s == "" then ""
    else if IsBlank(s[0]) then " " + CollapseBlanks(DropBlanks(s[1..]))
    else [s[0]] + CollapseBlanks(s[1..])
  }

  predicate Newlines(s: string, n: nat) {
    |s| >= n && forall i :: 0 <= i < n ==> s[i] == '\n'
  }

  function DropNewlines(s: string): (r: string)
    ensures |r| <= |s|
  {
    if s != "" && s[0] == '\n' then DropNewlines(s[1..]) else s
  }

  /** Every run of three or more newlines becomes two. */
  function CollapseNewlines(s: string): string
    decreases |s|
  {
    if s == "" then ""
    else if Newlines(s, 3) then "\n\n" + CollapseNewlines(DropNewlines(s[3..]))
    else [s[0]] + CollapseNewlines(s[1..])
  }

  function TrimStart(s: string): (r: string)
    ensures |r| <= |s|
  {
    if s != "" && IsSpace(s[0]) then TrimStart(s[1..]) else s
  }

  function TrimEnd(s: string): (r: string)
    ensures |r| <= |s|
  {
    if s != "" && IsSpace(s[|s| - 1]) then TrimEnd(s[..|s| - 1]) else s
  }

  function NormalizeTranscript(transcript: string): string {
    TrimEnd(TrimStart(CollapseNewlines(CollapseBlanks(CrToLf(CrLfToLf(transcript))))))
  }

  function ComputeTranscriptHash(transcript: string, sha256: string -> string): string {
    sha256(NormalizeTranscript(transcript))
  }

  // ---------------------------------------------------------------- normal forms

  predicate NoReturns(s: string) {
    forall i :: 0 <= i < |s| ==> s[i] != '\r'
  }

  /** No tab, and no two spaces in a row. */
  ghost predicate SingleBlanks(s: string) {
    && (forall i :: 0 <= i < |s| ==> s[i] != '\t')
    && forall i, k :: 0 <= i < k < |s| && k == i + 1 ==> !(s[i] == ' ' && s[k] == ' ')
  }

  /** No three newlines in a row. */
  ghost predicate NoGaps(s: string) {
    forall i, j, k :: 0 <= i < j < k < |s| && j == i + 1 && k == j + 1 ==> !(s[i] == '\n' && s[j] == '\n' && s[k] == '\n')
  }

  predicate Trimmed(s: string) {
    s != "" ==> !IsSpace(s[0]) && !IsSpace(s[|s| - 1])
  }

  ghost predicate IsNormal(s: string) {
    NoReturns(s) && SingleBlanks(s) && NoGaps(s) && Trimmed(s)
  }

  // ---------------------------------------------------------------- the rewrites leave normal forms alone

  lemma {:induction false} CrLfKeeps(s: string)
    requires NoReturns(s)
    ensures CrLfToLf(s) == s
  {
    if s != "" {
      CrLfKeeps(s[1..]);
    }
  }

  lemma {:induction false} CrKeeps(s: string)
    requires NoReturns(s)
    ensures CrToLf(s) == s
  {
    if s != "" {
      CrKeeps(s[1..]);
    }
  }

  lemma TailKeepsShape(s: string, n: nat)
    requires n <= |s|
    ensures NoReturns(s) ==> NoReturns(s[n..])
    ensures SingleBlanks(s) ==> SingleBlanks(s[n..])
    ensures NoGaps(s) ==> NoGaps(s[n..])
  {
    var t := s[n..];
    assert forall i :: 0 <= i < |t| ==> t[i] == s[n + i];
  }

  lemma HeadKeepsShape(s: string, n: nat)
    requires n <= |s|
    ensures NoReturns(s) ==> NoReturns(s[..n])
    ensures SingleBlanks(s) ==> SingleBlanks(s[..n])
    ensures NoGaps(s) ==> NoGaps(s[..n])
  {
  }

  lemma {:induction false} BlanksKeep(s: string)
    requires SingleBlanks(s)
    ensures CollapseBlanks(s) == s
    decreases |s|
  {
    if s != "" {
      TailKeepsShape(s, 1);
      BlanksKeep(s[1..]);
      if IsBlank(s[0]) && |s| > 1 {
        assert !IsBlank(s[1]);
      }
    }
  }

  lemma NoGapAtStart(s: string)
    requires NoGaps(s)
    ensures !Newlines(s, 3)
  {
    if |s| >= 3 {
      var first, second, third := s[0], s[1], s[2];
    }
  }

  lemma {:induction false} NewlinesKeep(s: string)
    requires NoGaps(s)
    ensures CollapseNewlines(s) == s
    decreases |s|
  {
    if s != "" {
      TailKeepsShape(s, 1);
      NewlinesKeep(s[1..]);
      NoGapAtStart(s);
    }
  }

  /** What normalization leaves alone. */
  lemma NormalIsFixed(s: string)
    requires IsNormal(s)
    ensures NormalizeTranscript(s) == s
  {
    CrLfKeeps(s);
    CrKeeps(s);
    BlanksKeep(s);
    NewlinesKeep(s);
  }

  // ---------------------------------------------------------------- the rewrites produce normal forms

  lemma {:induction false} CrRemoved(s: string)
    ensures NoReturns(CrToLf(s))
  {
    if s != "" {
      CrRemoved(s[1..]);
    }
  }

  lemma {:induction false} DroppedBlanks(s: string)
    ensures DropBlanks(s) != "" ==> !IsBlank(DropBlanks(s)[0])
    ensures NoReturns(s) ==> NoReturns(DropBlanks(s))
  {
    if s != "" && IsBlank(s[0]) {
      DroppedBlanks(s[1..]);
    }
  }

  lemma {:induction false} BlanksCollapsed(s: string)
    requires NoReturns(s)
    ensures NoReturns(CollapseBlanks(s)) && SingleBlanks(CollapseBlanks(s))
    ensures s != "" ==> CollapseBlanks(s) != "" && (CollapseBlanks(s)[0] == ' ' <==> IsBlank(s[0]))
    decreases |s|
  {
    if s != "" {
      if IsBlank(s[0]) {
        DroppedBlanks(s[1..]);
        BlanksCollapsed(DropBlanks(s[1..]));
        ConsShape(' ', CollapseBlanks(DropBlanks(s[1..])));
      } else {
        BlanksCollapsed(s[1..]);
        ConsShape(s[0], CollapseBlanks(s[1..]));
      }
    }
  }

  lemma ConsShape(c: char, s: string)
    requires c != '\t' && SingleBlanks(s) && (c == ' ' && s != "" ==> s[0] != ' ')
    ensures SingleBlanks([c] + s)
  {
    var t := [c] + s;
    assert forall i :: 0 < i < |t| ==> t[i] == s[i - 1];
  }

  lemma {:induction false} DroppedNewlines(s: string) returns (n: nat)
    ensures DropNewlines(s) != "" ==> DropNewlines(s)[0] != '\n'
    ensures n <= |s| && DropNewlines(s) == s[n..]
  {
    n := 0;
    if s != "" && s[0] == '\n' {
      n := DroppedNewlines(s[1..]);
      assert s[1..][n..] == s[n + 1..];
      n := n + 1;
    }
  }

  ghost predicate Shaped(s: string) {
    NoReturns(s) && SingleBlanks(s) && NoGaps(s)
  }

  lemma ConsShaped(c: char, s: string)
    requires Shaped(s) && c != '\t' && c != '\r'
    requires c == ' ' && s != "" ==> s[0] != ' '
    requires !(c == '\n' && Newlines(s, 2))
    ensures Shaped([c] + s)
  {
    ConsShape(c, s);
    var t := [c] + s;
    assert forall i :: 0 < i < |t| ==> t[i] == s[i - 1];
  }

  lemma TwoNewlines(rest: string)
    requires Shaped(rest) && (rest != "" ==> rest[0] != '\n')
    ensures Shaped("\n\n" + rest)
  {
    ConsShaped('\n', rest);
    var one := "\n" + rest;
    assert rest != "" ==> one[1] == rest[0];
    ConsShaped('\n', one);
    assert "\n\n" + rest == "\n" + one;
  }

  lemma AfterNewlines(s: string)
    requires Newlines(s, 3) && Shaped0(s)
    ensures Shaped0(DropNewlines(s[3..]))
  {
    var n := DroppedNewlines(s[3..]);
    TailKeepsShape(s, 3);
    TailKeepsShape(s[3..], n);
  }

  /** The shape of a text before newlines are collapsed. */
  ghost predicate Shaped0(s: string) {
    NoReturns(s) && SingleBlanks(s)
  }

  /** Where the collapsed text starts, it starts as the text did. */
  lemma {:induction false} NewlinesCollapsed(s: string)
    requires Shaped0(s)
    ensures Shaped(CollapseNewlines(s))
    ensures s != "" ==> CollapseNewlines(s) != "" && CollapseNewlines(s)[0] == s[0]
    ensures Newlines(CollapseNewlines(s), 2) ==> Newlines(s, 2)
    decreases |s|
  {
    if s != "" && Newlines(s, 3) {
      AfterNewlines(s);
      var n := DroppedNewlines(s[3..]);
      NewlinesCollapsed(DropNewlines(s[3..]));
      TwoNewlines(CollapseNewlines(DropNewlines(s[3..])));
    } else if s != "" {
      TailKeepsShape(s, 1);
      NewlinesCollapsed(s[1..]);
      assert !(s[0] == '\n' && Newlines(s[1..], 2));
      var rest := CollapseNewlines(s[1..]);
      ConsShaped(s[0], rest);
      assert rest != "" ==> ([s[0]] + rest)[1] == rest[0] == s[1];
    }
  }

  lemma {:induction false} StartTrimmed(s: string) returns (n: nat)
    ensures TrimStart(s) != "" ==> !IsSpace(TrimStart(s)[0])
    ensures n <= |s| && TrimStart(s) == s[n..]
  {
    n := 0;
    if s != "" && IsSpace(s[0]) {
      n := StartTrimmed(s[1..]);
      assert s[1..][n..] == s[n + 1..];
      n := n + 1;
    }
  }

  lemma {:induction false} EndTrimmed(s: string) returns (n: nat)
    ensures TrimEnd(s) != "" ==> !IsSpace(TrimEnd(s)[|TrimEnd(s)| - 1])
    ensures n <= |s| && TrimEnd(s) == s[..n]
    decreases |s|
  {
    n := |s|;
    if s != "" && IsSpace(s[|s| - 1]) {
      n := EndTrimmed(s[..|s| - 1]);
      assert s[..|s| - 1][..n] == s[..n];
    }
  }

  /** Cutting white space off the end leaves the start as it was. */
  lemma EndKeepsStart(s: string)
    requires s != "" ==> !IsSpace(s[0])
    ensures Trimmed(TrimEnd(s))
  {
    var n := EndTrimmed(s);
  }

  lemma TrimmedIsNormal(t: string)
    requires Shaped(t)
    ensures IsNormal(TrimEnd(TrimStart(t)))
  {
    var n := StartTrimmed(t);
    TailKeepsShape(t, n);
    var m := EndTrimmed(t[n..]);
    HeadKeepsShape(t[n..], m);
    EndKeepsStart(t[n..]);
  }

  lemma NormalizeIsNormal(s: string)
    ensures IsNormal(NormalizeTranscript(s))
  {
    CrRemoved(CrLfToLf(s));
    BlanksCollapsed(CrToLf(CrLfToLf(s)));
    NewlinesCollapsed(CollapseBlanks(CrToLf(CrLfToLf(s))));
    TrimmedIsNormal(CollapseNewlines(CollapseBlanks(CrToLf(CrLfToLf(s)))));
  }

  /** A text is left alone exactly when it is a normal form, and every result is one. */
  lemma FixedIffNormal(s: string)
    ensures NormalizeTranscript(s) == s <==> IsNormal(s)
    ensures NormalizeTranscript(NormalizeTranscript(s)) == NormalizeTranscript(s)
  {
    NormalizeIsNormal(s);
    NormalIsFixed(NormalizeTranscript(s));
    if IsNormal(s) {
      NormalIsFixed(s);
    }
  }

  /** Hashing the raw or the stored text gives the same identity. */
  lemma HashOfStoredText(s: string, sha256: string -> string)
    ensures ComputeTranscriptHash(NormalizeTranscript(s), sha256) == ComputeTranscriptHash(s, sha256) ==
            sha256(NormalizeTranscript(s))
  {
    FixedIffNormal(s);
  }

  // ---------------------------------------------------------------- what normalization does and does not identify

  /** The text with other line ends: returns before newlines. */
  function WithCrLf(s: string): string {
    if s == "" then "" else (if s[0] == '\n' then "\r\n" else [s[0]]) + WithCrLf(s[1..])
  }

  lemma {:induction false} LineEndsDoNotMatter(s: string)
    requires NoReturns(s)
    ensures CrLfToLf(WithCrLf(s)) == s
  {
    if s != "" {
      LineEndsDoNotMatter(s[1..]);
      if s[0] == '\n' {
        assert WithCrLf(s)[2..] == WithCrLf(s[1..]);
        assert [s[0]] + s[1..] == s;
      } else {
        assert WithCrLf(s)[1..] == WithCrLf(s[1..]);
        assert [s[0]] + s[1..] == s;
      }
    }
  }

  /** The same text with either line end has one hash. */
  lemma SameHashForLineEnds(s: string, sha256: string -> string)
    requires NoReturns(s)
    ensures ComputeTranscriptHash(WithCrLf(s), sha256) == ComputeTranscriptHash(s, sha256)
  {
    LineEndsDoNotMatter(s);
    CrLfKeeps(s);
  }
}
