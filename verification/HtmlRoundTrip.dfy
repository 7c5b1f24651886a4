/** A reader for printed markup, and the proof that it gets back exactly the tree that was printed. */
module HtmlRoundTrip {
  import opened Basics
  import opened HtmlTree
  import opened HtmlSerializer

  // ---------------------------------------------------------------- a reader of markup

  /** Length of the longest prefix without a stop character. */
  function Until(s: string, stops: set<char>): (n: nat)
    ensures n <= |s|
  {
    if s == "" || s[0] in stops then 0 else 1 + Until(s[1..], stops)
  }

  /** Replaces the five character references by the characters they stand for. */
  function Decode(s: string): string {
    if s == "" then ""
    else if "&amp;" <= s then "&" + Decode(s[5..])
    else if "&lt;" <= s then "<" + Decode(s[4..])
    else if "&gt;" <= s then ">" + Decode(s[4..])
    else if "&quot;" <= s then "\"" + Decode(s[6..])
    else if "&#39;" <= s then "'" + Decode(s[5..])
    else [s[0]] + Decode(s[1..])
  }

  function ReadAttributes(s: string): (r: Option<(seq<(string, string)>, string)>)
    ensures r.Some? ==> |r.value.1| <= |s|
    decreases |s|
  {
    if s == "" || s[0] != ' ' then Some(([], s))
    else
      var t := s[1..];
      var k := Until(t, {'='});
      if k + 1 >= |t| || t[k + 1] != '"' then None
      else
        var v := t[k + 2..];
        var e := Until(v, {'"'});
        if e >= |v| then None
        else
          var rest := ReadAttributes(v[e + 1..]);
          if rest.None? then None else Some(([(t[..k], Decode(v[..e]))] + rest.value.0, rest.value.1))
  }

  /** Reads siblings up to a closing tag or the end, and returns what is left. */
  function ReadAll(s: string): (r: Option<(seq<Markup>, string)>)
    ensures r.Some? ==> |r.value.1| <= |s|
    decreases |s|
  {
    if s == "" || "</" <= s then Some(([], s))
    else if s[0] != '<' then
      var k := Until(s, {'<'});
      var rest := ReadAll(s[k..]);
      if rest.None? then None else Some(([MText(Decode(s[..k]))] + rest.value.0, rest.value.1))
    else
      var t := s[1..];
      var k := Until(t, {' ', '>'});
      var name := t[..k];
      var attributes := ReadAttributes(t[k..]);
      if attributes.None? || attributes.value.1 == "" || attributes.value.1[0] != '>' then None
      else
        var inside := attributes.value.1[1..];
        if VoidName(name) then
          var rest := ReadAll(inside);
          if rest.None? then None else Some(([MElement(name, attributes.value.0, [])] + rest.value.0, rest.value.1))
        else
          var children := ReadAll(inside);
          var close := "</" + name + ">";
          if children.None? || !(close <= children.value.1) then None
          else
            var rest := ReadAll(children.value.1[|close|..]);
            if rest.None? then None
            else Some(([MElement(name, attributes.value.0, children.value.0)] + rest.value.0, rest.value.1))
  }

  /** Adjacent texts run together, which is all that printing forgets. */
  function Merge(ms: seq<Markup>, pending: string): seq<Markup>
    decreases ms
  {
    if ms == [] then Flush(pending)
    else
      match ms[0]
      case MText(t) => Merge(ms[1..], pending + t)
      case MElement(name, attributes, children) =>
        Flush(pending) + [MElement(name, attributes, Merge(children, ""))] + Merge(ms[1..], "")
  }

  function Flush(pending: string): seq<Markup> {
    if pending == "" then [] else [MText(pending)]
  }

  // ---------------------------------------------------------------- escaping is undone, and hides every delimiter

  lemma {:induction false} DecodeEscapedText(s: string)
    ensures Decode(EscapeText(s)) == s
    ensures '<' !in EscapeText(s) && '>' !in EscapeText(s)
    ensures s != "" ==> EscapeText(s) != ""
  {
    hide Decode;
    if s == "" {
      DecodeNothing();
    } else {
      DecodeEscapedText(s[1..]);
      DecodeStep(EscapeTextChar(s[0]), EscapeText(s[1..]), s[0]);
      assert [s[0]] + s[1..] == s;
    }
  }

  lemma {:induction false} DecodeEscapedAttribute(s: string)
    ensures Decode(EscapeAttribute(s)) == s
    ensures forall c :: c in EscapeAttribute(s) ==> c !in {'<', '>', '"', '\''}
  {
    hide Decode;
    if s == "" {
      DecodeNothing();
    } else {
      DecodeEscapedAttribute(s[1..]);
      var code := EscapeAttributeChar(s[0]);
      DecodeStep(code, EscapeAttribute(s[1..]), s[0]);
      NoDelimiter(s[0]);
      assert [s[0]] + s[1..] == s;
    }
  }

  lemma DecodeNothing()
    ensures Decode("") == ""
  {
  }

  lemma NoDelimiter(c: char)
    ensures forall d :: d in EscapeAttributeChar(c) ==> d !in {'<', '>', '"', '\''}
  {
  }

  lemma DecodeStep(code: string, rest: string, c: char)
    requires code == EscapeTextChar(c) || code == EscapeAttributeChar(c)
    requires code == [c] ==> c != '&'
    ensures Decode(code + rest) == [c] + Decode(rest)
  {
    var s := code + rest;
    assert s[|code|..] == rest;
    if code == [c] {
      assert s[0] == c;
    } else {
      assert code <= s;
      assert s[0] == '&' && s[1] == code[1];
    }
  }

  lemma {:induction false} EscapeTextAppend(a: string, b: string)
    ensures EscapeText(a + b) == EscapeText(a) + EscapeText(b)
  {
    if a == "" {
      assert a + b == b;
    } else {
      assert (a + b)[1..] == a[1..] + b;
      EscapeTextAppend(a[1..], b);
    }
  }

  lemma {:induction false} UntilStops(p: string, rest: string, stops: set<char>)
    requires forall c :: c in p ==> c !in stops
    requires rest == "" || rest[0] in stops
    ensures Until(p + rest, stops) == |p|
  {
    if p == "" {
      assert p + rest == rest;
    } else {
      assert (p + rest)[1..] == p[1..] + rest;
      UntilStops(p[1..], rest, stops);
    }
  }

  // ---------------------------------------------------------------- names that cannot be mistaken for delimiters

  predicate CleanName(name: string) {
    name != "" && forall c :: c in name ==> c !in {' ', '>', '/', '=', '<', '"'}
  }

  predicate CleanAttributes(attributes: seq<(string, string)>) {
    forall i :: 0 <= i < |attributes| ==> CleanName(attributes[i].0)
  }

  predicate Clean(m: Markup)
    decreases m, 0
  {
    match m
    case MText(_) => true
    case MElement(name, attributes, children) =>
      CleanName(name) && CleanAttributes(attributes) && AllClean(children) && (VoidName(name) ==> children == [])
  }

  predicate AllClean(ms: seq<Markup>)
    decreases ms, 1
  {
    ms == [] || (Clean(ms[0]) && AllClean(ms[1..]))
  }

  // ---------------------------------------------------------------- reading what was printed

  /** Where the reader cuts one printed attribute. */
  lemma CutsAttribute(name: string, code: string, more: string)
    requires CleanName(name) && '"' !in code
    ensures var v := code + ("\"" + more); var t := name + ("=\"" + v);
      && Until(t, {'='}) == |name| && |name| + 1 < |t| && t[|name| + 1] == '"' && t[..|name|] == name && t[|name| + 2..] == v
      && Until(v, {'"'}) == |code| < |v| && v[..|code|] == code && v[|code| + 1..] == more
  {
    var v := code + ("\"" + more);
    UntilStops(name, "=\"" + v, {'='});
    UntilStops(code, "\"" + more, {'"'});
  }

  /** One attribute is read where it is cut, and the rest after it. */
  lemma ReadsCut(t: string, k: nat, v: string, e: nat, read: seq<(string, string)>, rest: string)
    requires k + 1 < |t| && Until(t, {'='}) == k && t[k + 1] == '"' && v == t[k + 2..]
    requires e < |v| && Until(v, {'"'}) == e && ReadAttributes(v[e + 1..]) == Some((read, rest))
    ensures ReadAttributes(" " + t) == Some(([(t[..k], Decode(v[..e]))] + read, rest))
  {
    hide Until, Decode;
    assert (" " + t)[1..] == t;
  }

  lemma ReadsOneAttribute(name: string, value: string, more: string, read: seq<(string, string)>, rest: string)
    requires CleanName(name) && ReadAttributes(more) == Some((read, rest))
    ensures ReadAttributes(" " + (name + ("=\"" + (EscapeAttribute(value) + ("\"" + more))))) == Some(([(name, value)] + read, rest))
  {
    hide ReadAttributes, EscapeAttribute, CleanName, Until, Decode;
    var code := EscapeAttribute(value);
    DecodeEscapedAttribute(value);
    CutsAttribute(name, code, more);
    var v := code + ("\"" + more);
    ReadsCut(name + ("=\"" + v), |name|, v, |code|, read, rest);
  }

  lemma PrintedAttribute(name: string, value: string, attributes: seq<(string, string)>, rest: string)
    ensures PrintAttributes([(name, value)] + attributes) + rest
      == " " + (name + ("=\"" + (EscapeAttribute(value) + ("\"" + (PrintAttributes(attributes) + rest)))))
  {
    hide EscapeAttribute;
    assert ([(name, value)] + attributes)[1..] == attributes;
  }

  lemma {:induction false} ReadsAttributes(attributes: seq<(string, string)>, rest: string)
    requires CleanAttributes(attributes) && rest != "" && rest[0] == '>'
    ensures ReadAttributes(PrintAttributes(attributes) + rest) == Some((attributes, rest))
    decreases |attributes|
  {
    if attributes == [] {
      assert PrintAttributes(attributes) + rest == rest;
    } else {
      ReadsAttributes(attributes[1..], rest);
      assert CleanName(attributes[0].0);
      ReadsMoreAttributes(attributes[0].0, attributes[0].1, attributes[1..], rest);
      assert attributes == [(attributes[0].0, attributes[0].1)] + attributes[1..];
    }
  }

  lemma ReadsMoreAttributes(name: string, value: string, attributes: seq<(string, string)>, rest: string)
    requires CleanName(name) && ReadAttributes(PrintAttributes(attributes) + rest) == Some((attributes, rest))
    ensures ReadAttributes(PrintAttributes([(name, value)] + attributes) + rest) == Some(([(name, value)] + attributes, rest))
  {
    ReadsOneAttribute(name, value, PrintAttributes(attributes) + rest, attributes, rest);
    PrintedAttribute(name, value, attributes, rest);
  }

  predicate Ends(tail: string) {
    tail == "" || "</" <= tail
  }

  lemma ReadsText(pending: string, next: string, read: seq<Markup>, tail: string)
    requires next == "" || next[0] == '<'
    requires ReadAll(next) == Some((read, tail))
    ensures ReadAll(EscapeText(pending) + next) == Some((Flush(pending) + read, tail))
  {
    if pending == "" {
      assert EscapeText(pending) + next == next;
      assert Flush(pending) + read == read;
    } else {
      DecodeEscapedText(pending);
      var code := EscapeText(pending);
      var s := code + next;
      UntilStops(code, next, {'<'});
      assert s[0] == code[0] && s[0] in code;
      assert s[..|code|] == code && s[|code|..] == next;
    }
  }

  /** One opening tag, read up to and including its closing angle bracket. */
  lemma ReadsOpening(name: string, attributes: seq<(string, string)>, inside: string)
    requires CleanName(name) && CleanAttributes(attributes)
    ensures var t := name + PrintAttributes(attributes) + ">" + inside;
      && Until(t, {' ', '>'}) == |name| && t[..|name|] == name
      && ReadAttributes(t[|name|..]) == Some((attributes, ">" + inside))
  {
    var after := PrintAttributes(attributes) + (">" + inside);
    var t := name + PrintAttributes(attributes) + ">" + inside;
    assert t == name + after;
    assert after[0] == ' ' || after[0] == '>';
    UntilStops(name, after, {' ', '>'});
    assert t[|name|..] == after;
    ReadsAttributes(attributes, ">" + inside);
  }

  lemma UnfoldVoid(t: string, name: string, attributes: seq<(string, string)>, inside: string, read: seq<Markup>, tail: string)
    requires t != "" && t[0] != '/' && VoidName(name)
    requires Until(t, {' ', '>'}) == |name| <= |t| && t[..|name|] == name
    requires ReadAttributes(t[|name|..]) == Some((attributes, ">" + inside))
    requires ReadAll(inside) == Some((read, tail))
    ensures ReadAll("<" + t) == Some(([MElement(name, attributes, [])] + read, tail))
  {
    assert ("<" + t)[1..] == t && ("<" + t)[1] == t[0];
    assert (">" + inside)[1..] == inside;
  }

  lemma UnfoldElement(t: string, name: string, attributes: seq<(string, string)>, inside: string, children: seq<Markup>,
                      next: string, read: seq<Markup>, tail: string)
    requires t != "" && t[0] != '/' && !VoidName(name)
    requires Until(t, {' ', '>'}) == |name| <= |t| && t[..|name|] == name
    requires ReadAttributes(t[|name|..]) == Some((attributes, ">" + inside))
    requires ReadAll(inside) == Some((children, "</" + name + ">" + next))
    requires ReadAll(next) == Some((read, tail))
    ensures ReadAll("<" + t) == Some(([MElement(name, attributes, children)] + read, tail))
  {
    assert ("<" + t)[1..] == t && ("<" + t)[1] == t[0];
    assert (">" + inside)[1..] == inside;
    var close := "</" + name + ">";
    assert close <= close + next && (close + next)[|close|..] == next;
  }

  lemma Bracket(name: string, attributes: string, inside: string)
    ensures "<" + name + attributes + ">" + inside == "<" + (name + attributes + ">" + inside)
    ensures name != "" ==> (name + attributes + ">" + inside)[0] == name[0]
  {
  }

  lemma ReadsVoid(name: string, attributes: seq<(string, string)>, next: string, read: seq<Markup>, tail: string)
    requires CleanName(name) && CleanAttributes(attributes) && VoidName(name)
    requires ReadAll(next) == Some((read, tail))
    ensures ReadAll("<" + name + PrintAttributes(attributes) + ">" + next)
      == Some(([MElement(name, attributes, [])] + read, tail))
  {
    var t := name + PrintAttributes(attributes) + ">" + next;
    ReadsOpening(name, attributes, next);
    assert t[0] == name[0] && name[0] in name;
    UnfoldVoid(t, name, attributes, next, read, tail);
    Bracket(name, PrintAttributes(attributes), next);
  }

  lemma ReadsElement(name: string, attributes: seq<(string, string)>, inside: string, children: seq<Markup>,
                     next: string, read: seq<Markup>, tail: string)
    requires CleanName(name) && CleanAttributes(attributes) && !VoidName(name)
    requires ReadAll(inside) == Some((children, "</" + name + ">" + next))
    requires ReadAll(next) == Some((read, tail))
    ensures ReadAll("<" + name + PrintAttributes(attributes) + ">" + inside)
      == Some(([MElement(name, attributes, children)] + read, tail))
  {
    var t := name + PrintAttributes(attributes) + ">" + inside;
    ReadsOpening(name, attributes, inside);
    assert t[0] == name[0] && name[0] in name;
    UnfoldElement(t, name, attributes, inside, children, next, read, tail);
    Bracket(name, PrintAttributes(attributes), inside);
  }

  lemma StartsWithTag(m: Markup, rest: string)
    requires m.MElement?
    ensures Print(m) + rest != "" && (Print(m) + rest)[0] == '<'
  {
  }

  lemma PrintAllCons(m: Markup, rest: seq<Markup>, tail: string)
    ensures PrintAll([m] + rest) + tail == Print(m) + (PrintAll(rest) + tail)
  {
    assert ([m] + rest)[1..] == rest;
  }

  lemma ReadsNothing(tail: string)
    requires Ends(tail)
    ensures ReadAll(tail) == Some(([], tail))
  {
  }

  lemma Regroup(a: string, b: string, c: string)
    ensures a + (b + c) == (a + b) + c
  {
  }

  /** The reader undoes the printer, up to texts that had no element between them. */
  lemma {:induction false} ReadsPrinted(ms: seq<Markup>, pending: string, tail: string)
    requires AllClean(ms) && Ends(tail)
    ensures ReadAll(EscapeText(pending) + (PrintAll(ms) + tail)) == Some((Merge(ms, pending), tail))
    decreases ms, 1 + |pending|
  {
    hide ReadAll, EscapeText, Clean;
    if ms == [] {
      assert PrintAll(ms) + tail == tail;
      ReadsNothing(tail);
      ReadsText(pending, tail, [], tail);
      assert Flush(pending) + [] == Flush(pending);
    } else {
      var m, rest := ms[0], ms[1..];
      assert ms == [m] + rest;
      PrintAllCons(m, rest, tail);
      match m
      case MText(t) =>
        EscapeTextAppend(pending, t);
        Regroup(EscapeText(pending), EscapeText(t), PrintAll(rest) + tail);
        ReadsPrinted(rest, pending + t, tail);
      case MElement(name, attributes, children) =>
        ReadsPrintedElement(m, rest, tail);
        StartsWithTag(m, PrintAll(rest) + tail);
        ReadsText(pending, PrintAll(ms) + tail, [MElement(name, attributes, Merge(children, ""))] + Merge(rest, ""), tail);
        assert Flush(pending) + ([MElement(name, attributes, Merge(children, ""))] + Merge(rest, "")) == Merge(ms, pending);
    }
  }

  lemma PrintedSplits(m: Markup, next: string)
    requires m.MElement?
    ensures Print(m) + next == "<" + m.name + PrintAttributes(m.attributes) + ">"
      + (if VoidName(m.name) then next else PrintAll(m.children) + ("</" + m.name + ">" + next))
  {
    var open := "<" + m.name + PrintAttributes(m.attributes) + ">";
    if !VoidName(m.name) {
      assert Print(m) == open + PrintAll(m.children) + "</" + m.name + ">";
      Reassociate(open, PrintAll(m.children), "</", m.name, ">", next);
    }
  }

  lemma Reassociate(open: string, body: string, a: string, b: string, c: string, next: string)
    ensures open + body + a + b + c + next == open + (body + (a + b + c + next))
  {
  }

  lemma {:induction false} ReadsPrintedElement(m: Markup, rest: seq<Markup>, tail: string)
    requires m.MElement? && Clean(m) && AllClean(rest) && Ends(tail)
    ensures ReadAll(Print(m) + (PrintAll(rest) + tail))
      == Some(([MElement(m.name, m.attributes, Merge(m.children, ""))] + Merge(rest, ""), tail))
    decreases [m] + rest, 0
  {
    hide ReadAll;
    var next := PrintAll(rest) + tail;
    assert rest == ([m] + rest)[1..] && m == ([m] + rest)[0];
    ReadsPrinted(rest, "", tail);
    assert EscapeText("") + next == next;
    PrintedSplits(m, next);
    if VoidName(m.name) {
      assert Merge(m.children, "") == [];
      ReadsVoid(m.name, m.attributes, next, Merge(rest, ""), tail);
    } else {
      var close := "</" + m.name + ">" + next;
      assert "</" <= close;
      ReadsPrinted(m.children, "", close);
      var inside := PrintAll(m.children) + close;
      assert EscapeText("") + inside == inside;
      ReadsElement(m.name, m.attributes, inside, Merge(m.children, ""), next, Merge(rest, ""), tail);
    }
  }
}
