/** The canonical encoding character by character: what RFC 8259 makes of a value whose members come in sorted order. */
module CanonicalText {
  import opened Basics
  import opened JsonText
  import opened Canonical
  import opened CanonicalTies

  // ---------------------------------------------------------------- strings

  /** The characters with an escape of two characters, and the second one. */
  const SHORT_ESCAPES: map<char, char> := map[
    '"' := '"', '\\' := '\\', '\U{0008}' := 'b', '\U{0009}' := 't', '\U{000A}' := 'n', '\U{000C}' := 'f', '\U{000D}' := 'r']

  predicate IsHexDigit(digit: char, value: int) {
    0 <= value < 16 && digit == "0123456789abcdef"[value]
  }

  /** Section 7 of RFC 8259: a backslash and a letter, or the code of any other control character, or the character itself. */
  predicate SpellsChar(c: char, t: string) {
    if c in SHORT_ESCAPES then t == ['\\', SHORT_ESCAPES[c]]
    else if c as int < 0x20
    then |t| == 6 && t[..4] == "\\u00" && IsHexDigit(t[4], c as int / 16) && IsHexDigit(t[5], c as int % 16)
    else t == [c]
  }

  ghost predicate SpellsChars(s: string, t: string) {
    if s == "" then t == ""
    else exists k :: 0 <= k <= |t| && SpellsChar(s[0], t[..k]) && SpellsChars(s[1..], t[k..])
  }

  ghost predicate SpellsString(s: string, t: string) {
    exists inside :: SpellsChars(s, inside) && t == "\"" + inside + "\""
  }

  // ---------------------------------------------------------------- values

  function WithCommas(parts: seq<string>): string {
    if parts == [] then ""
    else if |parts| == 1 then parts[0]
    else parts[0] + "," + WithCommas(parts[1..])
  }

  /** The same members, in the order of their keys; of two that may stand either way the one that came first. */
  ghost predicate InOrder(members: seq<Member>, sorted: seq<Member>, leq: Collation) {
    && multiset(sorted) == multiset(members)
    && (forall p, q :: 0 <= p < q < |sorted| ==> leq(sorted[p].key, sorted[q].key))
    && forall i, k :: 0 <= i < k < |members| && leq(members[i].key, members[k].key) ==> Precedes(sorted, members[i], members[k])
  }

  ghost predicate Precedes(sorted: seq<Member>, m: Member, n: Member) {
    exists p, q :: 0 <= p < q < |sorted| && sorted[p] == m && sorted[q] == n
  }

  ghost predicate Spells(v: Json, t: string, leq: Collation)
    decreases v, 0
  {
    match v
    case Null => t == "null"
    case Bool(truth) => t == if truth then "true" else "false"
    case Number(literal) => t == literal
    case Text(text) => SpellsString(text, t)
    case Array(items) => exists parts: seq<string> :: SpellsItems(items, parts, leq) && t == "[" + WithCommas(parts) + "]"
    case Object(members) =>
      exists sorted: seq<Member>, parts: seq<string> ::
        InOrder(members, sorted, leq) && SpellsMembers(members, sorted, parts, leq) && t == "{" + WithCommas(parts) + "}"
  }

  ghost predicate SpellsItems(items: seq<Json>, parts: seq<string>, leq: Collation)
    decreases items, 1
  {
    |parts| == |items| && forall i :: 0 <= i < |items| ==> Spells(items[i], parts[i], leq)
  }

  ghost predicate SpellsMembers(members: seq<Member>, sorted: seq<Member>, parts: seq<string>, leq: Collation)
    decreases members, 1
  {
    |parts| == |sorted| && forall i :: 0 <= i < |sorted| ==> sorted[i] in members && SpellsMember(sorted[i], parts[i], leq)
  }

  ghost predicate SpellsMember(m: Member, t: string, leq: Collation)
    decreases m, 1
  {
    exists key: string, value: string :: SpellsString(m.key, key) && Spells(m.value, value, leq) && t == key + ":" + value
  }

  // ---------------------------------------------------------------- the encoding spells the value

  lemma EscapeSpells(c: char)
    ensures SpellsChar(c, EscapeChar(c))
  {
  }

  lemma {:induction false} EscapesSpell(s: string)
    ensures SpellsChars(s, EscapeAll(s))
  {
    if s != "" {
      var e, t := EscapeChar(s[0]), EscapeAll(s);
      EscapeSpells(s[0]);
      EscapesSpell(s[1..]);
      assert t[..|e|] == e && t[|e|..] == EscapeAll(s[1..]);
    }
  }

  lemma QuoteSpells(s: string)
    ensures SpellsString(s, Quote(s))
  {
    EscapesSpell(s);
  }

  lemma {:induction false} CanonicalSpells(v: Json, leq: Collation)
    requires IsPreorder(leq) && WellFormed(v)
    ensures Spells(v, Canonicalize(v, leq), leq)
    decreases v, 0
  {
    hide SpellsString, Quote, IsPreorder;
    match v
    case Text(text) => QuoteSpells(text);
    case Array(items) =>
      var parts := ItemsSpell(items, leq);
    case Object(members) =>
      SortElements(members, leq);
      SortInOrder(members, leq);
      var parts := MembersSpell(members, Sort(members, leq), leq);
    case _ =>
  }

  lemma {:induction false} ItemsSpell(items: seq<Json>, leq: Collation) returns (parts: seq<string>)
    requires IsPreorder(leq) && forall i :: 0 <= i < |items| ==> WellFormed(items[i])
    ensures SpellsItems(items, parts, leq) && CanonicalItems(items, leq) == WithCommas(parts)
    decreases items, 1
  {
    hide Spells, IsPreorder;
    if items == [] {
      parts := [];
    } else {
      CanonicalSpells(items[0], leq);
      var rest := ItemsSpell(items[1..], leq);
      parts := [Canonicalize(items[0], leq)] + rest;
      assert parts[1..] == rest;
      forall i | 0 <= i < |items| ensures Spells(items[i], parts[i], leq) {
        if i > 0 {
          assert items[i] == items[1..][i - 1] && parts[i] == rest[i - 1];
        }
      }
    }
  }

  lemma {:induction false} MembersSpell(all: seq<Member>, sorted: seq<Member>, leq: Collation) returns (parts: seq<string>)
    requires IsPreorder(leq) && WellFormed(Object(all)) && forall i :: 0 <= i < |sorted| ==> sorted[i] in all
    ensures SpellsMembers(all, sorted, parts, leq) && CanonicalMembers(all, sorted, leq) == WithCommas(parts)
    decreases all, 1, |sorted|
  {
    hide Spells, IsPreorder, SpellsString, Quote;
    if sorted == [] {
      parts := [];
    } else {
      var first := sorted[0];
      QuoteSpells(first.key);
      CanonicalSpells(first.value, leq);
      var rest := MembersSpell(all, sorted[1..], leq);
      parts := [Quote(first.key) + ":" + Canonicalize(first.value, leq)] + rest;
      assert parts[1..] == rest && SpellsMember(first, parts[0], leq);
      forall i | 0 <= i < |sorted| ensures SpellsMember(sorted[i], parts[i], leq) {
        if i > 0 {
          assert sorted[i] == sorted[1..][i - 1] && parts[i] == rest[i - 1];
        }
      }
    }
  }

  lemma SortInOrder(members: seq<Member>, leq: Collation)
    requires IsPreorder(leq) && DistinctKeys(members)
    ensures InOrder(members, Sort(members, leq), leq)
  {
    SortKeeps(members, leq);
    SortSorts(members, leq);
    forall i, k | 0 <= i < k < |members| && leq(members[i].key, members[k].key)
      ensures Precedes(Sort(members, leq), members[i], members[k])
    {
      var p, q := SortKeepsOrder(members, leq, i, k);
    }
  }
}
