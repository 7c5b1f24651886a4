/** JSON text: quoting and printing in the order given, and why two values never print alike. */
module JsonText {

  datatype Json =
    | Null
    | Bool(truth: bool)
    | Number(literal: string)
    | Text(text: string)
    | Array(items: seq<Json>)
    | Object(members: seq<Member>)

  datatype Member = Member(key: string, value: Json)

  // ---------------------------------------------------------------- strings

  function HexDigit(n: int): char
    requires 0 <= n < 16
  {
    "0123456789abcdef"[n]
  }

  /** Section 7 of RFC 8259: quote, backslash and control characters are escaped. */
  function EscapeChar(c: char): string {
    if c == '"' then "\\\""
    else if c == '\\' then "\\\\"
    else if c == '\U{0008}' then "\\b"
    else if c == '\t' then "\\t"
    else if c == '\n' then "\\n"
    else if c == '\U{000C}' then "\\f"
    else if c == '\r' then "\\r"
    else if c < ' ' then "\\u00" + [HexDigit(c as int / 16), HexDigit(c as int % 16)]
    else [c]
  }

  function EscapeAll(s: string): string {
    if s == "" then "" else EscapeChar(s[0]) + EscapeAll(s[1..])
  }

  function Quote(s: string): string {
    "\"" + EscapeAll(s) + "\""
  }

  lemma HexDigitsDiffer(a: int, b: int)
    requires 0 <= a < 16 && 0 <= b < 16 && HexDigit(a) == HexDigit(b)
    ensures a == b
  {
  }

  lemma CharEscape(c: char, d: char, r: string, q: string)
    requires EscapeChar(c) + r == EscapeChar(d) + q
    ensures c == d && r == q
  {
    var e, f := EscapeChar(c), EscapeChar(d);
    assert (e + r)[0] == e[0] && (f + q)[0] == f[0];
    if |e| > 1 && |f| > 1 {
      assert (e + r)[1] == e[1] && (f + q)[1] == f[1];
      if |e| == 6 && |f| == 6 {
        assert (e + r)[4] == e[4] && (f + q)[4] == f[4];
        assert (e + r)[5] == e[5] && (f + q)[5] == f[5];
        HexDigitsDiffer(c as int / 16, d as int / 16);
        HexDigitsDiffer(c as int % 16, d as int % 16);
      }
    }
    assert c == d;
    Cancel(e, r, q);
  }

  lemma Cancel(p: string, a: string, b: string)
    requires p + a == p + b
    ensures a == b
  {
    assert (p + a)[|p|..] == a && (p + b)[|p|..] == b;
  }

  lemma Regroup(a: string, b: string, c: string, d: string)
    ensures a + b + c + d == a + (b + (c + d))
  {
  }

  lemma Regroup2(a: string, b: string, c: string)
    ensures a + b + c == a + (b + c)
  {
  }

  lemma First(p: string, r: string)
    requires p != ""
    ensures p + r != "" && (p + r)[0] == p[0]
  {
  }

  /** The text of a string after its opening quote, and what follows it. */
  function Opened(s: string, r: string): string {
    EscapeAll(s) + ("\"" + r)
  }

  lemma OpenedStep(s: string, r: string)
    requires s != ""
    ensures Opened(s, r) == EscapeChar(s[0]) + Opened(s[1..], r)
    ensures Opened(s, r) != "" && Opened(s, r)[0] != '"'
  {
    Regroup2(EscapeChar(s[0]), EscapeAll(s[1..]), "\"" + r);
    First(EscapeChar(s[0]), Opened(s[1..], r));
  }

  lemma OpenedEnd(r: string)
    ensures Opened("", r) == "\"" + r
  {
  }

  lemma {:induction false} EscapePrefix(s: string, t: string, r: string, q: string)
    requires Opened(s, r) == Opened(t, q)
    ensures s == t && r == q
  {
    OpenedEnd(r);
    OpenedEnd(q);
    if s != "" {
      OpenedStep(s, r);
    }
    if t != "" {
      OpenedStep(t, q);
    }
    if s != "" && t != "" {
      CharEscape(s[0], t[0], Opened(s[1..], r), Opened(t[1..], q));
      EscapePrefix(s[1..], t[1..], r, q);
      assert s == [s[0]] + s[1..] && t == [t[0]] + t[1..];
    } else {
      Cancel("\"", r, q);
    }
  }

  /** A quoted string tells where it ends. */
  lemma QuotePrefix(s: string, t: string, r: string, q: string)
    requires Quote(s) + r == Quote(t) + q
    ensures s == t && r == q
  {
    Regroup("\"", EscapeAll(s), "\"", r);
    Regroup("\"", EscapeAll(t), "\"", q);
    Cancel("\"", Opened(s, r), Opened(t, q));
    EscapePrefix(s, t, r, q);
  }

  // ---------------------------------------------------------------- values

  predicate IsNumberChar(c: char) {
    '0' <= c <= '9' || c == '-' || c == '+' || c == '.' || c == 'e' || c == 'E'
  }

  /** Number literals start with a digit or a minus sign and hold number characters only. */
  predicate IsNumber(literal: string) {
    && literal != "" && ('0' <= literal[0] <= '9' || literal[0] == '-')
    && forall i :: 0 <= i < |literal| ==> IsNumberChar(literal[i])
  }

  predicate DistinctKeys(members: seq<Member>) {
    forall i, k :: 0 <= i < k < |members| ==> members[i].key != members[k].key
  }

  predicate WellFormed(v: Json) {
    match v
    case Number(literal) => IsNumber(literal)
    case Array(items) => forall i :: 0 <= i < |items| ==> WellFormed(items[i])
    case Object(members) => DistinctKeys(members) && forall i :: 0 <= i < |members| ==> WellFormed(members[i].value)
    case _ => true
  }

  function Print(v: Json): string
    decreases v, 0
  {
    match v
    case Null => "null"
    case Bool(truth) => if truth then "true" else "false"
    case Number(literal) => literal
    case Text(text) => Quote(text)
    case Array(items) => "[" + PrintItems(items) + "]"
    case Object(members) => "{" + PrintMembers(members) + "}"
  }

  /** Joined by commas. */
  function PrintItems(items: seq<Json>): string
    decreases items, 1
  {
    if items == [] then ""
    else if |items| == 1 then Print(items[0])
    else Print(items[0]) + "," + PrintItems(items[1..])
  }

  function PrintMember(m: Member): string
    decreases m, 1
  {
    Quote(m.key) + ":" + Print(m.value)
  }

  function PrintMembers(members: seq<Member>): string
    decreases members, 2
  {
    if members == [] then ""
    else if |members| == 1 then PrintMember(members[0])
    else PrintMember(members[0]) + "," + PrintMembers(members[1..])
  }

  // ---------------------------------------------------------------- no two values print alike

  /** What can follow a value inside a larger one. */
  predicate Stops(r: string) {
    r == "" || r[0] == ',' || r[0] == ']' || r[0] == '}'
  }

  /** The kind of a value shows in its first character. */
  function Kind(v: Json): int {
    match v
    case Null => 0
    case Bool(truth) => if truth then 1 else 2
    case Number(_) => 3
    case Text(_) => 4
    case Array(_) => 5
    case Object(_) => 6
  }

  function KindOfFirst(c: char): int {
    if c == 'n' then 0 else if c == 't' then 1 else if c == 'f' then 2
    else if '0' <= c <= '9' || c == '-' then 3
    else if c == '"' then 4 else if c == '[' then 5 else if c == '{' then 6 else 7
  }

  lemma FirstCharacter(v: Json)
    requires WellFormed(v)
    ensures Print(v) != "" && KindOfFirst(Print(v)[0]) == Kind(v)
  {
  }

  lemma NoShorter(a: string, b: string, r: string, q: string)
    requires forall i :: 0 <= i < |b| ==> IsNumberChar(b[i])
    requires Stops(r) && a + r == b + q
    ensures |a| >= |b|
  {
    assert forall i :: 0 <= i < |b| ==> (b + q)[i] == b[i];
    assert r != "" ==> (a + r)[|a|] == r[0];
  }

  lemma NumberPrefix(a: string, b: string, r: string, q: string)
    requires forall i :: 0 <= i < |a| ==> IsNumberChar(a[i])
    requires forall i :: 0 <= i < |b| ==> IsNumberChar(b[i])
    requires Stops(r) && Stops(q) && a + r == b + q
    ensures a == b && r == q
  {
    NoShorter(a, b, r, q);
    NoShorter(b, a, q, r);
    assert a == (a + r)[..|a|] && b == (b + q)[..|a|];
    Cancel(a, r, q);
  }

  /** A value tells where it ends, so nothing but itself prints as it does. */
  lemma {:induction false} PrintPrefix(a: Json, b: Json, r: string, q: string)
    requires WellFormed(a) && WellFormed(b) && Stops(r) && Stops(q) && Print(a) + r == Print(b) + q
    ensures a == b && r == q
    decreases a, 0
  {
    FirstCharacter(a);
    FirstCharacter(b);
    assert (Print(a) + r)[0] == Print(a)[0] && (Print(b) + q)[0] == Print(b)[0];
    assert Kind(a) == Kind(b);
    if a.Number? {
      NumberPrefix(a.literal, b.literal, r, q);
    } else if a.Text? {
      QuotePrefix(a.text, b.text, r, q);
    } else if a.Array? {
      Unwrap("[", PrintItems(a.items), "]", r, PrintItems(b.items), q);
      ItemsPrefix(a.items, b.items, r, q);
    } else if a.Object? {
      Unwrap("{", PrintMembers(a.members), "}", r, PrintMembers(b.members), q);
      MembersPrefix(a.members, b.members, r, q);
    } else {
      Cancel(Print(a), r, q);
    }
  }

  lemma Unwrap(open: string, a: string, close: string, r: string, b: string, q: string)
    requires open + a + close + r == open + b + close + q
    ensures a + (close + r) == b + (close + q)
  {
    Regroup(open, a, close, r);
    Regroup(open, b, close, q);
    Cancel(open, a + (close + r), b + (close + q));
  }

  /** The items and what follows the closing bracket. */
  function ItemsThen(items: seq<Json>, r: string): string {
    PrintItems(items) + ("]" + r)
  }

  /** What follows the first item. */
  function ItemsRest(items: seq<Json>, r: string): string
    requires items != []
  {
    if |items| == 1 then "]" + r else "," + ItemsThen(items[1..], r)
  }

  lemma ItemsSplit(items: seq<Json>, r: string)
    requires items != []
    ensures ItemsThen(items, r) == Print(items[0]) + ItemsRest(items, r)
    ensures Stops(ItemsRest(items, r))
    ensures ItemsRest(items, r) != "" && ItemsRest(items, r)[0] == (if |items| == 1 then ']' else ',')
  {
    if |items| > 1 {
      Regroup(Print(items[0]), ",", PrintItems(items[1..]), "]" + r);
    }
  }

  lemma ItemsFirst(items: seq<Json>, r: string)
    requires forall i :: 0 <= i < |items| ==> WellFormed(items[i])
    ensures ItemsThen(items, r) != "" && (ItemsThen(items, r)[0] == ']' <==> items == [])
    ensures items == [] ==> ItemsThen(items, r) == "]" + r
  {
    if items != [] {
      ItemsSplit(items, r);
      FirstCharacter(items[0]);
      First(Print(items[0]), ItemsRest(items, r));
    }
  }

  lemma {:induction false} ItemsPrefix(a: seq<Json>, b: seq<Json>, r: string, q: string)
    requires forall i :: 0 <= i < |a| ==> WellFormed(a[i])
    requires forall i :: 0 <= i < |b| ==> WellFormed(b[i])
    requires ItemsThen(a, r) == ItemsThen(b, q)
    ensures a == b && r == q
    decreases a, 1
  {
    ItemsFirst(a, r);
    ItemsFirst(b, q);
    if a == [] {
      Cancel("]", r, q);
    } else {
      ItemsSplit(a, r);
      ItemsSplit(b, q);
      PrintPrefix(a[0], b[0], ItemsRest(a, r), ItemsRest(b, q));
      if |a| == 1 {
        Cancel("]", r, q);
      } else {
        Cancel(",", ItemsThen(a[1..], r), ItemsThen(b[1..], q));
        ItemsPrefix(a[1..], b[1..], r, q);
        assert a == [a[0]] + a[1..] && b == [b[0]] + b[1..];
      }
    }
  }

  /** The members and what follows the closing brace. */
  function MembersThen(members: seq<Member>, r: string): string {
    PrintMembers(members) + ("}" + r)
  }

  /** What follows the first member. */
  function MembersRest(members: seq<Member>, r: string): string
    requires members != []
  {
    if |members| == 1 then "}" + r else "," + MembersThen(members[1..], r)
  }

  lemma MembersSplit(members: seq<Member>, r: string)
    requires members != []
    ensures MembersThen(members, r) ==
            Quote(members[0].key) + (":" + (Print(members[0].value) + MembersRest(members, r)))
    ensures Stops(MembersRest(members, r))
    ensures MembersRest(members, r) != "" && MembersRest(members, r)[0] == (if |members| == 1 then '}' else ',')
  {
    var m := members[0];
    if |members| > 1 {
      Regroup(PrintMember(m), ",", PrintMembers(members[1..]), "}" + r);
    }
    Regroup(Quote(m.key), ":", Print(m.value), MembersRest(members, r));
  }

  lemma MembersFirst(members: seq<Member>, r: string)
    ensures MembersThen(members, r) != "" && (MembersThen(members, r)[0] == '}' <==> members == [])
    ensures members == [] ==> MembersThen(members, r) == "}" + r
  {
    if members != [] {
      MembersSplit(members, r);
      First(Quote(members[0].key), ":" + (Print(members[0].value) + MembersRest(members, r)));
    }
  }

  lemma {:induction false} MembersPrefix(a: seq<Member>, b: seq<Member>, r: string, q: string)
    requires forall i :: 0 <= i < |a| ==> WellFormed(a[i].value)
    requires forall i :: 0 <= i < |b| ==> WellFormed(b[i].value)
    requires MembersThen(a, r) == MembersThen(b, q)
    ensures a == b && r == q
    decreases a, 1
  {
    MembersFirst(a, r);
    MembersFirst(b, q);
    if a == [] {
      Cancel("}", r, q);
    } else {
      MembersSplit(a, r);
      MembersSplit(b, q);
      var x, y := Print(a[0].value) + MembersRest(a, r), Print(b[0].value) + MembersRest(b, q);
      QuotePrefix(a[0].key, b[0].key, ":" + x, ":" + y);
      Cancel(":", x, y);
      PrintPrefix(a[0].value, b[0].value, MembersRest(a, r), MembersRest(b, q));
      if |a| == 1 {
        Cancel("}", r, q);
      } else {
        Cancel(",", MembersThen(a[1..], r), MembersThen(b[1..], q));
        MembersPrefix(a[1..], b[1..], r, q);
        assert a == [a[0]] + a[1..] && b == [b[0]] + b[1..];
      }
    }
  }

  lemma PrintInjective(a: Json, b: Json)
    requires WellFormed(a) && WellFormed(b) && Print(a) == Print(b)
    ensures a == b
  {
    assert Print(a) + "" == Print(b) + "";
    PrintPrefix(a, b, "", "");
  }
}
