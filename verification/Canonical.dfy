/** The canonical encoding: object members sorted by key under the runtime's collation, then printed. */
module Canonical {
  import opened JsonText

  /** A collation: `leq(a, b)` when a does not sort after b. Distinct strings may tie. */
  type Collation = (string, string) -> bool

  ghost predicate IsPreorder(leq: Collation) {
    && (forall a, b :: leq(a, b) || leq(b, a))
    && (forall a, b, c :: leq(a, b) && leq(b, c) ==> leq(a, c))
  }

  predicate Tied(leq: Collation, a: string, b: string) {
    a != b && leq(a, b) && leq(b, a)
  }

  // ---------------------------------------------------------------- stable sorting by key

  function Insert(m: Member, sorted: seq<Member>, leq: Collation): seq<Member> {
    if sorted == [] then [m]
    else if leq(m.key, sorted[0].key) then [m] + sorted
    else [sorted[0]] + Insert(m, sorted[1..], leq)
  }

  function Sort(members: seq<Member>, leq: Collation): seq<Member> {
    if members == [] then [] else Insert(members[0], Sort(members[1..], leq), leq)
  }

  lemma {:induction false} InsertKeeps(m: Member, sorted: seq<Member>, leq: Collation)
    ensures multiset(Insert(m, sorted, leq)) == multiset{m} + multiset(sorted)
  {
    if sorted != [] && !leq(m.key, sorted[0].key) {
      InsertKeeps(m, sorted[1..], leq);
      assert sorted == [sorted[0]] + sorted[1..];
    }
  }

  lemma {:induction false} SortKeeps(members: seq<Member>, leq: Collation)
    ensures multiset(Sort(members, leq)) == multiset(members)
  {
    if members != [] {
      SortKeeps(members[1..], leq);
      InsertKeeps(members[0], Sort(members[1..], leq), leq);
      assert members == [members[0]] + members[1..];
    }
  }

  lemma SortElements(members: seq<Member>, leq: Collation)
    ensures |Sort(members, leq)| == |members|
    ensures forall m :: m in Sort(members, leq) <==> m in members
  {
    SortKeeps(members, leq);
    assert |multiset(Sort(members, leq))| == |multiset(members)|;
    forall m ensures m in Sort(members, leq) <==> m in members {
      assert m in multiset(Sort(members, leq)) <==> m in multiset(members);
    }
  }

  predicate SortedBy(members: seq<Member>, leq: Collation) {
    forall i, k :: 0 <= i < k < |members| ==> leq(members[i].key, members[k].key)
  }

  lemma InsertElements(m: Member, sorted: seq<Member>, leq: Collation)
    ensures forall x :: x in Insert(m, sorted, leq) <==> x == m || x in sorted
  {
    InsertKeeps(m, sorted, leq);
    forall x ensures x in Insert(m, sorted, leq) <==> x == m || x in sorted {
      assert x in multiset(Insert(m, sorted, leq)) <==> x in multiset{m} + multiset(sorted);
    }
  }

  lemma {:induction false} InsertSorts(m: Member, sorted: seq<Member>, leq: Collation)
    requires IsPreorder(leq) && SortedBy(sorted, leq)
    ensures SortedBy(Insert(m, sorted, leq), leq)
  {
    if sorted != [] && !leq(m.key, sorted[0].key) {
      var rest := Insert(m, sorted[1..], leq);
      InsertSorts(m, sorted[1..], leq);
      InsertElements(m, sorted[1..], leq);
      forall k | 0 <= k < |rest| ensures leq(sorted[0].key, rest[k].key) {
        assert rest[k] in rest;
      }
    }
  }

  lemma {:induction false} InsertDistinct(m: Member, sorted: seq<Member>, leq: Collation)
    requires DistinctKeys(sorted) && forall i :: 0 <= i < |sorted| ==> sorted[i].key != m.key
    ensures DistinctKeys(Insert(m, sorted, leq))
  {
    if sorted != [] && !leq(m.key, sorted[0].key) {
      var rest := Insert(m, sorted[1..], leq);
      InsertDistinct(m, sorted[1..], leq);
      InsertElements(m, sorted[1..], leq);
      forall k | 0 <= k < |rest| ensures rest[k].key != sorted[0].key {
        assert rest[k] in rest;
      }
    }
  }

  lemma {:induction false} SortSorts(members: seq<Member>, leq: Collation)
    requires IsPreorder(leq) && DistinctKeys(members)
    ensures SortedBy(Sort(members, leq), leq) && DistinctKeys(Sort(members, leq))
  {
    if members != [] {
      var rest := Sort(members[1..], leq);
      SortSorts(members[1..], leq);
      SortElements(members[1..], leq);
      forall i | 0 <= i < |rest| ensures rest[i].key != members[0].key {
        assert rest[i] in members[1..];
      }
      InsertSorts(members[0], rest, leq);
      InsertDistinct(members[0], rest, leq);
    }
  }

  lemma SomethingIn(b: seq<Member>)
    requires b != []
    ensures exists m :: m in b
  {
    assert b[0] in b;
  }

  /** Without ties among the keys there is only one way to sort. */
  lemma {:induction false} SortedOneWay(a: seq<Member>, b: seq<Member>, leq: Collation)
    requires SortedBy(a, leq) && SortedBy(b, leq) && DistinctKeys(a) && DistinctKeys(b)
    requires forall m :: m in a <==> m in b
    requires forall i, k :: 0 <= i < |a| && 0 <= k < |a| ==> !Tied(leq, a[i].key, a[k].key)
    requires IsPreorder(leq)
    ensures a == b
  {
    hide IsPreorder;
    if a == [] {
      if b != [] {
        SomethingIn(b);
      }
    } else {
      assert a[0] in b && b[0] in a;
      var i :| 0 <= i < |a| && a[i] == b[0];
      var k :| 0 <= k < |b| && b[k] == a[0];
      assert !Tied(leq, a[0].key, a[i].key);
      assert a[0] == b[0];
      SameTail(a, b);
      SortedOneWay(a[1..], b[1..], leq);
      assert a == [a[0]] + a[1..] && b == [b[0]] + b[1..];
    }
  }

  lemma SameTail(a: seq<Member>, b: seq<Member>)
    requires a != [] && b != [] && a[0] == b[0] && DistinctKeys(a) && DistinctKeys(b) && forall m :: m in a <==> m in b
    ensures forall m :: m in a[1..] <==> m in b[1..]
  {
    InTail(a);
    InTail(b);
  }

  lemma InTail(a: seq<Member>)
    requires a != [] && DistinctKeys(a)
    ensures forall m :: m in a[1..] <==> m in a && m != a[0]
  {
    forall m | m in a && m != a[0] ensures m in a[1..] {
      var i :| 0 <= i < |a| && a[i] == m;
      assert a[1..][i - 1] == m;
    }
  }

  // ---------------------------------------------------------------- canonicalize

  function Canonicalize(v: Json, leq: Collation): string
    decreases v, 0
  {
    match v
    case Array(items) => "[" + CanonicalItems(items, leq) + "]"
    case Object(members) =>
      SortElements(members, leq);
      "{" + CanonicalMembers(members, Sort(members, leq), leq) + "}"
    case _ => Print(v)
  }

  function CanonicalItems(items: seq<Json>, leq: Collation): string
    decreases items, 1
  {
    if items == [] then ""
    else if |items| == 1 then Canonicalize(items[0], leq)
    else Canonicalize(items[0], leq) + "," + CanonicalItems(items[1..], leq)
  }

  /** Renders the members in the order given; `all` are the members of the object. */
  function CanonicalMembers(all: seq<Member>, sorted: seq<Member>, leq: Collation): string
    requires forall i :: 0 <= i < |sorted| ==> sorted[i] in all
    decreases all, 1, |sorted|
  {
    if sorted == [] then ""
    else
      var first := Quote(sorted[0].key) + ":" + Canonicalize(sorted[0].value, leq);
      if |sorted| == 1 then first else first + "," + CanonicalMembers(all, sorted[1..], leq)
  }

  // ---------------------------------------------------------------- the normal form

  /** The value with the members of every object sorted. */
  function Normal(v: Json, leq: Collation): Json
    decreases v, 0
  {
    match v
    case Array(items) => Array(seq(|items|, i requires 0 <= i < |items| => Normal(items[i], leq)))
    case Object(members) => Object(NormalOf(members, leq))
    case _ => v
  }

  function NormalOf(members: seq<Member>, leq: Collation): seq<Member>
    decreases members, 2
  {
    SortElements(members, leq);
    NormalMembers(members, Sort(members, leq), leq)
  }

  function NormalMembers(all: seq<Member>, sorted: seq<Member>, leq: Collation): seq<Member>
    requires forall i :: 0 <= i < |sorted| ==> sorted[i] in all
    decreases all, 1, |sorted|
  {
    if sorted == [] then []
    else [Member(sorted[0].key, Normal(sorted[0].value, leq))] + NormalMembers(all, sorted[1..], leq)
  }

  lemma {:induction false} NormalMembersAt(all: seq<Member>, sorted: seq<Member>, leq: Collation)
    requires forall i :: 0 <= i < |sorted| ==> sorted[i] in all
    ensures |NormalMembers(all, sorted, leq)| == |sorted|
    ensures forall i :: 0 <= i < |sorted| ==>
              NormalMembers(all, sorted, leq)[i] == Member(sorted[i].key, Normal(sorted[i].value, leq))
    decreases |sorted|
  {
    if sorted != [] {
      NormalMembersAt(all, sorted[1..], leq);
    }
  }

  function NormalItems(items: seq<Json>, leq: Collation): seq<Json> {
    seq(|items|, i requires 0 <= i < |items| => Normal(items[i], leq))
  }

  /** Canonicalizing is printing the normal form. */
  lemma {:induction false} CanonicalizePrintsNormal(v: Json, leq: Collation)
    ensures Canonicalize(v, leq) == Print(Normal(v, leq))
    decreases v, 0
  {
    if v.Array? {
      ItemsPrintNormal(v.items, leq);
      assert Normal(v, leq) == Array(NormalItems(v.items, leq));
    } else if v.Object? {
      SortElements(v.members, leq);
      MembersPrintNormal(v.members, Sort(v.members, leq), leq);
    }
  }

  lemma {:induction false} ItemsPrintNormal(items: seq<Json>, leq: Collation)
    ensures CanonicalItems(items, leq) == PrintItems(NormalItems(items, leq))
    decreases items, 1
  {
    if items != [] {
      CanonicalizePrintsNormal(items[0], leq);
      ItemsPrintNormal(items[1..], leq);
      assert NormalItems(items, leq)[1..] == NormalItems(items[1..], leq);
    }
  }

  lemma {:induction false} MembersPrintNormal(all: seq<Member>, sorted: seq<Member>, leq: Collation)
    requires forall i :: 0 <= i < |sorted| ==> sorted[i] in all
    ensures CanonicalMembers(all, sorted, leq) == PrintMembers(NormalMembers(all, sorted, leq))
    decreases all, 1, |sorted|
  {
    if sorted != [] {
      CanonicalizePrintsNormal(sorted[0].value, leq);
      MembersPrintNormal(all, sorted[1..], leq);
      NormalMembersAt(all, sorted, leq);
      assert NormalMembers(all, sorted, leq)[1..] == NormalMembers(all, sorted[1..], leq);
    }
  }

  lemma {:induction false} NormalWellFormed(v: Json, leq: Collation)
    requires IsPreorder(leq) && WellFormed(v)
    ensures WellFormed(Normal(v, leq))
    decreases v
  {
    if v.Array? {
      forall i | 0 <= i < |v.items| ensures WellFormed(Normal(v.items[i], leq)) {
        NormalWellFormed(v.items[i], leq);
      }
    } else if v.Object? {
      var sorted := Sort(v.members, leq);
      SortElements(v.members, leq);
      SortSorts(v.members, leq);
      NormalMembersAt(v.members, sorted, leq);
      forall i | 0 <= i < |sorted| ensures WellFormed(Normal(sorted[i].value, leq)) {
        assert sorted[i] in v.members;
        NormalWellFormed(sorted[i].value, leq);
      }
    }
  }

  // ---------------------------------------------------------------- equal up to key order

  function Keys(members: seq<Member>): set<string> {
    set i | 0 <= i < |members| :: members[i].key
  }

  predicate Same(a: Json, b: Json) {
    match a
    case Array(items) =>
      b.Array? && |items| == |b.items| && forall i :: 0 <= i < |items| ==> Same(items[i], b.items[i])
    case Object(members) =>
      && b.Object? && Keys(members) == Keys(b.members)
      && forall i, k :: 0 <= i < |members| && 0 <= k < |b.members| && members[i].key == b.members[k].key ==>
           Same(members[i].value, b.members[k].value)
    case _ => a == b
  }

  /** No object inside holds two keys that the collation cannot tell apart. */
  predicate TieFree(v: Json, leq: Collation) {
    match v
    case Array(items) => forall i :: 0 <= i < |items| ==> TieFree(items[i], leq)
    case Object(members) =>
      && (forall i, k :: 0 <= i < |members| && 0 <= k < |members| ==> !Tied(leq, members[i].key, members[k].key))
      && (forall i :: 0 <= i < |members| ==> TieFree(members[i].value, leq))
    case _ => true
  }

  function NormalMember(m: Member, leq: Collation): Member {
    Member(m.key, Normal(m.value, leq))
  }

  lemma NormalOfAt(members: seq<Member>, leq: Collation)
    ensures |NormalOf(members, leq)| == |Sort(members, leq)|
    ensures forall p :: 0 <= p < |NormalOf(members, leq)| ==> NormalOf(members, leq)[p] == NormalMember(Sort(members, leq)[p], leq)
  {
    SortElements(members, leq);
    NormalMembersAt(members, Sort(members, leq), leq);
  }

  lemma NormalOfSorted(members: seq<Member>, leq: Collation)
    requires IsPreorder(leq) && DistinctKeys(members)
    ensures SortedBy(NormalOf(members, leq), leq) && DistinctKeys(NormalOf(members, leq))
  {
    SortSorts(members, leq);
    NormalOfAt(members, leq);
  }

  lemma NormalOfHas(members: seq<Member>, leq: Collation, i: nat)
    requires i < |members|
    ensures NormalMember(members[i], leq) in NormalOf(members, leq)
  {
    NormalOfAt(members, leq);
    SortElements(members, leq);
    assert members[i] in Sort(members, leq);
    var p :| 0 <= p < |Sort(members, leq)| && Sort(members, leq)[p] == members[i];
    assert NormalOf(members, leq)[p] == NormalMember(members[i], leq);
  }

  lemma NormalOfFrom(members: seq<Member>, leq: Collation, m: Member) returns (i: nat)
    requires m in NormalOf(members, leq)
    ensures i < |members| && m == NormalMember(members[i], leq)
  {
    NormalOfAt(members, leq);
    SortElements(members, leq);
    var p :| 0 <= p < |NormalOf(members, leq)| && NormalOf(members, leq)[p] == m;
    assert Sort(members, leq)[p] in members;
    i :| i < |members| && members[i] == Sort(members, leq)[p];
  }

  lemma SameKeyOnce(members: seq<Member>, i: nat, k: nat)
    requires DistinctKeys(members) && i < |members| && k < |members| && members[i].key == members[k].key
    ensures i == k
  {
  }

  /** Equal normal forms: the same keys, and at each key equal normal forms. */
  lemma NormalOfEqual(a: seq<Member>, b: seq<Member>, leq: Collation)
    requires IsPreorder(leq) && DistinctKeys(a) && DistinctKeys(b) && NormalOf(a, leq) == NormalOf(b, leq)
    ensures Keys(a) <= Keys(b)
    ensures forall i, k :: 0 <= i < |a| && 0 <= k < |b| && a[i].key == b[k].key ==> Normal(a[i].value, leq) == Normal(b[k].value, leq)
  {
    forall i | 0 <= i < |a|
      ensures a[i].key in Keys(b)
      ensures forall k :: 0 <= k < |b| && a[i].key == b[k].key ==> Normal(a[i].value, leq) == Normal(b[k].value, leq)
    {
      NormalOfHas(a, leq, i);
      var j := NormalOfFrom(b, leq, NormalMember(a[i], leq));
      forall k | 0 <= k < |b| && a[i].key == b[k].key ensures Normal(a[i].value, leq) == Normal(b[k].value, leq) {
        SameKeyOnce(b, j, k);
      }
    }
  }

  lemma {:induction false} EqualNormalsAreSame(a: Json, b: Json, leq: Collation)
    requires IsPreorder(leq) && WellFormed(a) && WellFormed(b) && Normal(a, leq) == Normal(b, leq)
    ensures Same(a, b)
    decreases a
  {
    if a.Array? {
      forall i | 0 <= i < |a.items| ensures Same(a.items[i], b.items[i]) {
        assert Normal(a, leq).items[i] == Normal(a.items[i], leq) && Normal(b, leq).items[i] == Normal(b.items[i], leq);
        EqualNormalsAreSame(a.items[i], b.items[i], leq);
      }
    } else if a.Object? {
      NormalOfEqual(a.members, b.members, leq);
      NormalOfEqual(b.members, a.members, leq);
      forall i, k | 0 <= i < |a.members| && 0 <= k < |b.members| && a.members[i].key == b.members[k].key
        ensures Same(a.members[i].value, b.members[k].value)
      {
        EqualNormalsAreSame(a.members[i].value, b.members[k].value, leq);
      }
    }
  }

  lemma SameKeysAt(a: seq<Member>, b: seq<Member>, i: nat) returns (k: nat)
    requires Keys(a) == Keys(b) && i < |a|
    ensures k < |b| && b[k].key == a[i].key
  {
    assert a[i].key in Keys(b);
    k :| k < |b| && b[k].key == a[i].key;
  }

  /** Members that agree at every key sort into the same normal form, if no two keys tie. */
  lemma NormalOfSame(a: seq<Member>, b: seq<Member>, leq: Collation)
    requires IsPreorder(leq) && DistinctKeys(a) && DistinctKeys(b) && Keys(a) == Keys(b)
    requires forall i, k :: 0 <= i < |a| && 0 <= k < |b| && a[i].key == b[k].key ==> Normal(a[i].value, leq) == Normal(b[k].value, leq)
    requires forall i, k :: 0 <= i < |a| && 0 <= k < |a| ==> !Tied(leq, a[i].key, a[k].key)
    ensures NormalOf(a, leq) == NormalOf(b, leq)
  {
    var n, p := NormalOf(a, leq), NormalOf(b, leq);
    NormalOfSorted(a, leq);
    NormalOfSorted(b, leq);
    forall m ensures m in n <==> m in p {
      if m in n {
        var i := NormalOfFrom(a, leq, m);
        var k := SameKeysAt(a, b, i);
        NormalOfHas(b, leq, k);
      }
      if m in p {
        var k := NormalOfFrom(b, leq, m);
        var i := SameKeysAt(b, a, k);
        NormalOfHas(a, leq, i);
      }
    }
    forall x, y | 0 <= x < |n| && 0 <= y < |n| ensures !Tied(leq, n[x].key, n[y].key) {
      var i := NormalOfFrom(a, leq, n[x]);
      var k := NormalOfFrom(a, leq, n[y]);
      assert !Tied(leq, a[i].key, a[k].key);
    }
    SortedOneWay(n, p, leq);
  }

  lemma {:induction false} SameNormals(a: Json, b: Json, leq: Collation)
    requires IsPreorder(leq) && WellFormed(a) && WellFormed(b) && TieFree(a, leq) && Same(a, b)
    ensures Normal(a, leq) == Normal(b, leq)
    decreases a
  {
    if a.Array? {
      forall i | 0 <= i < |a.items| ensures Normal(a.items[i], leq) == Normal(b.items[i], leq) {
        SameNormals(a.items[i], b.items[i], leq);
      }
    } else if a.Object? {
      forall i, k | 0 <= i < |a.members| && 0 <= k < |b.members| && a.members[i].key == b.members[k].key
        ensures Normal(a.members[i].value, leq) == Normal(b.members[k].value, leq)
      {
        SameNormals(a.members[i].value, b.members[k].value, leq);
      }
      NormalOfSame(a.members, b.members, leq);
    }
  }

  // ---------------------------------------------------------------- what fingerprints tell apart

  /** Different values never share an encoding, whatever the collation does. */
  lemma EncodingTellsApart(a: Json, b: Json, leq: Collation)
    requires IsPreorder(leq) && WellFormed(a) && WellFormed(b) && Canonicalize(a, leq) == Canonicalize(b, leq)
    ensures Same(a, b)
  {
    CanonicalizePrintsNormal(a, leq);
    CanonicalizePrintsNormal(b, leq);
    NormalWellFormed(a, leq);
    NormalWellFormed(b, leq);
    PrintInjective(Normal(a, leq), Normal(b, leq));
    EqualNormalsAreSame(a, b, leq);
  }

  /** Without tied keys, encodings are equal exactly when the values are equal up to key order. */
  lemma EncodingIff(a: Json, b: Json, leq: Collation)
    requires IsPreorder(leq) && WellFormed(a) && WellFormed(b) && TieFree(a, leq)
    ensures Canonicalize(a, leq) == Canonicalize(b, leq) <==> Same(a, b)
  {
    if Same(a, b) {
      SameNormals(a, b, leq);
      CanonicalizePrintsNormal(a, leq);
      CanonicalizePrintsNormal(b, leq);
    } else if Canonicalize(a, leq) == Canonicalize(b, leq) {
      EncodingTellsApart(a, b, leq);
    }
  }

  ghost predicate IgnoresKeyOrder(leq: Collation) {
    forall a, b :: WellFormed(a) && WellFormed(b) && Same(a, b) ==> Canonicalize(a, leq) == Canonicalize(b, leq)
  }

  ghost predicate NoTies(leq: Collation) {
    forall x, y :: !Tied(leq, x, y)
  }

  lemma {:induction false} NoTiesIsTieFree(v: Json, leq: Collation)
    requires NoTies(leq)
    ensures TieFree(v, leq)
    decreases v
  {
    if v.Array? {
      forall i | 0 <= i < |v.items| ensures TieFree(v.items[i], leq) {
        NoTiesIsTieFree(v.items[i], leq);
      }
    } else if v.Object? {
      forall i | 0 <= i < |v.members| ensures TieFree(v.members[i].value, leq) {
        NoTiesIsTieFree(v.members[i].value, leq);
      }
    }
  }

  /** Two members with tied keys keep the order they came in. */
  lemma TiedKeysKeepOrder(x: string, y: string, leq: Collation)
    requires IsPreorder(leq) && Tied(leq, x, y)
    ensures var a, b := Object([Member(x, Null), Member(y, Null)]), Object([Member(y, Null), Member(x, Null)]);
            WellFormed(a) && WellFormed(b) && Same(a, b) && Canonicalize(a, leq) != Canonicalize(b, leq)
  {
    hide Canonicalize, Print;
    var m, n := Member(x, Null), Member(y, Null);
    var a, b := Object([m, n]), Object([n, m]);
    KeysOfTwo(m, n);
    KeysOfTwo(n, m);
    SortTwo(m, n, leq);
    SortTwo(n, m, leq);
    assert Normal(a, leq) == Object([m, n]) by {
      NormalTwo(m, n, leq);
    }
    assert Normal(b, leq) == Object([n, m]) by {
      NormalTwo(n, m, leq);
    }
    if Canonicalize(a, leq) == Canonicalize(b, leq) {
      CanonicalizePrintsNormal(a, leq);
      CanonicalizePrintsNormal(b, leq);
      PrintInjective(a, b);
    }
  }

  lemma KeysOfTwo(m: Member, n: Member)
    ensures Keys([m, n]) == {m.key, n.key}
  {
    assert [m, n][0] == m && [m, n][1] == n;
  }

  lemma SortTwo(m: Member, n: Member, leq: Collation)
    requires leq(m.key, n.key)
    ensures Sort([m, n], leq) == [m, n]
  {
    assert [m, n][1..] == [n] && [n][1..] == [];
    assert Sort([n], leq) == [n];
  }

  lemma NormalTwo(m: Member, n: Member, leq: Collation)
    requires m.value == Null && n.value == Null && Sort([m, n], leq) == [m, n]
    ensures NormalOf([m, n], leq) == [m, n]
  {
    SortElements([m, n], leq);
    NormalMembersAt([m, n], [m, n], leq);
    var p := NormalMembers([m, n], [m, n], leq);
    assert p[0] == m && p[1] == n;
  }

  /** Key order is ignored for all values exactly when the collation has no ties between different keys. */
  lemma KeyOrderIgnoredIff(leq: Collation)
    requires IsPreorder(leq)
    ensures IgnoresKeyOrder(leq) <==> NoTies(leq)
  {
    if NoTies(leq) {
      forall a, b | WellFormed(a) && WellFormed(b) && Same(a, b) ensures Canonicalize(a, leq) == Canonicalize(b, leq) {
        NoTiesIsTieFree(a, leq);
        EncodingIff(a, b, leq);
      }
    } else {
      var x, y :| Tied(leq, x, y);
      TiedKeysKeepOrder(x, y, leq);
    }
  }
}
