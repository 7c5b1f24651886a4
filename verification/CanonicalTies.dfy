/** For which values the canonical encoding ignores key order: exactly those in which no object holds tied keys. */
module CanonicalTies {
  import opened JsonText
  import opened Canonical

  // ---------------------------------------------------------------- sorting keeps the order of tied keys

  lemma {:induction false} InsertPuts(m: Member, sorted: seq<Member>, y: Member, leq: Collation) returns (p: nat, q: nat)
    requires y in sorted && leq(m.key, y.key)
    ensures var s := Insert(m, sorted, leq); p < q < |s| && s[p] == m && s[q] == y
  {
    if leq(m.key, sorted[0].key) {
      var i :| 0 <= i < |sorted| && sorted[i] == y;
      p, q := 0, i + 1;
    } else {
      assert sorted == [sorted[0]] + sorted[1..];
      p, q := InsertPuts(m, sorted[1..], y, leq);
      p, q := p + 1, q + 1;
    }
  }

  lemma {:induction false} InsertKeepsOrder(m: Member, sorted: seq<Member>, leq: Collation, i: nat, k: nat) returns (p: nat, q: nat)
    requires i < k < |sorted|
    ensures var s := Insert(m, sorted, leq); p < q < |s| && s[p] == sorted[i] && s[q] == sorted[k]
  {
    if leq(m.key, sorted[0].key) {
      p, q := i + 1, k + 1;
    } else if i > 0 {
      p, q := InsertKeepsOrder(m, sorted[1..], leq, i - 1, k - 1);
      p, q := p + 1, q + 1;
    } else {
      InsertElements(m, sorted[1..], leq);
      assert sorted[1..][k - 1] == sorted[k] && sorted[k] in Insert(m, sorted[1..], leq);
      var j :| 0 <= j < |Insert(m, sorted[1..], leq)| && Insert(m, sorted[1..], leq)[j] == sorted[k];
      p, q := 0, j + 1;
    }
  }

  /** Of two members whose first does not sort after the second, the first stays first. */
  lemma {:induction false} SortKeepsOrder(members: seq<Member>, leq: Collation, i: nat, k: nat) returns (p: nat, q: nat)
    requires i < k < |members| && leq(members[i].key, members[k].key)
    ensures var s := Sort(members, leq); p < q < |s| && s[p] == members[i] && s[q] == members[k]
  {
    if i == 0 {
      SortElements(members[1..], leq);
      assert members[1..][k - 1] == members[k];
      p, q := InsertPuts(members[0], Sort(members[1..], leq), members[k], leq);
    } else {
      p, q := SortKeepsOrder(members[1..], leq, i - 1, k - 1);
      p, q := InsertKeepsOrder(members[0], Sort(members[1..], leq), leq, p, q);
    }
  }

  // ---------------------------------------------------------------- reordered values

  lemma {:induction false} SameSelf(v: Json)
    requires WellFormed(v)
    ensures Same(v, v)
    decreases v
  {
    if v.Array? {
      forall i | 0 <= i < |v.items| ensures Same(v.items[i], v.items[i]) {
        SameSelf(v.items[i]);
      }
    } else if v.Object? {
      forall i, k | 0 <= i < |v.members| && 0 <= k < |v.members| && v.members[i].key == v.members[k].key
        ensures Same(v.members[i].value, v.members[k].value)
      {
        SameKeyOnce(v.members, i, k);
        SameSelf(v.members[i].value);
      }
    }
  }

  /** One item replaced by a reordering of it. */
  lemma ItemReordered(items: seq<Json>, i: nat, item: Json, leq: Collation)
    requires i < |items| && WellFormed(Array(items)) && WellFormed(item) && Same(items[i], item)
    requires Normal(items[i], leq) != Normal(item, leq)
    ensures var a, b := Array(items), Array(items[i := item]);
            WellFormed(b) && Same(a, b) && Normal(a, leq) != Normal(b, leq)
  {
    var a, b := Array(items), Array(items[i := item]);
    forall j | 0 <= j < |items| ensures Same(items[j], b.items[j]) {
      SameSelf(items[j]);
    }
    assert Normal(a, leq).items[i] == Normal(items[i], leq) && Normal(b, leq).items[i] == Normal(item, leq);
  }

  /** One value of an object replaced by a reordering of it. */
  lemma ValueReordered(members: seq<Member>, i: nat, value: Json, leq: Collation)
    requires IsPreorder(leq) && i < |members| && WellFormed(Object(members)) && WellFormed(value) && Same(members[i].value, value)
    requires Normal(members[i].value, leq) != Normal(value, leq)
    ensures var a, b := Object(members), Object(members[i := Member(members[i].key, value)]);
            WellFormed(b) && Same(a, b) && Normal(a, leq) != Normal(b, leq)
  {
    var changed := members[i := Member(members[i].key, value)];
    assert forall j :: 0 <= j < |members| ==> changed[j].key == members[j].key;
    forall j, k | 0 <= j < |members| && 0 <= k < |members| && members[j].key == changed[k].key
      ensures Same(members[j].value, changed[k].value)
    {
      SameKeyOnce(members, j, k);
      SameSelf(members[j].value);
    }
    assert members[i].key == changed[i].key;
    if NormalOf(members, leq) == NormalOf(changed, leq) {
      NormalOfEqual(members, changed, leq);
    }
  }

  function Swapped(members: seq<Member>, i: nat, k: nat): seq<Member>
    requires i < k < |members|
  {
    members[i := members[k]][k := members[i]]
  }

  /** Two keys in one order, and in the other. */
  lemma OtherOrder(a: seq<Member>, p: nat, q: nat, b: seq<Member>, x: nat, y: nat)
    requires DistinctKeys(a) && p < q < |a| && x < y < |b| && a[p].key == b[y].key && a[q].key == b[x].key
    ensures a != b
  {
    if y < |a| && a[p].key == a[y].key {
      SameKeyOnce(a, p, y);
    }
  }

  /** Two tied members of an object swapped. */
  lemma MembersSwapped(members: seq<Member>, i: nat, k: nat, leq: Collation)
    requires IsPreorder(leq) && i < k < |members| && WellFormed(Object(members)) && Tied(leq, members[i].key, members[k].key)
    ensures var a, b := Object(members), Object(Swapped(members, i, k));
            WellFormed(b) && Same(a, b) && Normal(a, leq) != Normal(b, leq)
  {
    var swapped := Swapped(members, i, k);
    SwapSame(members, i, k);
    var p, q := SortKeepsOrder(members, leq, i, k);
    var x, y := SortKeepsOrder(swapped, leq, i, k);
    NormalOfAt(members, leq);
    NormalOfAt(swapped, leq);
    NormalOfSorted(members, leq);
    OtherOrder(NormalOf(members, leq), p, q, NormalOf(swapped, leq), x, y);
  }

  function Other(i: nat, k: nat, j: nat): nat {
    if j == i then k else if j == k then i else j
  }

  lemma SwappedAt(members: seq<Member>, i: nat, k: nat, j: nat)
    requires i < k < |members| && j < |members|
    ensures Other(i, k, j) < |members| && Other(i, k, Other(i, k, j)) == j
    ensures Swapped(members, i, k)[j] == members[Other(i, k, j)]
  {
  }

  lemma SwappedWellFormed(members: seq<Member>, i: nat, k: nat)
    requires i < k < |members| && WellFormed(Object(members))
    ensures WellFormed(Object(Swapped(members, i, k)))
  {
    var swapped := Swapped(members, i, k);
    forall j, m | 0 <= j < m < |swapped| ensures swapped[j].key != swapped[m].key {
      SwappedAt(members, i, k, j);
      SwappedAt(members, i, k, m);
      if members[Other(i, k, j)].key == members[Other(i, k, m)].key {
        SameKeyOnce(members, Other(i, k, j), Other(i, k, m));
      }
    }
    forall j | 0 <= j < |swapped| ensures WellFormed(swapped[j].value) {
      SwappedAt(members, i, k, j);
    }
  }

  lemma SwappedKeys(members: seq<Member>, i: nat, k: nat)
    requires i < k < |members|
    ensures Keys(members) == Keys(Swapped(members, i, k))
  {
    var swapped := Swapped(members, i, k);
    forall j | 0 <= j < |members| ensures members[j].key in Keys(swapped) && swapped[j].key in Keys(members) {
      SwappedAt(members, i, k, j);
      SwappedAt(members, i, k, Other(i, k, j));
      assert swapped[Other(i, k, j)] == members[j];
    }
  }

  lemma SwapSame(members: seq<Member>, i: nat, k: nat)
    requires i < k < |members| && WellFormed(Object(members))
    ensures WellFormed(Object(Swapped(members, i, k))) && Same(Object(members), Object(Swapped(members, i, k)))
  {
    var swapped := Swapped(members, i, k);
    SwappedWellFormed(members, i, k);
    SwappedKeys(members, i, k);
    forall j, m | 0 <= j < |members| && 0 <= m < |swapped| && members[j].key == swapped[m].key
      ensures Same(members[j].value, swapped[m].value)
    {
      SwappedAt(members, i, k, m);
      SameKeyOnce(members, j, Other(i, k, m));
      SameSelf(members[j].value);
    }
  }

  /** A value with tied keys somewhere inside has a reordering with another normal form. */
  lemma {:induction false} TiesTell(a: Json, leq: Collation) returns (b: Json)
    requires IsPreorder(leq) && WellFormed(a) && !TieFree(a, leq)
    ensures WellFormed(b) && Same(a, b) && Normal(a, leq) != Normal(b, leq)
    decreases a
  {
    if a.Array? {
      var i: nat :| i < |a.items| && !TieFree(a.items[i], leq);
      var item := TiesTell(a.items[i], leq);
      ItemReordered(a.items, i, item, leq);
      b := Array(a.items[i := item]);
    } else if i: nat :| i < |a.members| && !TieFree(a.members[i].value, leq) {
      var value := TiesTell(a.members[i].value, leq);
      ValueReordered(a.members, i, value, leq);
      b := Object(a.members[i := Member(a.members[i].key, value)]);
    } else {
      var i: nat, k: nat :| i < |a.members| && k < |a.members| && Tied(leq, a.members[i].key, a.members[k].key);
      var first, second := if i < k then i else k, if i < k then k else i;
      MembersSwapped(a.members, first, second, leq);
      b := Object(Swapped(a.members, first, second));
    }
  }

  ghost predicate OrderIgnored(a: Json, leq: Collation) {
    forall b :: WellFormed(b) && Same(a, b) ==> Canonicalize(a, leq) == Canonicalize(b, leq)
  }

  /** All reorderings of a value encode alike exactly when no object inside it holds two tied keys. */
  lemma OrderIgnoredIffTieFree(a: Json, leq: Collation)
    requires IsPreorder(leq) && WellFormed(a)
    ensures OrderIgnored(a, leq) <==> TieFree(a, leq)
  {
    if TieFree(a, leq) {
      forall b | WellFormed(b) && Same(a, b) ensures Canonicalize(a, leq) == Canonicalize(b, leq) {
        EncodingIff(a, b, leq);
      }
    } else {
      var b := TiesTell(a, leq);
      if Canonicalize(a, leq) == Canonicalize(b, leq) {
        CanonicalizePrintsNormal(a, leq);
        CanonicalizePrintsNormal(b, leq);
        NormalWellFormed(a, leq);
        NormalWellFormed(b, leq);
        PrintInjective(Normal(a, leq), Normal(b, leq));
      }
    }
  }
}
