/**
  Reordering the rule table: copying the order the rows show after a drag
  (`_sync_rules_from_tree_order`) and the Name column's toggling sort
  (`_on_name_heading_click`). Case folding is a caller-supplied key function.
 */
module RuleOrder {
  import opened RuleTable

  // ---------------------------------------------------------------------------
  // Helpers on sequences of rules
  // ---------------------------------------------------------------------------

  /** The user ids of the rules, in table order. */
  function Ids(rules: seq<Rule>): (ids: seq<string>)
    ensures |ids| == |rules|
    ensures forall i :: 0 <= i < |rules| ==> ids[i] == rules[i].userId
  {
    seq(|rules|, i requires 0 <= i < |rules| => rules[i].userId)
  }

  /** Every key of the map names a rule carrying that key. */
  predicate KeyedById(m: map<string, Rule>) {
    forall id :: id in m ==> m[id].userId == id
  }

  /** A sequence without repeated elements. */
  predicate NoDup<T(==)>(s: seq<T>) {
    forall i, j :: 0 <= i < j < |s| ==> s[i] != s[j]
  }

  /** With distinct user ids every rule occurs once, so its multiset is its set. */
  lemma {:induction false} DistinctCounts(s: seq<Rule>)
    requires Distinct(s)
    ensures forall x :: multiset(s)[x] == if x in s then 1 else 0
    decreases |s|
  {
    if |s| > 0 {
      assert s == [s[0]] + s[1..];
      assert Distinct(s[1..]);
      DistinctCounts(s[1..]);
      assert s[0] !in s[1..] by {
        forall j | 0 <= j < |s[1..]|
          ensures s[1..][j] != s[0]
        {
          assert s[1..][j] == s[j + 1];
        }
      }
    }
  }

  /** Two id-distinct sequences with the same members are permutations of each other. */
  lemma SameMembersSameMultiset(a: seq<Rule>, b: seq<Rule>)
    requires Distinct(a) && Distinct(b)
    requires forall x :: x in a <==> x in b
    ensures multiset(a) == multiset(b)
  {
    DistinctCounts(a);
    DistinctCounts(b);
    assert forall x :: multiset(a)[x] == multiset(b)[x];
  }

  // ---------------------------------------------------------------------------
  // Display order
  // ---------------------------------------------------------------------------

  /** `{str(r.user_id): r for r in self.rules}`: a later rule overwrites an earlier one with the same id. */
  function ById(rules: seq<Rule>): (m: map<string, Rule>)
    ensures KeyedById(m)
    ensures forall id :: id in m ==> m[id] in rules
    ensures forall i :: 0 <= i < |rules| ==> rules[i].userId in m
  {
    if |rules| == 0 then map[]
    else
      var init := rules[..|rules| - 1];
      var last := rules[|rules| - 1];
      var m := ById(init)[last.userId := last];
      assert forall i :: 0 <= i < |init| ==> init[i] == rules[i];
      assert forall x :: x in init ==> x in rules;
      m
  }

  /** With distinct ids, the map sends each rule's id to that very rule. */
  lemma ByIdDistinct(rules: seq<Rule>)
    requires Distinct(rules)
    ensures forall i :: 0 <= i < |rules| ==> ById(rules)[rules[i].userId] == rules[i]
  {
    var m := ById(rules);
    forall i | 0 <= i < |rules|
      ensures m[rules[i].userId] == rules[i]
    {
      var x := m[rules[i].userId];
      var j :| 0 <= j < |rules| && rules[j] == x;
    }
  }

  /** The first loop: the map's rules for the ids of the display order, in that order. */
  function Listed(order: seq<string>, m: map<string, Rule>): seq<Rule> {
    if |order| == 0 then []
    else (if order[0] in m then [m[order[0]]] else []) + Listed(order[1..], m)
  }

  /** The second loop: the rules whose id the display order lacks, in table order. */
  function Unlisted(rules: seq<Rule>, order: seq<string>): (r: seq<Rule>)
    ensures forall x :: x in r <==> x in rules && x.userId !in order
  {
    if |rules| == 0 then []
    else
      assert forall x :: x in rules <==> x == rules[0] || x in rules[1..];
      (if rules[0].userId in order then [] else [rules[0]]) + Unlisted(rules[1..], order)
  }

  /**
    `_sync_rules_from_tree_order`: the rules named by the display order come
    first, in display order, and the rules it does not name follow in their
    table order.
   */
  function SyncFromOrder(rules: seq<Rule>, order: seq<string>): (r: seq<Rule>)
    ensures |KnownIds(order, rules)| <= |r|
    ensures Ids(r)[..|KnownIds(order, rules)|] == KnownIds(order, rules)
    ensures r[|KnownIds(order, rules)|..] == Unlisted(rules, order)
  {
    var m := ById(rules);
    ListedIds(order, rules, m);
    var r := Listed(order, m) + Unlisted(rules, order);
    assert r[..|Listed(order, m)|] == Listed(order, m);
    assert Ids(r)[..|Listed(order, m)|] == Ids(Listed(order, m));
    r
  }

  /** The ids of the display order that name a rule of the table, in display order. */
  function KnownIds(order: seq<string>, rules: seq<Rule>): seq<string> {
    if |order| == 0 then []
    else (if HasId(rules, order[0]) then [order[0]] else []) + KnownIds(order[1..], rules)
  }

  lemma {:induction false} ListedIds(order: seq<string>, rules: seq<Rule>, m: map<string, Rule>)
    requires m == ById(rules)
    ensures Ids(Listed(order, m)) == KnownIds(order, rules)
    decreases |order|
  {
    if |order| > 0 {
      ListedIds(order[1..], rules, m);
      var head := if order[0] in m then [m[order[0]]] else [];
      assert order[0] in m <==> HasId(rules, order[0]) by {
        if HasId(rules, order[0]) {
          var i :| 0 <= i < |rules| && rules[i].userId == order[0];
        }
        if order[0] in m {
          var j :| 0 <= j < |rules| && rules[j] == m[order[0]];
        }
      }
      assert Ids(head + Listed(order[1..], m)) == Ids(head) + Ids(Listed(order[1..], m));
    }
  }

  lemma {:induction false} ListedMembers(order: seq<string>, m: map<string, Rule>)
    requires KeyedById(m)
    ensures forall x :: x in Listed(order, m) ==> x.userId in order && x.userId in m && m[x.userId] == x
    ensures forall id :: id in order && id in m ==> m[id] in Listed(order, m)
    decreases |order|
  {
    if |order| > 0 {
      ListedMembers(order[1..], m);
      assert forall id :: id in order ==> id == order[0] || id in order[1..];
    }
  }

  lemma {:induction false} ListedDistinct(order: seq<string>, m: map<string, Rule>)
    requires KeyedById(m) && NoDup(order)
    ensures Distinct(Listed(order, m))
    decreases |order|
  {
    if |order| > 0 {
      var tail := Listed(order[1..], m);
      assert NoDup(order[1..]);
      ListedDistinct(order[1..], m);
      if order[0] in m {
        ListedMembers(order[1..], m);
        assert order[0] !in order[1..] by {
          forall j | 0 <= j < |order[1..]|
            ensures order[1..][j] != order[0]
          {
            assert order[1..][j] == order[j + 1];
          }
        }
        forall i | 0 <= i < |tail|
          ensures tail[i].userId != order[0]
        {
          assert tail[i] in tail;
        }
        DistinctCons(m[order[0]], tail);
      }
    }
  }

  lemma {:induction false} UnlistedDistinct(rules: seq<Rule>, order: seq<string>)
    requires Distinct(rules)
    ensures Distinct(Unlisted(rules, order))
    decreases |rules|
  {
    if |rules| > 0 {
      var tail := Unlisted(rules[1..], order);
      assert Distinct(rules[1..]);
      UnlistedDistinct(rules[1..], order);
      if rules[0].userId !in order {
        forall i | 0 <= i < |tail|
          ensures tail[i].userId != rules[0].userId
        {
          assert tail[i] in rules[1..];
          var j :| 0 <= j < |rules[1..]| && rules[1..][j] == tail[i];
          assert rules[j + 1] == tail[i];
        }
        DistinctCons(rules[0], tail);
      }
    }
  }

  lemma SyncDistinct(rules: seq<Rule>, order: seq<string>)
    requires Distinct(rules) && NoDup(order)
    ensures Distinct(SyncFromOrder(rules, order))
  {
    var m := ById(rules);
    var listed := Listed(order, m);
    var rest := Unlisted(rules, order);
    ListedDistinct(order, m);
    UnlistedDistinct(rules, order);
    ListedMembers(order, m);
    forall i, j | 0 <= i < |listed| && 0 <= j < |rest|
      ensures listed[i].userId != rest[j].userId
    {
      assert listed[i] in listed;
      assert rest[j] in rest;
    }
    DistinctAppend(listed, rest);
  }

  lemma DistinctAppend(a: seq<Rule>, b: seq<Rule>)
    requires Distinct(a) && Distinct(b)
    requires forall i, j :: 0 <= i < |a| && 0 <= j < |b| ==> a[i].userId != b[j].userId
    ensures Distinct(a + b)
  {
    var r := a + b;
    forall i, j | 0 <= i < |r| && 0 <= j < |r| && i != j
      ensures r[i].userId != r[j].userId
    {
      if i < |a| && j < |a| {
        assert r[i] == a[i] && r[j] == a[j];
      } else if i >= |a| && j >= |a| {
        assert r[i] == b[i - |a|] && r[j] == b[j - |a|];
      } else if i < |a| {
        assert r[i] == a[i] && r[j] == b[j - |a|];
      } else {
        assert r[j] == a[j] && r[i] == b[i - |a|];
      }
    }
  }

  lemma SyncMembers(rules: seq<Rule>, order: seq<string>)
    requires Distinct(rules)
    ensures forall x :: x in SyncFromOrder(rules, order) <==> x in rules
  {
    var m := ById(rules);
    var listed := Listed(order, m);
    ListedMembers(order, m);
    ByIdDistinct(rules);
    forall x | x in rules
      ensures x in listed || x in Unlisted(rules, order)
    {
      var i :| 0 <= i < |rules| && rules[i] == x;
      if x.userId in order {
        assert m[x.userId] == x;
      }
    }
  }

  /** With distinct ids and a repetition-free display order, a sync only permutes the table. */
  lemma SyncIsPermutation(rules: seq<Rule>, order: seq<string>)
    requires Distinct(rules) && NoDup(order)
    ensures multiset(SyncFromOrder(rules, order)) == multiset(rules)
  {
    SyncDistinct(rules, order);
    SyncMembers(rules, order);
    SameMembersSameMultiset(SyncFromOrder(rules, order), rules);
  }

  lemma {:induction false} ListedOwnIds(rules: seq<Rule>, m: map<string, Rule>)
    requires forall i :: 0 <= i < |rules| ==> rules[i].userId in m && m[rules[i].userId] == rules[i]
    ensures Listed(Ids(rules), m) == rules
    decreases |rules|
  {
    if |rules| > 0 {
      assert Ids(rules)[1..] == Ids(rules[1..]);
      ListedOwnIds(rules[1..], m);
      assert [rules[0]] + rules[1..] == rules;
    }
  }

  lemma {:induction false} UnlistedNone(rules: seq<Rule>, order: seq<string>)
    requires forall i :: 0 <= i < |rules| ==> rules[i].userId in order
    ensures Unlisted(rules, order) == []
    decreases |rules|
  {
    if |rules| > 0 {
      UnlistedNone(rules[1..], order);
    }
  }

  /** Syncing with the order the table already has changes nothing. */
  lemma SyncCurrentOrder(rules: seq<Rule>)
    requires Distinct(rules)
    ensures SyncFromOrder(rules, Ids(rules)) == rules
  {
    ByIdDistinct(rules);
    ListedOwnIds(rules, ById(rules));
    UnlistedNone(rules, Ids(rules));
  }

  lemma {:induction false} ListedFollowsOrder(order: seq<string>, m: map<string, Rule>)
    requires KeyedById(m)
    requires forall j :: 0 <= j < |order| ==> order[j] in m
    ensures Ids(Listed(order, m)) == order
    decreases |order|
  {
    if |order| > 0 {
      ListedFollowsOrder(order[1..], m);
      var tail := Listed(order[1..], m);
      assert Ids([m[order[0]]] + tail) == [order[0]] + Ids(tail);
    }
  }

  /**
    When the rows show exactly the table's rules (every rule's id appears and
    every row names a rule), the table takes on the order of the rows.
   */
  lemma SyncFollowsDisplay(rules: seq<Rule>, order: seq<string>)
    requires forall i :: 0 <= i < |rules| ==> rules[i].userId in order
    requires forall j :: 0 <= j < |order| ==> HasId(rules, order[j])
    ensures Ids(SyncFromOrder(rules, order)) == order
  {
    var m := ById(rules);
    forall j | 0 <= j < |order|
      ensures order[j] in m
    {
      var i :| 0 <= i < |rules| && rules[i].userId == order[j];
    }
    ListedFollowsOrder(order, m);
    UnlistedNone(rules, order);
    assert SyncFromOrder(rules, order) == Listed(order, m);
  }

  // ---------------------------------------------------------------------------
  // Name sort
  // ---------------------------------------------------------------------------

  /** Python's `<` on strings: lexicographic by code point, a proper prefix first. */
  predicate Less(a: string, b: string)
    decreases |a|
  {
    |b| > 0 && (|a| == 0 || a[0] < b[0] || (a[0] == b[0] && Less(a[1..], b[1..])))
  }

  lemma {:induction false} LessIrreflexive(a: string)
    ensures !Less(a, a)
    decreases |a|
  {
    if |a| > 0 {
      LessIrreflexive(a[1..]);
    }
  }

  lemma {:induction false} LessTransitive(a: string, b: string, c: string)
    requires Less(a, b) && Less(b, c)
    ensures Less(a, c)
    decreases |a|
  {
    if |a| > 0 && a[0] == b[0] && b[0] == c[0] {
      LessTransitive(a[1..], b[1..], c[1..]);
    }
  }

  /** The sort key `(r.name or "").casefold()`, with case folding supplied by the caller. */
  function Key(r: Rule, fold: string -> string): string {
    fold(r.name)
  }

  /** No rule sorts strictly before a rule ahead of it. */
  predicate Ascending(s: seq<Rule>, fold: string -> string) {
    forall i, j :: 0 <= i < j < |s| ==> !Less(Key(s[j], fold), Key(s[i], fold))
  }

  /** No rule sorts strictly after a rule ahead of it. */
  predicate Descending(s: seq<Rule>, fold: string -> string) {
    forall i, j :: 0 <= i < j < |s| ==> !Less(Key(s[i], fold), Key(s[j], fold))
  }

  /** The rules whose sort key is `k`, in their order: what a stable sort must keep. */
  function KeyRun(s: seq<Rule>, k: string, fold: string -> string): seq<Rule> {
    if |s| == 0 then []
    else (if Key(s[0], fold) == k then [s[0]] else []) + KeyRun(s[1..], k, fold)
  }

  lemma {:induction false} KeyRunAppend(s: seq<Rule>, x: Rule, k: string, fold: string -> string)
    ensures KeyRun(s + [x], k, fold) == KeyRun(s, k, fold) + (if Key(x, fold) == k then [x] else [])
    decreases |s|
  {
    if |s| > 0 {
      assert (s + [x])[1..] == s[1..] + [x];
      KeyRunAppend(s[1..], x, k, fold);
    } else {
      assert s + [x] == [x];
    }
  }

  /** Inserts `x` after every rule whose key is not greater than its own. */
  function Insert(x: Rule, s: seq<Rule>, fold: string -> string): seq<Rule> {
    if |s| == 0 then [x]
    else if Less(Key(x, fold), Key(s[0], fold)) then [x] + s
    else [s[0]] + Insert(x, s[1..], fold)
  }

  lemma {:induction false} InsertPermutes(x: Rule, s: seq<Rule>, fold: string -> string)
    ensures multiset(Insert(x, s, fold)) == multiset(s) + multiset{x}
    decreases |s|
  {
    if |s| > 0 && !Less(Key(x, fold), Key(s[0], fold)) {
      InsertPermutes(x, s[1..], fold);
      assert s == [s[0]] + s[1..];
    }
  }

  /** No rule of `s` sorts strictly before the key `p`. */
  predicate AllAtLeast(s: seq<Rule>, p: string, fold: string -> string) {
    forall j :: 0 <= j < |s| ==> !Less(Key(s[j], fold), p)
  }

  lemma AscendingCons(a: Rule, t: seq<Rule>, fold: string -> string)
    requires Ascending(t, fold) && AllAtLeast(t, Key(a, fold), fold)
    ensures Ascending([a] + t, fold)
  {
    var r := [a] + t;
    forall i, j | 0 <= i < j < |r|
      ensures !Less(Key(r[j], fold), Key(r[i], fold))
    {
      assert r[j] == t[j - 1];
      if i > 0 {
        assert r[i] == t[i - 1];
      }
    }
  }

  lemma {:induction false} InsertAtLeast(x: Rule, s: seq<Rule>, p: string, fold: string -> string)
    requires AllAtLeast(s, p, fold) && !Less(Key(x, fold), p)
    ensures AllAtLeast(Insert(x, s, fold), p, fold)
    decreases |s|
  {
    if |s| > 0 && !Less(Key(x, fold), Key(s[0], fold)) {
      InsertAtLeast(x, s[1..], p, fold);
      var t := Insert(x, s[1..], fold);
      assert forall j :: 0 < j < |t| + 1 ==> ([s[0]] + t)[j] == t[j - 1];
    }
  }

  lemma {:induction false} InsertAscending(x: Rule, s: seq<Rule>, fold: string -> string)
    requires Ascending(s, fold)
    ensures Ascending(Insert(x, s, fold), fold)
    decreases |s|
  {
    if |s| == 0 {
    } else if Less(Key(x, fold), Key(s[0], fold)) {
      forall j | 0 <= j < |s|
        ensures !Less(Key(s[j], fold), Key(x, fold))
      {
        if Less(Key(s[j], fold), Key(x, fold)) {
          LessTransitive(Key(s[j], fold), Key(x, fold), Key(s[0], fold));
          LessIrreflexive(Key(s[0], fold));
        }
      }
      AscendingCons(x, s, fold);
    } else {
      assert Ascending(s[1..], fold);
      assert AllAtLeast(s[1..], Key(s[0], fold), fold);
      InsertAscending(x, s[1..], fold);
      InsertAtLeast(x, s[1..], Key(s[0], fold), fold);
      AscendingCons(s[0], Insert(x, s[1..], fold), fold);
    }
  }

  /** A sequence where no rule has key `k` contributes nothing to the run of `k`. */
  lemma {:induction false} KeyRunAbsent(s: seq<Rule>, k: string, fold: string -> string)
    requires forall j :: 0 <= j < |s| ==> Key(s[j], fold) != k
    ensures KeyRun(s, k, fold) == []
    decreases |s|
  {
    if |s| > 0 {
      KeyRunAbsent(s[1..], k, fold);
    }
  }

  /** The tail of an ascending sequence is ascending. */
  lemma AscendingTail(s: seq<Rule>, fold: string -> string)
    requires |s| > 0 && Ascending(s, fold)
    ensures Ascending(s[1..], fold)
  {
    forall i, j | 0 <= i < j < |s| - 1
      ensures !Less(Key(s[1..][j], fold), Key(s[1..][i], fold))
    {
      assert s[1..][j] == s[j + 1] && s[1..][i] == s[i + 1];
    }
  }

  /** The run of `k` in `[a] + t` is `a`'s share followed by the run in `t`. */
  lemma KeyRunCons(a: Rule, t: seq<Rule>, k: string, fold: string -> string)
    ensures KeyRun([a] + t, k, fold) == (if Key(a, fold) == k then [a] else []) + KeyRun(t, k, fold)
  {
    assert ([a] + t)[0] == a;
    assert ([a] + t)[1..] == t;
  }

  /** Below the first key of an ascending sequence no key of it occurs. */
  lemma BelowFirstAbsent(s: seq<Rule>, k: string, fold: string -> string)
    requires |s| > 0 && Ascending(s, fold) && Less(k, Key(s[0], fold))
    ensures forall j :: 0 <= j < |s| ==> Key(s[j], fold) != k
  {
    LessIrreflexive(k);
    forall j | 0 < j < |s|
      ensures Key(s[j], fold) != k
    {
      assert !Less(Key(s[j], fold), Key(s[0], fold));
    }
  }

  lemma {:induction false} InsertStable(x: Rule, s: seq<Rule>, k: string, fold: string -> string)
    requires Ascending(s, fold)
    ensures KeyRun(Insert(x, s, fold), k, fold) == KeyRun(s, k, fold) + (if Key(x, fold) == k then [x] else [])
    decreases |s|
  {
    var own := if Key(x, fold) == k then [x] else [];
    if |s| == 0 {
      assert KeyRun([x], k, fold) == own + KeyRun([], k, fold) by {
        KeyRunCons(x, [], k, fold);
        assert [x] + [] == [x];
      }
    } else if Less(Key(x, fold), Key(s[0], fold)) {
      KeyRunCons(x, s, k, fold);
      if Key(x, fold) == k {
        BelowFirstAbsent(s, k, fold);
        KeyRunAbsent(s, k, fold);
      }
    } else {
      AscendingTail(s, fold);
      InsertStable(x, s[1..], k, fold);
      var t := Insert(x, s[1..], fold);
      var head := if Key(s[0], fold) == k then [s[0]] else [];
      KeyRunCons(s[0], t, k, fold);
      KeyRunCons(s[0], s[1..], k, fold);
      assert [s[0]] + s[1..] == s;
      assert head + (KeyRun(s[1..], k, fold) + own) == (head + KeyRun(s[1..], k, fold)) + own;
    }
  }

  /**
    `self.rules.sort(key=...)`: Python's stable sort on the folded names. The
    result is ascending, a permutation of the input, and rules with equal keys
    keep their relative order.
   */
  function SortByName(rules: seq<Rule>, fold: string -> string): (r: seq<Rule>)
    ensures Ascending(r, fold)
    ensures multiset(r) == multiset(rules)
    ensures forall k :: KeyRun(r, k, fold) == KeyRun(rules, k, fold)
    decreases |rules|
  {
    if |rules| == 0 then []
    else
      var init := rules[..|rules| - 1];
      var last := rules[|rules| - 1];
      assert rules == init + [last];
      var sorted := SortByName(init, fold);
      SortStep(init, last, sorted, fold);
      Insert(last, sorted, fold)
  }

  /** Inserting one more rule into the sorted prefix sorts the prefix extended by it. */
  lemma SortStep(init: seq<Rule>, last: Rule, sorted: seq<Rule>, fold: string -> string)
    requires Ascending(sorted, fold) && multiset(sorted) == multiset(init)
    requires forall k :: KeyRun(sorted, k, fold) == KeyRun(init, k, fold)
    ensures var r := Insert(last, sorted, fold);
            && Ascending(r, fold)
            && multiset(r) == multiset(init + [last])
            && forall k :: KeyRun(r, k, fold) == KeyRun(init + [last], k, fold)
  {
    InsertPermutes(last, sorted, fold);
    InsertAscending(last, sorted, fold);
    forall k
      ensures KeyRun(Insert(last, sorted, fold), k, fold) == KeyRun(init + [last], k, fold)
    {
      KeyRunAppend(init, last, k, fold);
      InsertStable(last, sorted, k, fold);
    }
  }

  /** `list.reverse()`. */
  function Reverse<T>(s: seq<T>): (r: seq<T>)
    ensures |r| == |s|
    ensures forall i :: 0 <= i < |s| ==> r[i] == s[|s| - 1 - i]
  {
    if |s| == 0 then [] else Reverse(s[1..]) + [s[0]]
  }

  lemma {:induction false} ReversePermutes(s: seq<Rule>)
    ensures multiset(Reverse(s)) == multiset(s)
    decreases |s|
  {
    if |s| > 0 {
      ReversePermutes(s[1..]);
      assert s == [s[0]] + s[1..];
    }
  }

  /** Reversing a sequence of the form `[a] + t`. */
  lemma ReverseCons<T>(a: T, t: seq<T>)
    ensures Reverse([a] + t) == Reverse(t) + [a]
  {
    assert ([a] + t)[1..] == t;
  }

  lemma {:induction false} ReverseKeyRun(s: seq<Rule>, k: string, fold: string -> string)
    ensures KeyRun(Reverse(s), k, fold) == Reverse(KeyRun(s, k, fold))
    decreases |s|
  {
    if |s| > 0 {
      ReverseKeyRun(s[1..], k, fold);
      var run := KeyRun(s[1..], k, fold);
      KeyRunCons(s[0], s[1..], k, fold);
      assert [s[0]] + s[1..] == s;
      KeyRunAppend(Reverse(s[1..]), s[0], k, fold);
      if Key(s[0], fold) == k {
        ReverseCons(s[0], run);
      } else {
        assert [] + run == run;
      }
    }
  }

  /** The Name heading's sort indicator: off, or on with a direction. */
  datatype NameSort = NameSort(active: bool, ascending: bool)

  /** The indicator as the table is built: no sort shown, ascending next. */
  const Unsorted := NameSort(false, true)

  /** A drag switches the indicator off, since the order becomes manual. */
  function DragStarted(st: NameSort): (r: NameSort)
    ensures !r.active && r.ascending == st.ascending
  {
    st.(active := false)
  }

  /**
    `_on_name_heading_click`: the first click after the indicator was off sorts
    ascending, every further click flips the direction; the table is sorted
    stably by folded name and reversed for the descending direction.
   */
  function ClickNameHeading(st: NameSort, rules: seq<Rule>, fold: string -> string): (r: (NameSort, seq<Rule>))
    ensures r.0.active
    ensures !st.active ==> r.0.ascending
    ensures st.active ==> r.0.ascending == !st.ascending
    ensures multiset(r.1) == multiset(rules)
    ensures r.0.ascending ==> Ascending(r.1, fold) && forall k :: KeyRun(r.1, k, fold) == KeyRun(rules, k, fold)
    ensures !r.0.ascending ==> Descending(r.1, fold) && forall k :: KeyRun(r.1, k, fold) == Reverse(KeyRun(rules, k, fold))
  {
    var next := if !st.active then NameSort(true, true) else NameSort(true, !st.ascending);
    var sorted := SortByName(rules, fold);
    ReversePermutes(sorted);
    assert forall k :: KeyRun(Reverse(sorted), k, fold) == Reverse(KeyRun(sorted, k, fold)) by {
      forall k
        ensures KeyRun(Reverse(sorted), k, fold) == Reverse(KeyRun(sorted, k, fold))
      {
        ReverseKeyRun(sorted, k, fold);
      }
    }
    (next, if next.ascending then sorted else Reverse(sorted))
  }
}
