/** The order in which unprocessed fills are fetched, and what the ambiguity check is worth:
    it passes exactly when that order is the only one. */
module FillOrder {
  import opened TradeTypes

  predicate LexLe(a: string, b: string) {
    a == [] || (b != [] && (a[0] < b[0] || (a[0] == b[0] && LexLe(a[1..], b[1..]))))
  }

  lemma {:induction false} LexLeTotal(a: string, b: string)
    ensures LexLe(a, b) || LexLe(b, a)
    ensures LexLe(a, b) && LexLe(b, a) ==> a == b
  {
    if a != [] && b != [] && a[0] == b[0] {
      LexLeTotal(a[1..], b[1..]);
      assert a == [a[0]] + a[1..] && b == [b[0]] + b[1..];
    }
  }

  lemma {:induction false} LexLeTransitive(a: string, b: string, c: string)
    requires LexLe(a, b) && LexLe(b, c)
    ensures LexLe(a, c)
  {
    if a != [] && b != [] && c != [] && a[0] == b[0] == c[0] {
      LexLeTransitive(a[1..], b[1..], c[1..]);
    }
  }

  /** The texts agree up to k, and there a has ended or has the smaller character. */
  predicate PartAt(a: string, b: string, k: nat) {
    && k <= |a| && k < |b| && a[..k] == b[..k]
    && (k < |a| ==> a[k] < b[k])
  }

  ghost predicate TextBefore(a: string, b: string) {
    exists k: nat :: PartAt(a, b, k)
  }

  lemma {:induction false} LexLeIsTextOrder(a: string, b: string)
    ensures LexLe(a, b) <==> a == b || TextBefore(a, b)
  {
    if a == [] {
      assert b != [] ==> PartAt(a, b, 0);
    } else if b != [] {
      assert a == [a[0]] + a[1..] && b == [b[0]] + b[1..];
      LexLeIsTextOrder(a[1..], b[1..]);
      if a[0] < b[0] {
        assert PartAt(a, b, 0);
      } else if a[0] == b[0] {
        TextBeforeTail(a, b);
      }
      assert forall k: nat :: 0 < k && PartAt(a, b, k) ==> a[..k][0] == b[..k][0];
    }
  }

  lemma TextBeforeTail(a: string, b: string)
    requires a != [] && b != [] && a[0] == b[0]
    ensures TextBefore(a, b) <==> TextBefore(a[1..], b[1..])
  {
    if k: nat :| PartAt(a, b, k) {
      assert a[..k][1..] == a[1..][..k - 1] && b[..k][1..] == b[1..][..k - 1];
      assert PartAt(a[1..], b[1..], k - 1);
    }
    if k: nat :| PartAt(a[1..], b[1..], k) {
      assert a[..k + 1] == [a[0]] + a[1..][..k] && b[..k + 1] == [b[0]] + b[1..][..k];
      assert PartAt(a, b, k + 1);
    }
  }

  /** fill_id ASC NULLS LAST */
  predicate BrokerIdLe(a: Option<string>, b: Option<string>) {
    b.None? || (a.Some? && LexLe(a.value, b.value))
  }

  /** ORDER BY fill_timestamp, fill_id NULLS LAST, created_at */
  predicate FetchLe(a: Fill, b: Fill) {
    a.timestamp < b.timestamp ||
    (a.timestamp == b.timestamp && BrokerIdLe(a.brokerId, b.brokerId) &&
     (a.brokerId == b.brokerId ==> a.createdAt <= b.createdAt))
  }

  /** What the order means: never back in time; at one time a fill without broker id comes after those with
      one, broker ids rise in text order, and rows of equal broker id come in the order they were created. */
  ghost predicate InOrder(a: Fill, b: Fill) {
    && a.timestamp <= b.timestamp
    && (a.timestamp == b.timestamp ==>
          && (a.brokerId.None? ==> b.brokerId.None?)
          && (a.brokerId.Some? && b.brokerId.Some? && a.brokerId != b.brokerId ==>
                TextBefore(a.brokerId.value, b.brokerId.value))
          && (a.brokerId == b.brokerId ==> a.createdAt <= b.createdAt))
  }

  lemma FetchLeIsInOrder(a: Fill, b: Fill)
    ensures FetchLe(a, b) <==> InOrder(a, b)
  {
    if a.brokerId.Some? && b.brokerId.Some? {
      LexLeIsTextOrder(a.brokerId.value, b.brokerId.value);
      LexLeTotal(a.brokerId.value, b.brokerId.value);
    }
  }

  /** ORDER BY fill_timestamp */
  predicate TimeLe(a: Fill, b: Fill) {
    a.timestamp <= b.timestamp
  }

  lemma BrokerIdLeTotal(a: Option<string>, b: Option<string>)
    ensures BrokerIdLe(a, b) || BrokerIdLe(b, a)
    ensures BrokerIdLe(a, b) && BrokerIdLe(b, a) ==> a == b
  {
    if a.Some? && b.Some? {
      LexLeTotal(a.value, b.value);
    }
  }

  lemma BrokerIdLeTransitive(a: Option<string>, b: Option<string>, c: Option<string>)
    requires BrokerIdLe(a, b) && BrokerIdLe(b, c)
    ensures BrokerIdLe(a, c)
  {
    if c.Some? {
      LexLeTransitive(a.value, b.value, c.value);
    }
  }

  lemma FetchLeTotal(a: Fill, b: Fill)
    ensures FetchLe(a, b) || FetchLe(b, a)
    ensures FetchLe(a, b) && FetchLe(b, a) ==>
              a.timestamp == b.timestamp && a.brokerId == b.brokerId && a.createdAt == b.createdAt
  {
    BrokerIdLeTotal(a.brokerId, b.brokerId);
  }

  lemma FetchLeTransitive(a: Fill, b: Fill, c: Fill)
    requires FetchLe(a, b) && FetchLe(b, c)
    ensures FetchLe(a, c)
  {
    if a.timestamp == b.timestamp == c.timestamp {
      BrokerIdLeTransitive(a.brokerId, b.brokerId, c.brokerId);
      BrokerIdLeTotal(a.brokerId, b.brokerId);
    }
  }

  ghost predicate TotalPreorder(le: (Fill, Fill) -> bool) {
    && (forall a, b :: le(a, b) || le(b, a))
    && (forall a, b, c :: le(a, b) && le(b, c) ==> le(a, c))
  }

  ghost predicate SortedBy(s: seq<Fill>, le: (Fill, Fill) -> bool) {
    forall i, j :: 0 <= i < j < |s| ==> le(s[i], s[j])
  }

  ghost predicate Distinct<T>(s: seq<T>) {
    forall i, j :: 0 <= i < j < |s| ==> s[i] != s[j]
  }

  lemma FetchLeIsOrder()
    ensures TotalPreorder(FetchLe)
  {
    forall a, b ensures FetchLe(a, b) || FetchLe(b, a) {
      FetchLeTotal(a, b);
    }
    forall a, b, c | FetchLe(a, b) && FetchLe(b, c) ensures FetchLe(a, c) {
      FetchLeTransitive(a, b, c);
    }
  }

  ghost predicate Least(m: Fill, pool: set<Fill>, le: (Fill, Fill) -> bool) {
    m in pool && forall x :: x in pool ==> le(m, x)
  }

  lemma LeastOfTwo(m: Fill, x: Fill, pool: set<Fill>, le: (Fill, Fill) -> bool) returns (least: Fill)
    requires TotalPreorder(le) && x in pool && Least(m, pool - {x}, le)
    ensures Least(least, pool, le)
  {
    least := if le(x, m) then x else m;
    assert le(m, m) && le(x, x);
    forall y | y in pool ensures le(least, y) {
      if y != x {
        assert y in pool - {x};
        assert le(m, y);
      }
    }
  }

  lemma {:induction false} LeastExists(pool: set<Fill>, le: (Fill, Fill) -> bool) returns (m: Fill)
    requires pool != {} && TotalPreorder(le)
    ensures Least(m, pool, le)
    decreases pool
  {
    var x :| x in pool;
    if pool == {x} {
      m := x;
      assert le(x, x);
    } else {
      m := LeastExists(pool - {x}, le);
      m := LeastOfTwo(m, x, pool, le);
    }
  }

  /** A query result: every row of the pool once, in order.  Which of two tied rows comes first
      is the database's choice. */
  method OrderBy(pool: set<Fill>, le: (Fill, Fill) -> bool) returns (s: seq<Fill>)
    requires TotalPreorder(le)
    ensures Distinct(s) && SortedBy(s, le)
    ensures |s| == |pool| && forall f :: f in s <==> f in pool
  {
    s := [];
    var rest := pool;
    while rest != {}
      invariant Distinct(s) && SortedBy(s, le)
      invariant |s| + |rest| == |pool|
      invariant forall f :: f in pool <==> f in s || f in rest
      invariant forall f :: f in s ==> f !in rest
      invariant forall f, g :: f in s && g in rest ==> le(f, g)
      decreases rest
    {
      ghost var least := LeastExists(rest, le);
      assert Least(least, rest, le);
      var m :| m in rest && forall x :: x in rest ==> le(m, x);
      s := s + [m];
      rest := rest - {m};
    }
  }

  // ---------- ambiguous ordering ----------

  /** The pair the engine refuses to order (E5). */
  predicate AmbiguousPair(a: Fill, b: Fill) {
    a.timestamp == b.timestamp && a.brokerId.None? && b.brokerId.None? && a.createdAt == b.createdAt
  }

  ghost predicate AdjacentPairsClear(s: seq<Fill>) {
    forall i :: 0 <= i < |s| - 1 ==> !AmbiguousPair(s[i], s[i + 1])
  }

  /** The broker's ids are unique in the account (partial unique index). */
  ghost predicate BrokerIdsUnique(s: seq<Fill>) {
    forall i, j :: 0 <= i < j < |s| && s[i].brokerId.Some? ==> s[i].brokerId != s[j].brokerId
  }

  /** On a fetched list, comparing neighbours finds every ambiguous pair. */
  lemma AdjacentCheckIsComplete(s: seq<Fill>, i: nat, j: nat)
    requires SortedBy(s, FetchLe) && AdjacentPairsClear(s) && i < j < |s|
    ensures !AmbiguousPair(s[i], s[j])
  {
    if i + 1 < j {
      assert FetchLe(s[i], s[i + 1]) && FetchLe(s[i + 1], s[j]);
      assert !AmbiguousPair(s[i], s[i + 1]);
    }
  }

  lemma StrictlySorted(s: seq<Fill>, i: nat, j: nat)
    requires SortedBy(s, FetchLe) && AdjacentPairsClear(s) && BrokerIdsUnique(s) && i < j < |s|
    ensures FetchLe(s[i], s[j]) && !FetchLe(s[j], s[i])
  {
    AdjacentCheckIsComplete(s, i, j);
    FetchLeTotal(s[i], s[j]);
  }

  ghost predicate SameElements(s: seq<Fill>, t: seq<Fill>) {
    |s| == |t| && forall f :: f in s <==> f in t
  }

  ghost predicate StrictOrder(s: seq<Fill>) {
    forall i, j :: 0 <= i < j < |s| ==> FetchLe(s[i], s[j]) && !FetchLe(s[j], s[i])
  }

  lemma TailElements(s: seq<Fill>)
    requires |s| > 0 && forall i :: 0 < i < |s| ==> s[i] != s[0]
    ensures s == [s[0]] + s[1..]
    ensures forall f :: f in s[1..] <==> f in s && f != s[0]
  {
    assert s == [s[0]] + s[1..];
  }

  lemma {:induction false} StrictOrderUnique(s: seq<Fill>, t: seq<Fill>)
    requires StrictOrder(s) && SortedBy(t, FetchLe) && Distinct(t) && SameElements(s, t)
    ensures s == t
  {
    if s != [] {
      assert s[0] in t && |t| > 0 && t[0] in s;
      assert s[0] == t[0];
      forall i | 0 < i < |s| ensures s[i] != s[0] {
        assert FetchLe(s[0], s[i]) && !FetchLe(s[i], s[0]);
      }
      TailElements(s);
      TailElements(t);
      StrictOrderUnique(s[1..], t[1..]);
    }
  }

  /** The check passes exactly when the fetched fills can be listed in only one sorted order, so a
      run that is not refused depends on the set of fills alone. */
  lemma AmbiguityCheckIsExact(s: seq<Fill>)
    requires Distinct(s) && SortedBy(s, FetchLe) && BrokerIdsUnique(s)
    ensures AdjacentPairsClear(s) <==>
              forall t :: Distinct(t) && SortedBy(t, FetchLe) && SameElements(s, t) ==> t == s
  {
    if AdjacentPairsClear(s) {
      forall i, j | 0 <= i < j < |s| ensures FetchLe(s[i], s[j]) && !FetchLe(s[j], s[i]) {
        StrictlySorted(s, i, j);
      }
      forall t | Distinct(t) && SortedBy(t, FetchLe) && SameElements(s, t) ensures t == s {
        StrictOrderUnique(s, t);
      }
    } else {
      var i :| 0 <= i < |s| - 1 && AmbiguousPair(s[i], s[i + 1]);
      var t := SwapTied(s, i);
    }
  }

  lemma SwapTied(s: seq<Fill>, i: nat) returns (t: seq<Fill>)
    requires i + 1 < |s| && AmbiguousPair(s[i], s[i + 1])
    requires Distinct(s) && SortedBy(s, FetchLe)
    ensures t != s && Distinct(t) && SortedBy(t, FetchLe) && SameElements(s, t)
  {
    t := s[i := s[i + 1]][i + 1 := s[i]];
    assert t[i] == s[i + 1] && t[i + 1] == s[i];
    assert forall k :: 0 <= k < |s| && k != i && k != i + 1 ==> t[k] == s[k];
    forall f ensures f in s <==> f in t {
      if f in s {
        var k :| 0 <= k < |s| && s[k] == f;
        assert f == t[if k == i then i + 1 else if k == i + 1 then i else k];
      }
    }
    forall a, b | 0 <= a < b < |t| ensures FetchLe(t[a], t[b]) {
      assert FetchLe(s[i + 1], s[i]);
      assert b > i + 1 ==> FetchLe(s[i], s[b]) && FetchLe(s[i + 1], s[b]);
      assert a < i ==> FetchLe(s[a], s[i]) && FetchLe(s[a], s[i + 1]);
    }
  }
}
