/// Per-name bookkeeping shared by the overviews.
///
/// Several views reduce a list of records into a JavaScript object keyed by a
/// name (`acc[name] = (acc[name] || 0) + amount`). A record is seen here as an
/// `Entry` of its key and its amount; this module defines, independently of
/// any particular reduce, the keys in first-occurrence order (the order
/// `Object.entries` lists them in), the amount and the count that belong to a
/// key, and proves that they add up and do not depend on record order.
module Ledger {

  datatype Entry = Entry(key: string, amount: int)

  /** `es.reduce((sum, e) => sum + e.amount, 0)` */
  function Total(es: seq<Entry>): int
  {
    if es == [] then 0 else Total(es[..|es| - 1]) + es[|es| - 1].amount
  }

  /** The entries whose key is `k`, in their original order. */
  function Only(es: seq<Entry>, k: string): (r: seq<Entry>)
    ensures |r| <= |es|
  {
    if es == [] then []
    else Only(es[..|es| - 1], k) + (if es[|es| - 1].key == k then [es[|es| - 1]] else [])
  }

  /** An entry is kept exactly when it occurs and carries the key. */
  lemma {:induction false} OnlyMember(es: seq<Entry>, k: string, x: Entry)
    ensures x in Only(es, k) <==> x in es && x.key == k
    decreases |es|
  {
    if es != [] {
      OnlyMember(es[..|es| - 1], k, x);
      assert es == es[..|es| - 1] + [es[|es| - 1]];
    }
  }

  /** The sum of the amounts recorded under `k`. */
  function AmountFor(es: seq<Entry>, k: string): int
  {
    Total(Only(es, k))
  }

  /** The number of entries recorded under `k`. */
  function CountFor(es: seq<Entry>, k: string): nat
  {
    |Only(es, k)|
  }

  predicate HasKey(es: seq<Entry>, k: string)
  {
    exists i :: 0 <= i < |es| && es[i].key == k
  }

  predicate Distinct(ks: seq<string>)
  {
    forall i, j :: 0 <= i < j < |ks| ==> ks[i] != ks[j]
  }

  /** The distinct keys of `es`, each at the position where it first occurs. */
  function Keys(es: seq<Entry>): (ks: seq<string>)
    ensures Distinct(ks)
    ensures forall k :: k in ks <==> HasKey(es, k)
  {
    if es == [] then []
    else
      var front := es[..|es| - 1];
      var ks := Keys(front);
      assert forall k :: HasKey(es, k) <==> HasKey(front, k) || es[|es| - 1].key == k by {
        forall k | HasKey(es, k) ensures HasKey(front, k) || es[|es| - 1].key == k {
          var i :| 0 <= i < |es| && es[i].key == k;
          if i < |es| - 1 { assert front[i].key == k; }
        }
        forall k | HasKey(front, k) ensures HasKey(es, k) {
          var i :| 0 <= i < |front| && front[i].key == k;
          assert es[i].key == k;
        }
      }
      if es[|es| - 1].key in ks then ks else ks + [es[|es| - 1].key]
  }

  /** The sum, over the keys `ks`, of the amount recorded under each. */
  function SumOver(ks: seq<string>, es: seq<Entry>): int
  {
    if ks == [] then 0 else SumOver(ks[..|ks| - 1], es) + AmountFor(es, ks[|ks| - 1])
  }

  /** The sum, over the keys `ks`, of the number of entries under each. */
  function CountOver(ks: seq<string>, es: seq<Entry>): int
  {
    if ks == [] then 0 else CountOver(ks[..|ks| - 1], es) + CountFor(es, ks[|ks| - 1])
  }

  lemma {:induction false} TotalAppend(a: seq<Entry>, b: seq<Entry>)
    ensures Total(a + b) == Total(a) + Total(b)
    decreases |b|
  {
    if b != [] {
      assert (a + b)[..|a + b| - 1] == a + b[..|b| - 1];
      TotalAppend(a, b[..|b| - 1]);
    } else {
      assert a + b == a;
    }
  }

  lemma {:induction false} OnlyAppend(a: seq<Entry>, b: seq<Entry>, k: string)
    ensures Only(a + b, k) == Only(a, k) + Only(b, k)
    decreases |b|
  {
    if b != [] {
      assert (a + b)[..|a + b| - 1] == a + b[..|b| - 1];
      OnlyAppend(a, b[..|b| - 1], k);
    } else {
      assert a + b == a;
    }
  }

  /** Amounts and counts split over concatenation. */
  lemma AmountForAppend(a: seq<Entry>, b: seq<Entry>, k: string)
    ensures AmountFor(a + b, k) == AmountFor(a, k) + AmountFor(b, k)
    ensures CountFor(a + b, k) == CountFor(a, k) + CountFor(b, k)
  {
    OnlyAppend(a, b, k);
    TotalAppend(Only(a, k), Only(b, k));
  }

  /** Appending one entry adds its amount, and one to the count, to its own key only. */
  lemma AmountForSnoc(es: seq<Entry>, x: Entry, k: string)
    ensures AmountFor(es + [x], k) == AmountFor(es, k) + (if x.key == k then x.amount else 0)
    ensures CountFor(es + [x], k) == CountFor(es, k) + (if x.key == k then 1 else 0)
  {
    AmountForAppend(es, [x], k);
    assert [x][..0] == [];
  }

  /** A key that never occurs has amount and count zero. */
  lemma {:induction false} AbsentKey(es: seq<Entry>, k: string)
    requires !HasKey(es, k)
    ensures AmountFor(es, k) == 0 && CountFor(es, k) == 0
    decreases |es|
  {
    if es != [] {
      var front := es[..|es| - 1];
      assert !HasKey(front, k) by {
        forall i | 0 <= i < |front| ensures front[i].key != k {
          assert front[i] == es[i];
        }
      }
      AbsentKey(front, k);
      assert es[|es| - 1].key != k;
    }
  }

  /** With non-negative amounts every key's amount is non-negative. */
  lemma {:induction false} AmountForNonNegative(es: seq<Entry>, k: string)
    requires forall i :: 0 <= i < |es| ==> es[i].amount >= 0
    ensures AmountFor(es, k) >= 0
    decreases |es|
  {
    if es != [] {
      var front := es[..|es| - 1];
      assert es == front + [es[|es| - 1]];
      AmountForNonNegative(front, k);
      AmountForSnoc(front, es[|es| - 1], k);
    }
  }

  lemma {:induction false} SumOverSnoc(ks: seq<string>, es: seq<Entry>, x: Entry)
    requires Distinct(ks)
    ensures SumOver(ks, es + [x]) == SumOver(ks, es) + (if x.key in ks then x.amount else 0)
    ensures CountOver(ks, es + [x]) == CountOver(ks, es) + (if x.key in ks then 1 else 0)
    decreases |ks|
  {
    if ks != [] {
      var front := ks[..|ks| - 1];
      assert ks == front + [ks[|ks| - 1]];
      SumOverSnoc(front, es, x);
      AmountForSnoc(es, x, ks[|ks| - 1]);
    }
  }

  /** Summing every key's amount gives the sum of all amounts. */
  lemma {:induction false} AmountsAddUp(es: seq<Entry>)
    ensures SumOver(Keys(es), es) == Total(es)
    decreases |es|
  {
    if es != [] {
      var front, x := es[..|es| - 1], es[|es| - 1];
      assert es == front + [x];
      var ks := Keys(front);
      AmountsAddUp(front);
      SumOverSnoc(ks, front, x);
      if x.key !in ks {
        AbsentKey(front, x.key);
        AmountForSnoc(front, x, x.key);
        assert (ks + [x.key])[..|ks|] == ks;
      }
    }
  }

  /** Summing every key's count gives the number of entries. */
  lemma {:induction false} CountsAddUp(es: seq<Entry>)
    ensures CountOver(Keys(es), es) == |es|
    decreases |es|
  {
    if es != [] {
      var front, x := es[..|es| - 1], es[|es| - 1];
      assert es == front + [x];
      var ks := Keys(front);
      CountsAddUp(front);
      SumOverSnoc(ks, front, x);
      if x.key !in ks {
        AbsentKey(front, x.key);
        AmountForSnoc(front, x, x.key);
        assert (ks + [x.key])[..|ks|] == ks;
      }
    }
  }

  /**
   * The last element of a permutation of `t` sits somewhere in `t`; taking it
   * out there leaves a permutation of the rest.
   */
  lemma PermutationUnsnoc<T>(front: seq<T>, x: T, t: seq<T>) returns (j: nat)
    requires multiset(front + [x]) == multiset(t)
    ensures j < |t| && t[j] == x
    ensures t == t[..j] + [x] + t[j + 1..]
    ensures multiset(front) == multiset(t[..j] + t[j + 1..])
  {
    assert x in multiset(front + [x]);
    assert x in multiset(t);
    j :| 0 <= j < |t| && t[j] == x;
    var before, after := t[..j], t[j + 1..];
    assert t == before + [x] + after;
    assert multiset(t) == multiset(before + after) + multiset{x} by {
      assert multiset(t) == multiset(before) + multiset{x} + multiset(after);
    }
    assert multiset(front + [x]) == multiset(front) + multiset{x};
    MultisetCancel(multiset(front), multiset(before + after), x);
  }

  lemma MultisetCancel<T>(a: multiset<T>, b: multiset<T>, x: T)
    requires a + multiset{x} == b + multiset{x}
    ensures a == b
  {
    assert a == a + multiset{x} - multiset{x};
    assert b == b + multiset{x} - multiset{x};
  }

  /** Reordering the entries changes no key's amount or count. */
  lemma {:induction false} AmountForPermutation(es: seq<Entry>, fs: seq<Entry>, k: string)
    requires multiset(es) == multiset(fs)
    ensures AmountFor(es, k) == AmountFor(fs, k)
    ensures CountFor(es, k) == CountFor(fs, k)
    decreases |es|
  {
    if es == [] {
      assert |fs| == |multiset(fs)| == 0;
    } else {
      var front, x := es[..|es| - 1], es[|es| - 1];
      assert es == front + [x];
      var j := PermutationUnsnoc(front, x, fs);
      var before, after := fs[..j], fs[j + 1..];
      AmountForPermutation(front, before + after, k);
      AmountForSnoc(front, x, k);
      AmountForAppend(before, after, k);
      AmountForAppend(before + [x], after, k);
      AmountForSnoc(before, x, k);
    }
  }


  /** Reordering the entries leaves the set of keys unchanged. */
  lemma KeysPermutation(es: seq<Entry>, fs: seq<Entry>, k: string)
    requires multiset(es) == multiset(fs)
    ensures k in Keys(es) <==> k in Keys(fs)
  {
    if HasKey(es, k) {
      var i :| 0 <= i < |es| && es[i].key == k;
      assert es[i] in multiset(fs);
      var j :| 0 <= j < |fs| && fs[j] == es[i];
    }
    if HasKey(fs, k) {
      var i :| 0 <= i < |fs| && fs[i].key == k;
      assert fs[i] in multiset(es);
      var j :| 0 <= j < |es| && es[j] == fs[i];
    }
  }

  /** The keys after one more entry: unchanged if its key is known, else that key appended. */
  lemma KeysSnoc(es: seq<Entry>, e: Entry)
    ensures Keys(es + [e]) == if e.key in Keys(es) then Keys(es) else Keys(es) + [e.key]
  {
    assert (es + [e])[..|es|] == es;
  }

  /** One row `{ count, total }` of a per-key summary object. */
  datatype Tally = Tally(key: string, count: int, total: int)

  /**
   * `if (!acc[k]) acc[k] = { count: 0, total: 0 }; acc[k].count++; acc[k].total += amount`,
   * on an object whose entries are kept in insertion order.
   */
  function Tick(acc: seq<Tally>, e: Entry): seq<Tally>
  {
    if acc == [] then [Tally(e.key, 1, e.amount)]
    else if acc[0].key == e.key then [Tally(e.key, acc[0].count + 1, acc[0].total + e.amount)] + acc[1..]
    else [acc[0]] + Tick(acc[1..], e)
  }

  /** `acc` has one row per key of `ks`, in that order, with that key's count and amount in `es`. */
  predicate TalliesFor(acc: seq<Tally>, ks: seq<string>, es: seq<Entry>)
  {
    && |acc| == |ks|
    && forall i :: 0 <= i < |acc| ==> acc[i] == Tally(ks[i], CountFor(es, ks[i]), AmountFor(es, ks[i]))
  }

  /** The summary of `es`: one row per key, in first-occurrence order, with that key's count and amount. */
  predicate Tallies(acc: seq<Tally>, es: seq<Entry>)
  {
    TalliesFor(acc, Keys(es), es)
  }

  /** A key not yet in the summary gets a new row at the end. */
  lemma {:induction false} TickNew(acc: seq<Tally>, e: Entry)
    requires forall i :: 0 <= i < |acc| ==> acc[i].key != e.key
    ensures Tick(acc, e) == acc + [Tally(e.key, 1, e.amount)]
    decreases |acc|
  {
    if acc != [] {
      TickNew(acc[1..], e);
      assert [acc[0]] + (acc[1..] + [Tally(e.key, 1, e.amount)]) == acc + [Tally(e.key, 1, e.amount)];
    }
  }

  /** A key already at row `k` (keys distinct) has that row counted up in place. */
  lemma {:induction false} TickExisting(acc: seq<Tally>, e: Entry, k: int)
    requires 0 <= k < |acc| && acc[k].key == e.key
    requires forall i, j :: 0 <= i < j < |acc| ==> acc[i].key != acc[j].key
    ensures Tick(acc, e) == acc[k := Tally(e.key, acc[k].count + 1, acc[k].total + e.amount)]
    decreases |acc|
  {
    var row := Tally(e.key, acc[k].count + 1, acc[k].total + e.amount);
    if k == 0 {
      assert acc[k := row] == [row] + acc[1..];
    } else {
      var rest := acc[1..];
      assert rest[k - 1] == acc[k];
      TickExisting(rest, e, k - 1);
      assert [acc[0]] + rest[k - 1 := row] == acc[k := row];
    }
  }

  /** One step of the reduce keeps the summary faithful to the entries seen so far. */
  lemma TickStep(acc: seq<Tally>, es: seq<Entry>, e: Entry)
    requires Tallies(acc, es)
    ensures Tallies(Tick(acc, e), es + [e])
  {
    var ks := Keys(es);
    KeysSnoc(es, e);
    if e.key in ks {
      var k :| 0 <= k < |ks| && ks[k] == e.key;
      TickStepKnown(acc, ks, es, e, k);
    } else {
      assert !HasKey(es, e.key);
      TickStepNew(acc, ks, es, e);
    }
  }

  /** The step for a key that already has a row at position `k`. */
  lemma TickStepKnown(acc: seq<Tally>, ks: seq<string>, es: seq<Entry>, e: Entry, k: int)
    requires TalliesFor(acc, ks, es) && Distinct(ks)
    requires 0 <= k < |ks| && ks[k] == e.key
    ensures TalliesFor(Tick(acc, e), ks, es + [e])
  {
    forall i, j | 0 <= i < j < |acc| ensures acc[i].key != acc[j].key {
      assert acc[i].key == ks[i] && acc[j].key == ks[j];
    }
    TickExisting(acc, e, k);
    var r := acc[k := Tally(e.key, acc[k].count + 1, acc[k].total + e.amount)];
    forall i | 0 <= i < |r| ensures r[i] == Tally(ks[i], CountFor(es + [e], ks[i]), AmountFor(es + [e], ks[i])) {
      AmountForSnoc(es, e, ks[i]);
      if i != k {
        assert r[i] == acc[i] && ks[i] != e.key;
      }
    }
  }

  /** The step for a key that occurs for the first time: a new row at the end. */
  lemma TickStepNew(acc: seq<Tally>, ks: seq<string>, es: seq<Entry>, e: Entry)
    requires TalliesFor(acc, ks, es) && e.key !in ks && !HasKey(es, e.key)
    ensures TalliesFor(Tick(acc, e), ks + [e.key], es + [e])
  {
    var ks' := ks + [e.key];
    forall i | 0 <= i < |acc| ensures acc[i].key != e.key {
      assert acc[i].key == ks[i];
    }
    TickNew(acc, e);
    var r := acc + [Tally(e.key, 1, e.amount)];
    forall i | 0 <= i < |r| ensures r[i] == Tally(ks'[i], CountFor(es + [e], ks'[i]), AmountFor(es + [e], ks'[i])) {
      AmountForSnoc(es, e, ks'[i]);
      if i == |acc| {
        AbsentKey(es, e.key);
      } else {
        assert ks'[i] == ks[i] && ks[i] != e.key;
      }
    }
  }

  /** The reduce itself: every entry, in order, ticked into an initially empty object. */
  function Summary(es: seq<Entry>): seq<Tally>
  {
    if es == [] then [] else Tick(Summary(es[..|es| - 1]), es[|es| - 1])
  }

  lemma {:induction false} SummaryCorrect(es: seq<Entry>)
    ensures Tallies(Summary(es), es)
    decreases |es|
  {
    if es != [] {
      var front := es[..|es| - 1];
      SummaryCorrect(front);
      TickStep(Summary(front), front, es[|es| - 1]);
      assert front + [es[|es| - 1]] == es;
    }
  }

  /** The counts of the rows, added up. */
  function CountSum(acc: seq<Tally>): int
  {
    if acc == [] then 0 else CountSum(acc[..|acc| - 1]) + acc[|acc| - 1].count
  }

  /** The totals of the rows, added up. */
  function TotalSum(acc: seq<Tally>): int
  {
    if acc == [] then 0 else TotalSum(acc[..|acc| - 1]) + acc[|acc| - 1].total
  }

  lemma {:induction false} RowSums(acc: seq<Tally>, ks: seq<string>, es: seq<Entry>)
    requires |acc| == |ks|
    requires forall i :: 0 <= i < |acc| ==> acc[i].count == CountFor(es, ks[i]) && acc[i].total == AmountFor(es, ks[i])
    ensures CountSum(acc) == CountOver(ks, es) && TotalSum(acc) == SumOver(ks, es)
    decreases |acc|
  {
    if acc != [] {
      RowSums(acc[..|acc| - 1], ks[..|ks| - 1], es);
    }
  }

  /** The rows of a faithful summary account for every entry once: counts and totals add up. */
  lemma TalliesAddUp(acc: seq<Tally>, es: seq<Entry>)
    requires Tallies(acc, es)
    ensures CountSum(acc) == |es|
    ensures TotalSum(acc) == Total(es)
  {
    RowSums(acc, Keys(es), es);
    CountsAddUp(es);
    AmountsAddUp(es);
  }
}
