/// The shift overview (`ServiceOverview`): the numbered list of shifts, the
/// viewer's filtered rows and their total minutes, the per-name totals, the
/// leader's minutes and how many minutes the viewer needs to become first,
/// and deleting a shift.
module ServiceOverview {
  import opened Records
  import opened Ledger

  /** The stored list with `globalIndex` set to each shift's position plus one. */
  function WithIndex(s: seq<Service>): (r: seq<Service>)
    ensures |r| == |s|
    ensures forall i :: 0 <= i < |s| ==> r[i] == s[i].(globalIndex := Some(i + 1))
  {
    if s == [] then [] else WithIndex(s[..|s| - 1]) + [s[|s| - 1].(globalIndex := Some(|s|))]
  }

  /** Each shift as the minutes it adds to its submitter's name. */
  function Minutes(s: seq<Service>): (es: seq<Entry>)
    ensures |es| == |s|
    ensures forall i :: 0 <= i < |s| ==> es[i] == Entry(s[i].serviceName, s[i].durationInMinutes)
  {
    if s == [] then [] else Minutes(s[..|s| - 1]) + [Entry(s[|s| - 1].serviceName, s[|s| - 1].durationInMinutes)]
  }

  /**
   * `services.filter(s => s.serviceName === owner)`; an `undefined` owner
   * (`None`) matches no shift.
   */
  function OwnedBy(s: seq<Service>, owner: Option<string>): seq<Service>
  {
    if s == [] then []
    else OwnedBy(s[..|s| - 1], owner) + (if Some(s[|s| - 1].serviceName) == owner then [s[|s| - 1]] else [])
  }

  /**
   * `services.filter(s => s.id !== id)`. Each component filters its own record
   * type by its own field, so each filter is a plain recursive function on
   * that type rather than one higher-order filter.
   */
  function WithoutId(s: seq<Service>, id: string): seq<Service>
  {
    if s == [] then []
    else WithoutId(s[..|s| - 1], id) + (if s[|s| - 1].id != id then [s[|s| - 1]] else [])
  }

  /** The filter keeps the relative order: it distributes over concatenation. */
  lemma {:induction false} OwnedByAppend(a: seq<Service>, b: seq<Service>, owner: Option<string>)
    ensures OwnedBy(a + b, owner) == OwnedBy(a, owner) + OwnedBy(b, owner)
    decreases |b|
  {
    if b == [] {
      assert a + b == a;
    } else {
      assert (a + b)[..|a + b| - 1] == a + b[..|b| - 1];
      OwnedByAppend(a, b[..|b| - 1], owner);
    }
  }

  /** Deleting keeps the other shifts in their relative order. */
  lemma {:induction false} WithoutIdAppend(a: seq<Service>, b: seq<Service>, id: string)
    ensures WithoutId(a + b, id) == WithoutId(a, id) + WithoutId(b, id)
    decreases |b|
  {
    if b == [] {
      assert a + b == a;
    } else {
      assert (a + b)[..|a + b| - 1] == a + b[..|b| - 1];
      WithoutIdAppend(a, b[..|b| - 1], id);
    }
  }

  /** A shift is visible exactly when it is in the list and its name is the owner's. */
  lemma {:induction false} OwnedByMember(s: seq<Service>, owner: Option<string>, x: Service)
    ensures x in OwnedBy(s, owner) <==> x in s && Some(x.serviceName) == owner
    decreases |s|
  {
    if s != [] {
      OwnedByMember(s[..|s| - 1], owner, x);
      assert s == s[..|s| - 1] + [s[|s| - 1]];
    }
  }

  /** The same, for every shift at once. */
  lemma OwnedByMembers(s: seq<Service>, owner: Option<string>)
    ensures forall x :: x in OwnedBy(s, owner) <==> x in s && Some(x.serviceName) == owner
  {
    forall x {
      OwnedByMember(s, owner, x);
    }
  }

  /** A shift survives the delete exactly when it is in the list and carries another id. */
  lemma {:induction false} WithoutIdMember(s: seq<Service>, id: string, x: Service)
    ensures x in WithoutId(s, id) <==> x in s && x.id != id
    decreases |s|
  {
    if s != [] {
      WithoutIdMember(s[..|s| - 1], id, x);
      assert s == s[..|s| - 1] + [s[|s| - 1]];
    }
  }

  /** Deleting an id no shift carries changes nothing. */
  lemma {:induction false} WithoutAbsentId(s: seq<Service>, id: string)
    requires forall i :: 0 <= i < |s| ==> s[i].id != id
    ensures WithoutId(s, id) == s
    decreases |s|
  {
    if s != [] {
      WithoutAbsentId(s[..|s| - 1], id);
      assert s[..|s| - 1] + [s[|s| - 1]] == s;
    }
  }

  /** Numbering ignores the numbers a list already carries. */
  lemma WithIndexRenumbers(s: seq<Service>, t: seq<Service>)
    requires |s| == |t|
    requires forall i :: 0 <= i < |s| ==> s[i].(globalIndex := None) == t[i].(globalIndex := None)
    ensures WithIndex(s) == WithIndex(t)
  {
    forall i | 0 <= i < |s| ensures WithIndex(s)[i] == WithIndex(t)[i] {
      assert s[i].(globalIndex := Some(i + 1)) == s[i].(globalIndex := None).(globalIndex := Some(i + 1));
      assert t[i].(globalIndex := Some(i + 1)) == t[i].(globalIndex := None).(globalIndex := Some(i + 1));
    }
  }

  /** Numbering does not change the minutes any name is credited with. */
  lemma MinutesIgnoreIndex(s: seq<Service>)
    ensures Minutes(WithIndex(s)) == Minutes(s)
  {
  }

  /** The viewer's shifts contribute exactly the minutes the ledger records under their name. */
  lemma {:induction false} OwnedMinutes(s: seq<Service>, name: string)
    ensures Minutes(OwnedBy(s, Some(name))) == Only(Minutes(s), name)
    decreases |s|
  {
    if s != [] {
      var front, x := s[..|s| - 1], s[|s| - 1];
      OwnedMinutes(front, name);
      assert Minutes(s)[..|s| - 1] == Minutes(front);
      var o := OwnedBy(front, Some(name));
      if x.serviceName == name {
        assert Minutes(o + [x]) == Minutes(o) + [Entry(x.serviceName, x.durationInMinutes)];
      } else {
        assert Minutes(o + []) == Minutes(o);
      }
    }
  }

  /** An `undefined` name owns nothing. */
  lemma {:induction false} OwnedByNobody(s: seq<Service>)
    ensures OwnedBy(s, None) == []
    decreases |s|
  {
    if s != [] {
      OwnedByNobody(s[..|s| - 1]);
    }
  }

  /** The sum the overview shows for a viewer: the minutes of the shifts they own. */
  function OwnerMinutes(s: seq<Service>, owner: Option<string>): (m: int)
    ensures owner.None? ==> m == 0
    ensures owner.Some? ==> m == AmountFor(Minutes(s), owner.value)
  {
    if owner.Some? then OwnedMinutes(s, owner.value); Total(Minutes(OwnedBy(s, owner)))
    else OwnedByNobody(s); Total(Minutes(OwnedBy(s, owner)))
  }

  /**
   * One row of the per-name object `servicesByUser`. It holds a bare number,
   * not Ledger's `{ count, total }` pair, because that is what the component
   * stores and what `Math.max` reads. The rows are still proved against
   * Ledger's `Keys` and `AmountFor` (`TotalsByNameCorrect`).
   */
  datatype NameTotal = NameTotal(name: string, minutes: int)

  /** `acc[name] = (acc[name] || 0) + d`, on an object whose entries are kept in insertion order. */
  function AddMinutes(acc: seq<NameTotal>, name: string, d: int): seq<NameTotal>
  {
    if acc == [] then [NameTotal(name, d)]
    else if acc[0].name == name then [NameTotal(name, acc[0].minutes + d)] + acc[1..]
    else [acc[0]] + AddMinutes(acc[1..], name, d)
  }

  /** A name not yet in the object gets a new row at the end. */
  lemma {:induction false} AddMinutesNew(acc: seq<NameTotal>, name: string, d: int)
    requires forall i :: 0 <= i < |acc| ==> acc[i].name != name
    ensures AddMinutes(acc, name, d) == acc + [NameTotal(name, d)]
    decreases |acc|
  {
    if acc != [] {
      AddMinutesNew(acc[1..], name, d);
      assert [acc[0]] + (acc[1..] + [NameTotal(name, d)]) == acc + [NameTotal(name, d)];
    }
  }

  /** A name already in the object (at row `k`, names distinct) has that row increased, in place. */
  lemma {:induction false} AddMinutesExisting(acc: seq<NameTotal>, name: string, d: int, k: int)
    requires 0 <= k < |acc| && acc[k].name == name
    requires forall i, j :: 0 <= i < j < |acc| ==> acc[i].name != acc[j].name
    ensures AddMinutes(acc, name, d) == acc[k := NameTotal(name, acc[k].minutes + d)]
    decreases |acc|
  {
    if k == 0 {
      assert acc[k := NameTotal(name, acc[k].minutes + d)] == [NameTotal(name, acc[0].minutes + d)] + acc[1..];
    } else {
      assert acc[0].name != name;
      var rest := acc[1..];
      assert rest[k - 1] == acc[k];
      AddMinutesExisting(rest, name, d, k - 1);
      assert [acc[0]] + rest[k - 1 := NameTotal(name, acc[k].minutes + d)] == acc[k := NameTotal(name, acc[k].minutes + d)];
    }
  }

  /**
   * `servicesByUser`: the shifts reduced, in list order, into per-name
   * totals.
   */
  function TotalsByName(s: seq<Service>): seq<NameTotal>
  {
    if s == [] then []
    else AddMinutes(TotalsByName(s[..|s| - 1]), s[|s| - 1].serviceName, s[|s| - 1].durationInMinutes)
  }

  /** The rows hold, in order, the names `ks`, each with its minute sum over `es`. */
  predicate RowsFor(acc: seq<NameTotal>, ks: seq<string>, es: seq<Entry>)
  {
    && |acc| == |ks|
    && forall i :: 0 <= i < |acc| ==> acc[i] == NameTotal(ks[i], AmountFor(es, ks[i]))
  }

  /** `acc` is the per-name object for the entries `es`: one row per key, in first-occurrence order. */
  predicate Represents(acc: seq<NameTotal>, es: seq<Entry>)
  {
    RowsFor(acc, Keys(es), es)
  }

  /** One reduce step for a name that already has a row: the rows stay exact. */
  lemma AddMinutesStepKnown(acc: seq<NameTotal>, ks: seq<string>, es: seq<Entry>, e: Entry, k: int)
    requires RowsFor(acc, ks, es) && Distinct(ks)
    requires 0 <= k < |ks| && ks[k] == e.key
    ensures RowsFor(AddMinutes(acc, e.key, e.amount), ks, es + [e])
  {
    forall i, j | 0 <= i < j < |acc| ensures acc[i].name != acc[j].name {
      assert acc[i].name == ks[i] && acc[j].name == ks[j];
    }
    AddMinutesExisting(acc, e.key, e.amount, k);
    var r := acc[k := NameTotal(e.key, acc[k].minutes + e.amount)];
    forall i | 0 <= i < |r| ensures r[i] == NameTotal(ks[i], AmountFor(es + [e], ks[i])) {
      AmountForSnoc(es, e, ks[i]);
      if i != k {
        assert r[i] == acc[i] && ks[i] != e.key;
      }
    }
  }

  /** One reduce step for a name without a row: a new exact row is appended. */
  lemma AddMinutesStepNew(acc: seq<NameTotal>, ks: seq<string>, es: seq<Entry>, e: Entry)
    requires RowsFor(acc, ks, es)
    requires e.key !in ks && !HasKey(es, e.key)
    ensures RowsFor(AddMinutes(acc, e.key, e.amount), ks + [e.key], es + [e])
  {
    var ks' := ks + [e.key];
    forall i | 0 <= i < |acc| ensures acc[i].name != e.key {
      assert acc[i].name == ks[i];
    }
    AddMinutesNew(acc, e.key, e.amount);
    var r := acc + [NameTotal(e.key, e.amount)];
    forall i | 0 <= i < |r| ensures r[i] == NameTotal(ks'[i], AmountFor(es + [e], ks'[i])) {
      AmountForSnoc(es, e, ks'[i]);
      if i == |acc| {
        AbsentKey(es, e.key);
      } else {
        assert ks'[i] == ks[i] && ks[i] != e.key;
      }
    }
  }

  lemma MinutesAppend(a: seq<Service>, b: seq<Service>)
    ensures Minutes(a + b) == Minutes(a) + Minutes(b)
  {
  }

  /**
   * The reduce yields one row per distinct name, in order of first
   * appearance, holding the sum of that name's minutes.
   */
  lemma {:induction false} TotalsByNameCorrect(s: seq<Service>)
    ensures Represents(TotalsByName(s), Minutes(s))
    decreases |s|
  {
    if s != [] {
      var front, x := s[..|s| - 1], s[|s| - 1];
      TotalsByNameCorrect(front);
      assert s == front + [x];
      MinutesAppend(front, [x]);
      var e := Entry(x.serviceName, x.durationInMinutes);
      var es, ks := Minutes(front), Keys(Minutes(front));
      assert Minutes(s) == es + [e];
      KeysSnoc(es, e);
      if e.key in ks {
        var k :| 0 <= k < |ks| && ks[k] == e.key;
        AddMinutesStepKnown(TotalsByName(front), ks, es, e, k);
      } else {
        AddMinutesStepNew(TotalsByName(front), ks, es, e);
      }
    }
  }

  /** The totals depend only on the names and minutes, not on row numbers. */
  lemma TotalsIgnoreIndex(s: seq<Service>)
    ensures TotalsByName(WithIndex(s)) == TotalsByName(s)
  {
    TotalsByNameCorrect(WithIndex(s));
    TotalsByNameCorrect(s);
    MinutesIgnoreIndex(s);
  }

  /** Each shift list's totals: the row for `name`, if there is one. */
  lemma TotalsByNameLookup(s: seq<Service>, name: string)
    ensures HasKey(Minutes(s), name) <==> exists i :: 0 <= i < |TotalsByName(s)| && TotalsByName(s)[i].name == name
    ensures forall i :: 0 <= i < |TotalsByName(s)| && TotalsByName(s)[i].name == name ==>
              TotalsByName(s)[i].minutes == AmountFor(Minutes(s), name)
  {
    var es, t := Minutes(s), TotalsByName(s);
    TotalsByNameCorrect(s);
    var ks := Keys(es);
    if HasKey(es, name) {
      var i :| 0 <= i < |ks| && ks[i] == name;
      assert t[i].name == name;
    } else {
      forall i | 0 <= i < |t| ensures t[i].name != name {
        assert t[i].name == ks[i] && ks[i] in ks;
      }
    }
    forall i | 0 <= i < |t| && t[i].name == name ensures t[i].minutes == AmountFor(es, name) {
      assert t[i] == NameTotal(ks[i], AmountFor(es, ks[i]));
    }
  }

  /** The minutes of the rows, added up. */
  function RowMinutes(ts: seq<NameTotal>): int
  {
    if ts == [] then 0 else RowMinutes(ts[..|ts| - 1]) + ts[|ts| - 1].minutes
  }

  lemma {:induction false} RowMinutesOver(ts: seq<NameTotal>, ks: seq<string>, es: seq<Entry>)
    requires |ts| == |ks|
    requires forall i :: 0 <= i < |ts| ==> ts[i].minutes == AmountFor(es, ks[i])
    ensures RowMinutes(ts) == SumOver(ks, es)
    decreases |ts|
  {
    if ts != [] {
      RowMinutesOver(ts[..|ts| - 1], ks[..|ks| - 1], es);
    }
  }

  /** Every shift's minutes are credited to exactly one row, so the rows add up to all minutes. */
  lemma TotalsAddUp(s: seq<Service>)
    ensures RowMinutes(TotalsByName(s)) == Total(Minutes(s))
  {
    TotalsByNameCorrect(s);
    RowMinutesOver(TotalsByName(s), Keys(Minutes(s)), Minutes(s));
    AmountsAddUp(Minutes(s));
  }

  lemma {:induction false} MinutesPermutation(s: seq<Service>, t: seq<Service>)
    requires multiset(s) == multiset(t)
    ensures multiset(Minutes(s)) == multiset(Minutes(t))
    decreases |s|
  {
    if s == [] {
      assert |t| == |multiset(t)| == 0;
    } else {
      var front, x := s[..|s| - 1], s[|s| - 1];
      assert s == front + [x];
      var j := PermutationUnsnoc(front, x, t);
      var before, after := t[..j], t[j + 1..];
      MinutesPermutation(front, before + after);
      MinutesAppend(front, [x]);
      MinutesAppend(before + [x], after);
      MinutesAppend(before, [x]);
      MinutesAppend(before, after);
    }
  }


  /** Reordering the shifts gives every name the same total and keeps the same names. */
  lemma TotalsOrderIndependent(s: seq<Service>, t: seq<Service>, name: string)
    requires multiset(s) == multiset(t)
    ensures AmountFor(Minutes(s), name) == AmountFor(Minutes(t), name)
    ensures name in Keys(Minutes(s)) <==> name in Keys(Minutes(t))
  {
    MinutesPermutation(s, t);
    AmountForPermutation(Minutes(s), Minutes(t), name);
    KeysPermutation(Minutes(s), Minutes(t), name);
  }

  /** `Math.max(...Object.values(totals))`; `None` is the `-Infinity` of an empty argument list. */
  function Leader(ts: seq<NameTotal>): (r: Option<int>)
    ensures r.None? <==> ts == []
  {
    if ts == [] then None
    else
      var x := ts[|ts| - 1].minutes;
      match Leader(ts[..|ts| - 1])
      case None => Some(x)
      case Some(m) => Some(if m >= x then m else x)
  }

  /** The leader value bounds every total and is one of them. */
  lemma {:induction false} LeaderIsMaximum(ts: seq<NameTotal>)
    requires ts != []
    ensures forall i :: 0 <= i < |ts| ==> ts[i].minutes <= Leader(ts).value
    ensures exists i :: 0 <= i < |ts| && ts[i].minutes == Leader(ts).value
    decreases |ts|
  {
    var front, x := ts[..|ts| - 1], ts[|ts| - 1].minutes;
    if front == [] {
      assert ts[0].minutes == x;
    } else {
      LeaderIsMaximum(front);
      var m := Leader(front).value;
      assert forall i :: 0 <= i < |front| ==> ts[i] == front[i];
      var j :| 0 <= j < |front| && front[j].minutes == m;
      if m >= x {
        assert ts[j].minutes == m;
      } else {
        assert ts[|ts| - 1].minutes == x;
      }
    }
  }

  /** `Math.max(0, top - user + 1)`: the minutes still missing to overtake the leader. */
  function GapToFirst(top: Option<int>, user: int): (r: int)
    ensures r >= 0
    ensures top.None? ==> r == 0
    ensures top.Some? ==> (r == 0 <==> user > top.value)
    ensures top.Some? && r > 0 ==> user + r == top.value + 1
  {
    match top
    case None => 0
    case Some(t) => if 0 >= t - user + 1 then 0 else t - user + 1
  }

  /** No shift has a negative duration (the submission form rejects those). */
  predicate NoNegativeShifts(s: seq<Service>)
  {
    forall i :: 0 <= i < |s| ==> s[i].durationInMinutes >= 0
  }

  /** The name of any row has no more minutes than the leader. */
  lemma LeaderBoundsRow(t: seq<NameTotal>, ks: seq<string>, es: seq<Entry>, i: int)
    requires RowsFor(t, ks, es) && 0 <= i < |t|
    ensures Leader(t).Some? && AmountFor(es, ks[i]) <= Leader(t).value
  {
    LeaderIsMaximum(t);
    assert t[i].minutes == AmountFor(es, ks[i]);
  }

  /** With shifts on record and no negative durations, nobody is ahead of the leader. */
  lemma {:induction false} LeaderBoundsEveryone(s: seq<Service>, name: string)
    requires s != [] && NoNegativeShifts(s)
    ensures Leader(TotalsByName(s)).Some?
    ensures AmountFor(Minutes(s), name) <= Leader(TotalsByName(s)).value
  {
    TotalsByNameCorrect(s);
    var es, ks, t := Minutes(s), Keys(Minutes(s)), TotalsByName(s);
    assert es[0].key in ks;
    assert t != [];
    if name in ks {
      var i :| 0 <= i < |ks| && ks[i] == name;
      LeaderBoundsRow(t, ks, es, i);
    } else {
      AbsentKey(es, name);
      AmountForNonNegative(es, ks[0]);
      LeaderBoundsRow(t, ks, es, 0);
    }
  }

  /**
   * With shifts on record and no negative durations the viewer, whoever they
   * are, is never ahead of the leader, so they always need at least one minute.
   */
  lemma {:induction false} ViewerBehindLeader(s: seq<Service>, owner: Option<string>)
    requires s != [] && NoNegativeShifts(s)
    ensures Leader(TotalsByName(s)).Some?
    ensures OwnerMinutes(s, owner) <= Leader(TotalsByName(s)).value
    ensures GapToFirst(Leader(TotalsByName(s)), OwnerMinutes(s, owner)) >= 1
  {
    LeaderBoundsEveryone(s, owner.GetOr(""));
    AmountForNonNegative(Minutes(s), owner.GetOr(""));
  }

  /** Two names, A with 100 minutes and B with 150: one row each, in that order. */
  lemma ScenarioTotals(a: Service, b: Service)
    requires a.serviceName == "A" && a.durationInMinutes == 100
    requires b.serviceName == "B" && b.durationInMinutes == 150
    ensures TotalsByName([a, b]) == [NameTotal("A", 100), NameTotal("B", 150)]
  {
    assert [a, b][..1] == [a];
    assert [a][..0] == [];
    assert TotalsByName([a]) == [NameTotal("A", 100)];
    AddMinutesNew([NameTotal("A", 100)], "B", 150);
  }

  /** In the same list, A's own minutes are 100. */
  lemma ScenarioOwner(a: Service, b: Service)
    requires a.serviceName == "A" && a.durationInMinutes == 100
    requires b.serviceName == "B" && b.durationInMinutes == 150
    ensures OwnerMinutes([a, b], Some("A")) == 100
  {
    var ea, eb := Entry("A", 100), Entry("B", 150);
    assert Minutes([a, b]) == [ea] + [eb];
    AmountForSnoc([], ea, "A");
    assert [] + [ea] == [ea];
    AmountForSnoc([ea], eb, "A");
  }

  /** Two names, A with 100 minutes and B with 150: the leader has 150 and A needs 51. */
  lemma LeaderScenario(a: Service, b: Service)
    requires a.serviceName == "A" && a.durationInMinutes == 100
    requires b.serviceName == "B" && b.durationInMinutes == 150
    ensures Leader(TotalsByName([a, b])) == Some(150)
    ensures OwnerMinutes([a, b], Some("A")) == 100
    ensures GapToFirst(Leader(TotalsByName([a, b])), OwnerMinutes([a, b], Some("A"))) == 51
  {
    ScenarioTotals(a, b);
    ScenarioOwner(a, b);
    var ts := [NameTotal("A", 100), NameTotal("B", 150)];
    assert ts[..1] == [NameTotal("A", 100)];
  }



  /** Numbering the shifts changes neither the viewer's minutes nor the leader. */
  lemma FiguresIgnoreIndex(s: seq<Service>, owner: Option<string>)
    ensures OwnerMinutes(WithIndex(s), owner) == OwnerMinutes(s, owner)
    ensures Leader(TotalsByName(WithIndex(s))) == Leader(TotalsByName(s))
  {
    MinutesIgnoreIndex(s);
    TotalsIgnoreIndex(s);
  }

  /**
   * The two figures the overview loads, computed on the indexed list as the
   * component does: the owner's minutes and the leader's total.
   */
  function LoadedFigures(s: seq<Service>, owner: Option<string>): (f: (int, Option<int>))
    ensures f.0 == OwnerMinutes(s, owner) && f.1 == Leader(TotalsByName(s))
    ensures s != [] && NoNegativeShifts(s) ==> f.1.Some? && f.0 <= f.1.value && GapToFirst(f.1, f.0) >= 1
  {
    var indexed := WithIndex(s);
    FiguresIgnoreIndex(s, owner);
    if s != [] && NoNegativeShifts(s) then
      ViewerBehindLeader(s, owner);
      (OwnerMinutes(indexed, owner), Leader(TotalsByName(indexed)))
    else
      (OwnerMinutes(indexed, owner), Leader(TotalsByName(indexed)))
  }

  /** The overview component's state. */
  class ServiceOverview {
    const store: LocalStore
    const loggedInUser: string
    var services: seq<Service>
    var currentUserName: Option<string>
    var topServiceMinutes: Option<int>
    var userServiceMinutes: int

    constructor (store: LocalStore, loggedInUser: string)
      ensures this.store == store && this.loggedInUser == loggedInUser
      ensures services == [] && currentUserName == Some("")
      ensures topServiceMinutes == Some(0) && userServiceMinutes == 0
    {
      this.store := store;
      this.loggedInUser := loggedInUser;
      services := [];
      currentUserName := Some("");
      topServiceMinutes := Some(0);
      userServiceMinutes := 0;
    }

    /**
     * `loadServices`: number the stored shifts, resolve the viewer's full
     * name, and compute the viewer's minutes and the leader's minutes.
     */
    method LoadServices()
      modifies this`services, this`currentUserName, this`topServiceMinutes, this`userServiceMinutes
      ensures services == WithIndex(store.services)
      ensures var u := FindUser(store.UserList(), loggedInUser);
        && currentUserName == (if u.Some? then u.value.fullName else old(currentUserName))
        && userServiceMinutes == OwnerMinutes(store.services, if u.Some? then u.value.fullName else None)
      ensures topServiceMinutes == Leader(TotalsByName(store.services))
      ensures store.services != [] && NoNegativeShifts(store.services) ==>
        topServiceMinutes.Some? && userServiceMinutes <= topServiceMinutes.value && GapToFirst(topServiceMinutes, userServiceMinutes) >= 1
    {
      var storedServices := store.services;
      var servicesWithIndex := WithIndex(storedServices);
      services := servicesWithIndex;
      var currentUser := FindUser(store.UserList(), loggedInUser);
      if currentUser.Some? {
        currentUserName := currentUser.value.fullName;
      }
      var owner := if currentUser.Some? then currentUser.value.fullName else None;
      var (userMinutes, maxMinutes) := LoadedFigures(storedServices, owner);
      topServiceMinutes := maxMinutes;
      userServiceMinutes := userMinutes;
    }

    /** `filteredServices`: the administrator sees every shift, anyone else only their own. */
    function FilteredServices(): (r: seq<Service>)
      reads this
      ensures loggedInUser == Admin ==> r == services
      ensures loggedInUser != Admin ==> forall x :: x in r <==> x in services && Some(x.serviceName) == currentUserName
    {
      if loggedInUser == Admin then services
      else OwnedByMembers(services, currentUserName); OwnedBy(services, currentUserName)
    }

    /** `totalMinutes`: the minutes of the shifts the viewer sees. */
    function TotalMinutes(): (t: int)
      reads this
      ensures loggedInUser == Admin ==> t == RowMinutes(TotalsByName(services))
      ensures loggedInUser != Admin ==> t == OwnerMinutes(services, currentUserName)
    {
      if loggedInUser == Admin then TotalsAddUp(services); Total(Minutes(FilteredServices()))
      else Total(Minutes(FilteredServices()))
    }

    /** `minutesToBeFirst` */
    function MinutesToBeFirst(): (r: int)
      reads this
      ensures r >= 0
      ensures topServiceMinutes.None? ==> r == 0
      ensures topServiceMinutes.Some? ==> (r == 0 <==> userServiceMinutes > topServiceMinutes.value)
    {
      GapToFirst(topServiceMinutes, userServiceMinutes)
    }

    /**
     * `handleDelete`: drop every shift with the id, renumber the rest for
     * display, and store the filtered list (which still carries the
     * numbers from before the delete).
     */
    method HandleDelete(serviceId: string)
      modifies this`services, store`services
      ensures store.services == WithoutId(old(services), serviceId)
      ensures services == WithIndex(store.services)
    {
      var updatedServices := WithoutId(services, serviceId);
      services := WithIndex(updatedServices);
      store.services := updatedServices;
    }
  }
}
