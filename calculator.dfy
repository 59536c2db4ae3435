/// The price calculator (`Calculator`): a fixed catalogue of treatments, a
/// duplicate-free selection that each click toggles, the selection's total
/// price, and the hand-off of the selected names and the total to the report
/// form.
module Calculator {
  import opened Records
  import Ledger

  /** One catalogue entry. */
  datatype Treatment = Treatment(id: string, name: string, shortName: string, price: int)

  /** The `services` catalogue. */
  const Catalogue: seq<Treatment> := [
    Treatment("VIZS", "Vizsgálat", "(VIZS)", 50000),
    Treatment("KOT", "Kötözés", "(KÖT)", 15000),
    Treatment("GIP", "Gipszelés", "(GIP)", 20000),
    Treatment("GYOGY", "Gyógyszerezés", "(GYÓGY)", 9000),
    Treatment("MT", "Műtét", "(MT)", 35000),
    Treatment("TH", "Téves hívás", "(TH)", 60000)
  ]

  /** `cat.find(s => s.id === id)`: the first entry with the id, if any. */
  function Find(cat: seq<Treatment>, id: string): (r: Option<Treatment>)
    ensures r.None? <==> forall i :: 0 <= i < |cat| ==> cat[i].id != id
    ensures r.Some? ==> exists i :: 0 <= i < |cat| && cat[i] == r.value && r.value.id == id &&
                                   forall j :: 0 <= j < i ==> cat[j].id != id
  {
    if cat == [] then None
    else if cat[0].id == id then Some(cat[0])
    else
      var r := Find(cat[1..], id);
      assert forall i :: 1 <= i < |cat| ==> cat[i] == cat[1..][i - 1];
      r
  }

  /** `service?.price || 0`: the catalogue price, or 0 for an unknown id. */
  function Price(id: string): int
  {
    match Find(Catalogue, id)
    case None => 0
    case Some(t) => if t.price == 0 then 0 else t.price
  }

  /** The catalogue's ids are distinct and every price is positive. */
  lemma CatalogueWellFormed()
    ensures forall i, j :: 0 <= i < j < |Catalogue| ==> Catalogue[i].id != Catalogue[j].id
    ensures forall i :: 0 <= i < |Catalogue| ==> Catalogue[i].price > 0 && Catalogue[i].name != ""
  {
  }

  /** An id has a price exactly when it is in the catalogue, and that price is the entry's. */
  lemma PriceOfId(id: string)
    ensures Price(id) > 0 <==> exists i :: 0 <= i < |Catalogue| && Catalogue[i].id == id
    ensures Price(id) == 0 <==> forall i :: 0 <= i < |Catalogue| ==> Catalogue[i].id != id
    ensures forall i :: 0 <= i < |Catalogue| && Catalogue[i].id == id ==> Price(id) == Catalogue[i].price
  {
    CatalogueWellFormed();
  }

  /** `selectedServices.reduce((sum, id) => sum + price(id), 0)` */
  function Total(sel: seq<string>): int
  {
    if sel == [] then 0 else Total(sel[..|sel| - 1]) + Price(sel[|sel| - 1])
  }

  lemma {:induction false} TotalAppend(a: seq<string>, b: seq<string>)
    ensures Total(a + b) == Total(a) + Total(b)
    decreases |b|
  {
    if b == [] {
      assert a + b == a;
    } else {
      assert (a + b)[..|a + b| - 1] == a + b[..|b| - 1];
      TotalAppend(a, b[..|b| - 1]);
    }
  }

  /** The total does not depend on the order of the selection. */
  lemma {:induction false} TotalPermutation(a: seq<string>, b: seq<string>)
    requires multiset(a) == multiset(b)
    ensures Total(a) == Total(b)
    decreases |a|
  {
    if a == [] {
      assert |b| == |multiset(b)| == 0;
    } else {
      var front, x := a[..|a| - 1], a[|a| - 1];
      assert a == front + [x];
      var j := Ledger.PermutationUnsnoc(front, x, b);
      var before, after := b[..j], b[j + 1..];
      TotalPermutation(front, before + after);
      TotalAppend(before, after);
      TotalAppend(before + [x], after);
      TotalAppend(before, [x]);
      assert [x][..0] == [];
    }
  }


  /** The selection without any occurrence of `id` (`prev.filter(x => x !== id)`). */
  function Without(sel: seq<string>, id: string): seq<string>
  {
    if sel == [] then []
    else Without(sel[..|sel| - 1], id) + (if sel[|sel| - 1] != id then [sel[|sel| - 1]] else [])
  }

  lemma {:induction false} WithoutMember(sel: seq<string>, id: string, x: string)
    ensures x in Without(sel, id) <==> x in sel && x != id
    decreases |sel|
  {
    if sel != [] {
      WithoutMember(sel[..|sel| - 1], id, x);
      assert sel == sel[..|sel| - 1] + [sel[|sel| - 1]];
    }
  }

  lemma {:induction false} WithoutAbsent(sel: seq<string>, id: string)
    requires id !in sel
    ensures Without(sel, id) == sel
    decreases |sel|
  {
    if sel != [] {
      assert sel[..|sel| - 1] + [sel[|sel| - 1]] == sel;
      WithoutAbsent(sel[..|sel| - 1], id);
    }
  }

  /** No id occurs twice. */
  predicate NoDuplicates(sel: seq<string>)
  {
    forall i, j :: 0 <= i < j < |sel| ==> sel[i] != sel[j]
  }

  lemma {:induction false} WithoutKeepsNoDuplicates(sel: seq<string>, id: string)
    requires NoDuplicates(sel)
    ensures NoDuplicates(Without(sel, id))
    decreases |sel|
  {
    if sel != [] {
      var front, x := sel[..|sel| - 1], sel[|sel| - 1];
      WithoutKeepsNoDuplicates(front, id);
      WithoutMember(front, id, x);
      assert x !in front;
    }
  }

  /** `handleServiceToggle`'s update: remove a selected id, append an unselected one. */
  function Toggled(sel: seq<string>, id: string): seq<string>
  {
    if id in sel then Without(sel, id) else sel + [id]
  }

  /** After a toggle, `id` is selected exactly when it was not, and every other id is as before. */
  lemma ToggledMember(sel: seq<string>, id: string, x: string)
    ensures x in Toggled(sel, id) <==> if x == id then id !in sel else x in sel
  {
    WithoutMember(sel, id, x);
  }

  /** A toggle keeps the selection free of duplicates. */
  lemma ToggleKeepsNoDuplicates(sel: seq<string>, id: string)
    requires NoDuplicates(sel)
    ensures NoDuplicates(Toggled(sel, id))
  {
    if id in sel {
      WithoutKeepsNoDuplicates(sel, id);
    }
  }

  /** Toggling an unselected id twice restores exactly the original selection. */
  lemma ToggleTwice(sel: seq<string>, id: string)
    requires id !in sel
    ensures Toggled(Toggled(sel, id), id) == sel
  {
    assert id in sel + [id];
    WithoutAbsent(sel, id);
    assert Without(sel + [id], id) == Without(sel, id) by {
      assert (sel + [id])[..|sel|] == sel;
    }
  }

  /** In a duplicate-free selection, removing an id takes away exactly its price. */
  lemma {:induction false} TotalWithout(sel: seq<string>, id: string)
    requires NoDuplicates(sel) && id in sel
    ensures Total(Without(sel, id)) == Total(sel) - Price(id)
    decreases |sel|
  {
    var front, x := sel[..|sel| - 1], sel[|sel| - 1];
    assert Without(sel, id) == Without(front, id) + (if x != id then [x] else []);
    if x == id {
      assert id !in front by {
        forall i | 0 <= i < |front| ensures front[i] != id {
          assert front[i] == sel[i];
        }
      }
      WithoutAbsent(front, id);
      assert Without(front, id) + [] == front;
    } else {
      assert id in front by {
        var k :| 0 <= k < |sel| && sel[k] == id;
        assert front[k] == id;
      }
      assert NoDuplicates(front) by {
        forall i, j | 0 <= i < j < |front| ensures front[i] != front[j] {
          assert front[i] == sel[i] && front[j] == sel[j];
        }
      }
      TotalWithout(front, id);
      TotalAppend(Without(front, id), [x]);
      assert [x][..0] == [];
    }
  }

  /** A toggle adds the id's price when it selects and subtracts it when it deselects. */
  lemma TotalToggled(sel: seq<string>, id: string)
    requires NoDuplicates(sel)
    ensures Total(Toggled(sel, id)) == if id in sel then Total(sel) - Price(id) else Total(sel) + Price(id)
  {
    if id in sel {
      TotalWithout(sel, id);
    } else {
      assert (sel + [id])[..|sel|] == sel;
    }
  }

  /** `selectedServices.map(id => cat.find(s => s.id === id)?.name).filter(Boolean)` */
  function SelectedNames(cat: seq<Treatment>, sel: seq<string>): seq<string>
  {
    if sel == [] then []
    else
      var t := Find(cat, sel[|sel| - 1]);
      SelectedNames(cat, sel[..|sel| - 1]) + (if t.Some? && t.value.name != "" then [t.value.name] else [])
  }

  /** Every id of the selection is in the catalogue. */
  predicate AllKnown(cat: seq<Treatment>, sel: seq<string>)
  {
    forall i :: 0 <= i < |sel| ==> Find(cat, sel[i]).Some?
  }

  /** In a catalogue without empty names, `filter(Boolean)` keeps every found name. */
  lemma FoundNameNonEmpty(cat: seq<Treatment>, id: string)
    requires forall i :: 0 <= i < |cat| ==> cat[i].name != ""
    ensures Find(cat, id).Some? ==> Find(cat, id).value.name != ""
  {
  }

  /** With only catalogue ids selected, the names are one per id, in selection order. */
  lemma {:induction false} SelectedNamesOnePerId(cat: seq<Treatment>, sel: seq<string>)
    requires forall i :: 0 <= i < |cat| ==> cat[i].name != ""
    requires AllKnown(cat, sel)
    ensures |SelectedNames(cat, sel)| == |sel|
    ensures forall i :: 0 <= i < |sel| ==> SelectedNames(cat, sel)[i] == Find(cat, sel[i]).value.name
    decreases |sel|
  {
    if sel != [] {
      var front, x := sel[..|sel| - 1], sel[|sel| - 1];
      assert AllKnown(cat, front) by {
        forall i | 0 <= i < |front| ensures Find(cat, front[i]).Some? {
          assert front[i] == sel[i];
        }
      }
      SelectedNamesOnePerId(cat, front);
      assert Find(cat, x).Some?;
      FoundNameNonEmpty(cat, x);
      var name := Find(cat, x).value.name;
      assert SelectedNames(cat, sel) == SelectedNames(cat, front) + [name];
      forall i | 0 <= i < |sel| ensures SelectedNames(cat, sel)[i] == Find(cat, sel[i]).value.name {
        if i < |front| {
          assert sel[i] == front[i];
        }
      }
    }
  }

  /** What the calculator passes to `onReportSubmit`. */
  datatype Handoff = Handoff(selectedServiceNames: seq<string>, total: int)

  class Calculator {
    var selectedServices: seq<string>

    constructor ()
      ensures selectedServices == []
    {
      selectedServices := [];
    }

    /** `handleServiceToggle` */
    method HandleServiceToggle(serviceId: string)
      modifies this
      ensures selectedServices == Toggled(old(selectedServices), serviceId)
      ensures NoDuplicates(old(selectedServices)) ==> NoDuplicates(selectedServices)
    {
      if NoDuplicates(selectedServices) {
        ToggleKeepsNoDuplicates(selectedServices, serviceId);
      }
      if serviceId in selectedServices {
        selectedServices := Without(selectedServices, serviceId);
      } else {
        selectedServices := selectedServices + [serviceId];
      }
    }

    /** `total` */
    function CurrentTotal(): int
      reads this
    {
      Total(selectedServices)
    }

    /**
     * `handleReportSubmit`: nothing when the selection is empty, otherwise
     * the selected names in selection order and the total.
     */
    method HandleReportSubmit() returns (handoff: Option<Handoff>)
      ensures selectedServices == [] <==> handoff.None?
      ensures handoff.Some? ==> handoff.value == Handoff(SelectedNames(Catalogue, selectedServices), Total(selectedServices))
      ensures handoff.Some? && AllKnown(Catalogue, selectedServices) ==>
        |handoff.value.selectedServiceNames| == |selectedServices|
    {
      if |selectedServices| > 0 {
        if AllKnown(Catalogue, selectedServices) {
          CatalogueWellFormed();
          SelectedNamesOnePerId(Catalogue, selectedServices);
        }
        handoff := Some(Handoff(SelectedNames(Catalogue, selectedServices), CurrentTotal()));
      } else {
        handoff := None;
      }
    }
  }
}
