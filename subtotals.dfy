/** The first half of "Calculate split": every participant's item subtotal,
    gathered into a dictionary keyed by name. A Python dict keeps its keys in
    first-insertion order and assigning to an existing key replaces the value
    in place, so it is modelled as a sequence of entries with distinct names. */
module Subtotals {
  import opened Sums
  import opened Participants

  datatype Option<T> = None | Some(value: T)

  function Prices(items: seq<Item>): seq<real> {
    seq(|items|, i requires 0 <= i < |items| => items[i].price)
  }

  /** `sum(prices) if items else 0.0`. */
  function ItemSubtotal(p: Participant): real {
    if p.items == [] then 0.0 else Sum(Prices(p.items))
  }

  /** Adding an item adds its price to the owner's subtotal. */
  lemma ItemSubtotalAppend(p: Participant, it: Item)
    ensures ItemSubtotal(p.(items := p.items + [it])) == ItemSubtotal(p) + it.price
  {
    assert Prices(p.items + [it]) == Prices(p.items) + [it.price];
    SumAppend(Prices(p.items), it.price);
    if p.items == [] {
      assert Prices(p.items) == [];
    }
  }

  /** Prices entered through the form give a subtotal that is not negative. */
  lemma ItemSubtotalNonNegative(p: Participant)
    requires PricesNonNegative(p)
    ensures ItemSubtotal(p) >= 0.0
  {
    SumNonNegative(Prices(p.items));
  }

  /** One `name: subtotal` pair of the `subtotals` dictionary. */
  datatype Entry = Entry(name: string, subtotal: real)

  function Names(d: seq<Entry>): seq<string> {
    seq(|d|, i requires 0 <= i < |d| => d[i].name)
  }

  function EntrySubtotals(d: seq<Entry>): seq<real> {
    seq(|d|, i requires 0 <= i < |d| => d[i].subtotal)
  }

  function RosterNames(roster: seq<Participant>): seq<string> {
    seq(|roster|, i requires 0 <= i < |roster| => roster[i].name)
  }

  predicate Distinct(names: seq<string>) {
    forall i, j :: 0 <= i < j < |names| ==> names[i] != names[j]
  }

  /** `subtotals.get(name)`. */
  function Lookup(d: seq<Entry>, name: string): Option<real> {
    if d == [] then None
    else if d[0].name == name then Some(d[0].subtotal)
    else Lookup(d[1..], name)
  }

  /** In a dictionary without repeated keys, every entry is what a lookup of
      its own name finds. */
  lemma {:induction false} LookupDistinct(d: seq<Entry>, i: nat)
    requires Distinct(Names(d))
    requires i < |d|
    ensures Lookup(d, d[i].name) == Some(d[i].subtotal)
  {
    if i > 0 {
      assert Names(d)[0] != Names(d)[i];
      assert Names(d[1..]) == Names(d)[1..];
      LookupDistinct(d[1..], i - 1);
    }
  }

  /** `subtotals[name] = v`: a name already present has its value replaced
      where it stands (at its first, and in a dictionary its only, position),
      a new name is appended at the end. */
  function Put(d: seq<Entry>, name: string, v: real): (r: seq<Entry>)
    ensures name in Names(d) ==> r == d[FirstIndex(Names(d), name) := Entry(name, v)]
    ensures name !in Names(d) ==> r == d + [Entry(name, v)]
  {
    if d == [] then [Entry(name, v)]
    else if d[0].name == name then
      assert Names(d)[0] == name;
      [Entry(name, v)] + d[1..]
    else
      var tail := Put(d[1..], name, v);
      assert Names(d) == [d[0].name] + Names(d[1..]);
      assert Names(d)[1..] == Names(d[1..]);
      [d[0]] + tail
  }

  /** Replacing a value in place keeps the keys and their order. */
  lemma PutKeepsNames(d: seq<Entry>, name: string, v: real)
    requires name in Names(d)
    ensures Names(Put(d, name, v)) == Names(d)
  {
    var i := FirstIndex(Names(d), name);
    assert forall j :: 0 <= j < |d| ==> Names(Put(d, name, v))[j] == Names(d)[j];
  }

  /** After `subtotals[name] = v`, `name` maps to `v` and every other name
      to what it mapped to before. */
  lemma {:induction false} PutLookup(d: seq<Entry>, name: string, v: real, n: string)
    ensures Lookup(Put(d, name, v), n) == if n == name then Some(v) else Lookup(d, n)
  {
    if d != [] && d[0].name != name {
      PutLookup(d[1..], name, v, n);
      assert Put(d, name, v)[1..] == Put(d[1..], name, v);
    } else if d != [] {
      assert Put(d, name, v)[1..] == d[1..];
    }
  }

  /** The `subtotals` dictionary after the loop over the whole roster. */
  function Aggregate(roster: seq<Participant>): seq<Entry> {
    if roster == [] then []
    else
      var last := roster[|roster| - 1];
      Put(Aggregate(roster[..|roster| - 1]), last.name, ItemSubtotal(last))
  }

  /** `sum(subtotals.values())`. */
  function TotalItems(d: seq<Entry>): real {
    Sum(EntrySubtotals(d))
  }

  /** The loop at the top of "Calculate split": builds the dictionary one
      participant at a time, in roster order. */
  method AggregateSubtotals(roster: seq<Participant>) returns (subtotals: seq<Entry>)
    ensures subtotals == Aggregate(roster)
  {
    subtotals := [];
    var i := 0;
    while i < |roster|
      invariant 0 <= i <= |roster|
      invariant subtotals == Aggregate(roster[..i])
    {
      var p := roster[i];
      var subtotal := if p.items != [] then Sum(Prices(p.items)) else 0.0;
      assert roster[..i + 1][..i] == roster[..i];
      subtotals := Put(subtotals, p.name, subtotal);
      i := i + 1;
    }
    assert roster[..i] == roster;
  }

  lemma RosterNamesPrefix(roster: seq<Participant>)
    requires roster != []
    ensures RosterNames(roster) == RosterNames(roster[..|roster| - 1]) + [roster[|roster| - 1].name]
  {
  }

  /** The dictionary has one key per distinct roster name, and no key twice. */
  lemma {:induction false} AggregateKeys(roster: seq<Participant>)
    ensures Distinct(Names(Aggregate(roster)))
    ensures forall n :: n in Names(Aggregate(roster)) <==> n in RosterNames(roster)
  {
    if roster != [] {
      var init := roster[..|roster| - 1];
      var last := roster[|roster| - 1];
      AggregateKeys(init);
      RosterNamesPrefix(roster);
      var d := Aggregate(init);
      if last.name !in Names(d) {
        assert Names(d + [Entry(last.name, ItemSubtotal(last))]) == Names(d) + [last.name];
      } else {
        PutKeepsNames(d, last.name, ItemSubtotal(last));
      }
    }
  }

  /** Later duplicates overwrite: the value stored under a name is the
      subtotal of the LAST participant with that name. */
  lemma {:induction false} AggregateLastWins(roster: seq<Participant>, k: nat)
    requires k < |roster|
    requires forall j :: k < j < |roster| ==> roster[j].name != roster[k].name
    ensures Lookup(Aggregate(roster), roster[k].name) == Some(ItemSubtotal(roster[k]))
  {
    var init := roster[..|roster| - 1];
    var last := roster[|roster| - 1];
    PutLookup(Aggregate(init), last.name, ItemSubtotal(last), roster[k].name);
    if k < |roster| - 1 {
      AggregateLastWins(init, k);
    }
  }

  /** Position of the first occurrence of `n` in `names`. */
  function FirstIndex(names: seq<string>, n: string): (i: nat)
    requires n in names
    ensures i < |names| && names[i] == n
    ensures forall j :: 0 <= j < i ==> names[j] != n
  {
    if names[0] == n then 0 else 1 + FirstIndex(names[1..], n)
  }

  lemma FirstIndexExtend(names: seq<string>, x: string, n: string)
    requires n in names
    ensures FirstIndex(names + [x], n) == FirstIndex(names, n)
  {
    var i := FirstIndex(names, n);
    var k := FirstIndex(names + [x], n);
    assert (names + [x])[i] == n;
  }

  lemma FirstIndexNew(names: seq<string>, x: string)
    requires x !in names
    ensures FirstIndex(names + [x], x) == |names|
  {
  }

  /** A replaced value keeps its first position: the keys are in the order
      in which their names first appear in the roster. */
  lemma {:induction false} AggregateFirstSeenOrder(roster: seq<Participant>)
    ensures forall n :: n in Names(Aggregate(roster)) ==> n in RosterNames(roster)
    ensures forall i, j :: 0 <= i < j < |Names(Aggregate(roster))| ==>
              FirstIndex(RosterNames(roster), Names(Aggregate(roster))[i])
              < FirstIndex(RosterNames(roster), Names(Aggregate(roster))[j])
  {
    AggregateKeys(roster);
    if roster != [] {
      var init := roster[..|roster| - 1];
      var last := roster[|roster| - 1];
      var d := Aggregate(init);
      var r := Aggregate(roster);
      var ns := RosterNames(init);
      AggregateFirstSeenOrder(init);
      RosterNamesPrefix(roster);
      assert RosterNames(roster) == ns + [last.name];
      forall i | 0 <= i < |d|
        ensures Names(d)[i] in ns
        ensures FirstIndex(RosterNames(roster), Names(d)[i]) == FirstIndex(ns, Names(d)[i]) < |ns|
      {
        assert Names(d)[i] in Names(d);
        FirstIndexExtend(ns, last.name, Names(d)[i]);
      }
      if last.name !in Names(d) {
        AggregateKeys(init);
        FirstIndexNew(ns, last.name);
        assert Names(r) == Names(d) + [last.name];
      } else {
        PutKeepsNames(d, last.name, ItemSubtotal(last));
      }
    }
  }

  /** The dictionary has as many entries as the roster exactly when no two
      participants share a name; otherwise it is shorter. */
  lemma {:induction false} AggregateSize(roster: seq<Participant>)
    ensures |Aggregate(roster)| <= |roster|
    ensures |Aggregate(roster)| == |roster| <==> Distinct(RosterNames(roster))
  {
    if roster != [] {
      var init := roster[..|roster| - 1];
      var last := roster[|roster| - 1];
      var d := Aggregate(init);
      AggregateSize(init);
      AggregateKeys(init);
      RosterNamesPrefix(roster);
      var ns := RosterNames(roster);
      if Distinct(ns) {
        assert Distinct(RosterNames(init)) by {
          assert forall i :: 0 <= i < |init| ==> RosterNames(init)[i] == ns[i];
        }
        forall i | 0 <= i < |init| ensures RosterNames(init)[i] != last.name {
          assert ns[i] != ns[|init|];
        }
      }
      if |Aggregate(roster)| == |roster| {
        assert last.name !in Names(d);
        assert Distinct(RosterNames(init));
        assert last.name !in RosterNames(init);
        forall i, j | 0 <= i < j < |ns| ensures ns[i] != ns[j] {
          if j < |init| {
            assert ns[i] == RosterNames(init)[i] && ns[j] == RosterNames(init)[j];
          } else {
            assert ns[i] == RosterNames(init)[i];
          }
        }
      }
    }
  }

  /** Every participant's own name and subtotal, in roster order. */
  function OwnEntries(roster: seq<Participant>): seq<Entry> {
    seq(|roster|, i requires 0 <= i < |roster| => Entry(roster[i].name, ItemSubtotal(roster[i])))
  }

  /** With distinct names nothing is overwritten: entry `i` is participant
      `i`'s own subtotal. */
  lemma {:induction false} AggregateDistinctNames(roster: seq<Participant>)
    requires Distinct(RosterNames(roster))
    ensures Aggregate(roster) == OwnEntries(roster)
  {
    if roster != [] {
      var init := roster[..|roster| - 1];
      var last := roster[|roster| - 1];
      var ns := RosterNames(roster);
      RosterNamesPrefix(roster);
      forall i | 0 <= i < |init| ensures RosterNames(init)[i] != last.name {
        assert ns[i] != ns[|init|];
      }
      assert Distinct(RosterNames(init)) by {
        assert forall i :: 0 <= i < |init| ==> RosterNames(init)[i] == ns[i];
      }
      AggregateDistinctNames(init);
      var d := Aggregate(init);
      assert Names(d) == RosterNames(init);
      assert last.name !in Names(d);
      assert Aggregate(roster) == d + [Entry(last.name, ItemSubtotal(last))];
      OwnEntriesPrefix(roster);
    }
  }

  lemma OwnEntriesPrefix(roster: seq<Participant>)
    requires roster != []
    ensures var last := roster[|roster| - 1];
      OwnEntries(roster) == OwnEntries(roster[..|roster| - 1]) + [Entry(last.name, ItemSubtotal(last))]
  {
    var init := roster[..|roster| - 1];
    assert forall i :: 0 <= i < |init| ==> init[i] == roster[i];
  }

  /** With distinct names the items total is the sum of every participant's
      subtotal. */
  lemma TotalItemsDistinct(roster: seq<Participant>)
    requires Distinct(RosterNames(roster))
    ensures TotalItems(Aggregate(roster)) == Sum(seq(|roster|, i requires 0 <= i < |roster| => ItemSubtotal(roster[i])))
  {
    AggregateDistinctNames(roster);
    assert EntrySubtotals(OwnEntries(roster)) == seq(|roster|, i requires 0 <= i < |roster| => ItemSubtotal(roster[i]));
  }

  /** When every price is non-negative, so is every stored subtotal. */
  lemma {:induction false} AggregateNonNegative(roster: seq<Participant>)
    requires forall i :: 0 <= i < |roster| ==> PricesNonNegative(roster[i])
    ensures AllNonNegative(EntrySubtotals(Aggregate(roster)))
  {
    if roster != [] {
      var init := roster[..|roster| - 1];
      var last := roster[|roster| - 1];
      AggregateNonNegative(init);
      ItemSubtotalNonNegative(last);
      var d := Aggregate(init);
      var r := Aggregate(roster);
      forall i | 0 <= i < |r| ensures EntrySubtotals(r)[i] >= 0.0 {
        if i < |d| && r[i] == d[i] {
          assert EntrySubtotals(d)[i] == d[i].subtotal;
        }
      }
    }
  }

  /** With non-negative prices the items total is zero exactly when every
      stored subtotal is zero, and it is never negative. */
  lemma TotalItemsZero(roster: seq<Participant>)
    requires forall i :: 0 <= i < |roster| ==> PricesNonNegative(roster[i])
    ensures TotalItems(Aggregate(roster)) >= 0.0
    ensures TotalItems(Aggregate(roster)) == 0.0 <==>
              forall i :: 0 <= i < |Aggregate(roster)| ==> Aggregate(roster)[i].subtotal == 0.0
  {
    var d := Aggregate(roster);
    AggregateNonNegative(roster);
    SumNonNegative(EntrySubtotals(d));
    SumZero(EntrySubtotals(d));
    assert forall i :: 0 <= i < |d| ==> EntrySubtotals(d)[i] == d[i].subtotal;
  }

  /** Nobody has entered an item: the items total is zero. */
  lemma {:induction false} NoItemsTotalZero(roster: seq<Participant>)
    requires forall i :: 0 <= i < |roster| ==> roster[i].items == []
    ensures TotalItems(Aggregate(roster)) == 0.0
  {
    var d := Aggregate(roster);
    AggregateKeys(roster);
    forall i | 0 <= i < |d| ensures d[i].subtotal == 0.0 {
      assert Names(d)[i] in Names(d);
      LookupDistinct(d, i);
      var k := LastWithName(roster, d[i].name);
      AggregateLastWins(roster, k);
    }
    SumConstant(EntrySubtotals(d), 0.0);
  }

  /** Index of the last participant called `n`. */
  function LastWithName(roster: seq<Participant>, n: string): (k: nat)
    requires n in RosterNames(roster)
    ensures k < |roster| && roster[k].name == n
    ensures forall j :: k < j < |roster| ==> roster[j].name != n
  {
    if roster[|roster| - 1].name == n then |roster| - 1
    else
      RosterNamesPrefix(roster);
      LastWithName(roster[..|roster| - 1], n)
  }
}
