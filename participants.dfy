/** The roster the page keeps between clicks: participants, each with the
    items they ordered, and the four edits the forms and buttons make to it. */
module Participants {
  import opened Text

  /** One `[name, price]` pair of a participant's item list. */
  datatype Item = Item(name: string, price: real)

  /** One `{"name": ..., "items": [...]}` entry of the roster. */
  datatype Participant = Participant(name: string, items: seq<Item>)

  /** A name the forms accept and store: non-empty and already stripped. */
  predicate StoredName(s: string) {
    s != [] && Strip(s) == s
  }

  /** Every price was entered through a number field whose minimum is 0. */
  predicate PricesNonNegative(p: Participant) {
    forall i :: 0 <= i < |p.items| ==> p.items[i].price >= 0.0
  }

  predicate WellFormed(p: Participant) {
    && StoredName(p.name)
    && (forall i :: 0 <= i < |p.items| ==> StoredName(p.items[i].name))
    && PricesNonNegative(p)
  }

  lemma AppendKeepsWellFormed(p: Participant, it: Item)
    requires WellFormed(p) && StoredName(it.name) && it.price >= 0.0
    ensures WellFormed(p.(items := p.items + [it]))
  {
    var q := p.(items := p.items + [it]);
    assert forall i :: 0 <= i < |p.items| ==> q.items[i] == p.items[i];
  }

  predicate AllWellFormed(ps: seq<Participant>) {
    forall i :: 0 <= i < |ps| ==> WellFormed(ps[i])
  }

  /** Every price in a roster the forms built is non-negative. */
  lemma FormPricesNonNegative(ps: seq<Participant>)
    requires AllWellFormed(ps)
    ensures forall i :: 0 <= i < |ps| ==> PricesNonNegative(ps[i])
  {
  }

  lemma AppendKeepsAllWellFormed(ps: seq<Participant>, p: Participant)
    requires AllWellFormed(ps) && WellFormed(p)
    ensures AllWellFormed(ps + [p])
  {
    assert forall i :: 0 <= i < |ps| ==> (ps + [p])[i] == ps[i];
  }

  lemma UpdateKeepsAllWellFormed(ps: seq<Participant>, idx: nat, p: Participant)
    requires AllWellFormed(ps) && WellFormed(p) && idx < |ps|
    ensures AllWellFormed(ps[idx := p])
  {
  }

  class Roster {
    var participants: seq<Participant>

    /** What the forms guarantee about everything they ever stored. */
    ghost predicate Valid()
      reads this
    {
      AllWellFormed(participants)
    }

    /** The session starts with no participants. */
    constructor ()
      ensures Valid() && participants == []
    {
      participants := [];
    }

    /** The "Add" participant form: appends the stripped name with no items
        when it is not blank, and otherwise leaves the roster as it was (the
        page shows a warning instead). */
    method AddParticipant(name: string) returns (added: bool)
      requires Valid()
      modifies this
      ensures Valid()
      ensures added <==> !AllSpace(name)
      ensures added ==> participants == old(participants) + [Participant(Strip(name), [])]
      ensures !added ==> participants == old(participants)
    {
      added := name != [] && Strip(name) != [];
      if added {
        StripIdempotent(name);
        AppendKeepsAllWellFormed(participants, Participant(Strip(name), []));
        participants := participants + [Participant(Strip(name), [])];
      }
    }

    /** The per-participant "Add" item form: appends `[strip(itemName), price]`
        to participant `idx` when the item name is not blank; every other
        participant, and the order, stay as they were. */
    method AddItem(idx: nat, itemName: string, price: real) returns (added: bool)
      requires Valid()
      requires idx < |participants|
      requires price >= 0.0
      modifies this
      ensures Valid()
      ensures added <==> !AllSpace(itemName)
      ensures |participants| == |old(participants)|
      ensures participants[idx].name == old(participants)[idx].name
      ensures participants[idx].items ==
                if added then old(participants)[idx].items + [Item(Strip(itemName), price)]
                else old(participants)[idx].items
      ensures forall j :: 0 <= j < |participants| && j != idx ==> participants[j] == old(participants)[j]
    {
      added := itemName != [] && Strip(itemName) != [];
      if added {
        var item := Item(Strip(itemName), price);
        StripIdempotent(itemName);
        var p := participants[idx];
        var q := p.(items := p.items + [item]);
        AppendKeepsWellFormed(p, item);
        UpdateKeepsAllWellFormed(participants, idx, q);
        participants := participants[idx := q];
      }
    }

    /** The "Remove" button: `participants.pop(idx)` deletes exactly entry
        `idx`; the ones before it keep their places and the ones after it
        move up by one. */
    method Remove(idx: nat)
      requires Valid()
      requires idx < |participants|
      modifies this
      ensures Valid()
      ensures participants == old(participants)[..idx] + old(participants)[idx + 1..]
      ensures |participants| == |old(participants)| - 1
      ensures forall j :: 0 <= j < idx ==> participants[j] == old(participants)[j]
      ensures forall j :: idx <= j < |participants| ==> participants[j] == old(participants)[j + 1]
    {
      participants := participants[..idx] + participants[idx + 1..];
    }

    /** The "Clear items" button: empties the item list of participant
        `idx` and changes nothing else. */
    method ClearItems(idx: nat)
      requires Valid()
      requires idx < |participants|
      modifies this
      ensures Valid()
      ensures |participants| == |old(participants)|
      ensures participants[idx] == Participant(old(participants)[idx].name, [])
      ensures forall j :: 0 <= j < |participants| && j != idx ==> participants[j] == old(participants)[j]
    {
      var p := participants[idx];
      UpdateKeepsAllWellFormed(participants, idx, p.(items := []));
      participants := participants[idx := p.(items := [])];
    }
  }
}
