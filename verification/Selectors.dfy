/**
 The selector list of a query: appending to a slice that the package shares.  A slice is
 a prefix of a backing array; appending writes in place when the array has room.
 */
module Selectors {

  const PK := "Id"
  const ALL_FIELDS := "Fields(standard)"

  datatype Slice = Slice(data: array<string>, len: nat) {
    predicate Fits() {
      len <= data.Length
    }

    /** Length equals capacity, as for every slice literal and every literal argument list. */
    predicate Full() {
      len == data.Length
    }

    function Elements(): seq<string>
      requires Fits()
      reads data
    {
      data[..len]
    }
  }

  /** Go's append: in place exactly when there is room, else into a new array of any larger size. */
  method Append(s: Slice, x: string, spare: nat) returns (r: Slice)
    requires s.Fits()
    modifies if s.Full() then {} else {s.data}
    ensures r.Fits() && r.Elements() == old(s.Elements()) + [x]
    ensures s.Full() ==> fresh(r.data)
    ensures !s.Full() ==> r.data == s.data
  {
    if s.len < s.data.Length {
      s.data[s.len] := x;
      return Slice(s.data, s.len + 1);
    }
    var grown := new string[s.len + 1 + spare](_ => "");
    for i := 0 to s.len
      invariant grown[..i] == s.data[..i]
    {
      grown[i] := s.data[i];
    }
    grown[s.len] := x;
    r := Slice(grown, s.len + 1);
  }

  /** The fields that a query selects, as a value. */
  function Selected(given: seq<string>, fields: seq<string>): seq<string> {
    var chosen := if given != [] then given else fields;
    if chosen == ["*"] then [ALL_FIELDS] else chosen + [PK]
  }

  /** The default fields or the given ones, and always the id, except that the wildcard stands for all fields. */
  lemma SelectedMeans(fields: seq<string>, field: string)
    ensures Selected(["*"], fields) == ["Fields(standard)"]
    ensures field != "*" ==> Selected([field], fields) == [field, "Id"]
    ensures fields != ["*"] ==> Selected([], fields) == fields + ["Id"]
    ensures forall given: seq<string> :: |given| > 1 ==> Selected(given, fields) == given + ["Id"]
  {
  }

  class Catalog {
    var tables: map<string, Slice>
    ghost var handedOut: set<array<string>>

    ghost function Arrays(): set<object>
      reads this
    {
      set table | table in tables :: tables[table].data
    }

    /** Full slices, none of them the wildcard, none of them shared with a query. */
    ghost predicate Valid()
      reads this, Arrays()
    {
      forall table :: table in tables ==>
        tables[table].Full() && tables[table].data !in handedOut && tables[table].data[..] != ["*"]
    }

    /** The shared fields of a table; none for a table that is not listed. */
    ghost function Fields(table: string): seq<string>
      reads this, Arrays()
    {
      if table in tables then tables[table].data[..] else []
    }

    /** The query writes into the caller's slice: the wildcard is replaced, or there is room to append. */
    predicate InPlace(selectors: Slice)
      requires selectors.Fits()
      reads selectors.data
    {
      selectors.len > 0 && (selectors.Elements() == ["*"] || !selectors.Full())
    }

    /**
     The query selects the right fields.  It gets an array of its own exactly when it does
     not write into the caller's slice, and it touches no other array: then the shared
     mapping and the selectors of every earlier query stay as they are.  That covers all
     literal argument lists, empty or not, since their arrays belong to nobody else.
     */
    method NewQuery(table: string, selectors: Slice, spare: nat) returns (q: Slice)
      requires Valid() && selectors.Fits()
      modifies this`handedOut, selectors.data
      ensures tables == old(tables) && handedOut == old(handedOut) + {q.data}
      ensures q.Fits() && q.Elements() == Selected(old(selectors.Elements()), old(Fields(table)))
      ensures old(InPlace(selectors)) ==> q.data == selectors.data
      ensures !old(InPlace(selectors)) ==> fresh(q.data) && selectors.data[..] == old(selectors.data[..])
      ensures forall a :: a in old(handedOut) && (a != selectors.data || !old(InPlace(selectors))) ==>
                a[..] == old(a[..])
      ensures forall t :: t in tables && (tables[t].data != selectors.data || !old(InPlace(selectors))) ==>
                Fields(t) == old(Fields(t))
      ensures !old(InPlace(selectors)) || selectors.data !in Arrays() ==> Valid()
    {
      var chosen := selectors;
      if chosen.len == 0 {
        if table in tables {
          chosen := tables[table];
        } else {
          var none := new string[0];
          chosen := Slice(none, 0);
        }
      }
      ghost var content := chosen.Elements();
      if chosen.len == 1 && chosen.data[0] == "*" {
        assert content == ["*"];
        chosen.data[0] := ALL_FIELDS;
        q := chosen;
      } else {
        q := Append(chosen, PK, spare);
      }
      handedOut := handedOut + {q.data};
    }
  }

  /** With room in a shared slice, a second append overwrites what the first query selects. */
  method RoomIsShared(s: Slice, x: string, y: string) returns (first: Slice, second: Slice)
    requires s.Fits() && !s.Full()
    modifies s.data
    ensures first.data == second.data && first.Fits() && first.Elements() == old(s.Elements()) + [y]
  {
    first := Append(s, x, 0);
    second := Append(s, y, 0);
  }
}
