/** The coin record as far as the view state uses it, and the lookup a row
    click performs. */
module Coins {

  datatype Option<T> = None | Some(value: T)

  /** One market snapshot. Only the fields the controller reads are kept:
      the identifier (the row's `data-coin-id`) and the two searchable
      strings. Prices, market capitalisation and the image are presentation
      data. */
  datatype Coin = Coin(id: string, name: string, symbol: string)

  /** Identifiers are unique within one load, as the market-data service
      delivers them. */
  ghost predicate UniqueIds(s: seq<Coin>) {
    forall i, j :: 0 <= i < |s| && 0 <= j < |s| && s[i].id == s[j].id ==> i == j
  }

  /** `i` is the first position in `s` whose record has identifier `id`. */
  ghost predicate FirstWithId(s: seq<Coin>, id: string, i: int) {
    0 <= i < |s| && s[i].id == id && forall j :: 0 <= j < i ==> s[j].id != id
  }

  /** `s.find(coin => coin.id === id)`: the first record with that
      identifier, or nothing when no record carries it. */
  function FindById(s: seq<Coin>, id: string): (r: Option<Coin>)
    ensures r.None? <==> forall i :: 0 <= i < |s| ==> s[i].id != id
    ensures forall i :: FirstWithId(s, id, i) ==> r == Some(s[i])
  {
    if s == [] then None
    else if s[0].id == id then Some(s[0])
    else
      assert forall i :: FirstWithId(s, id, i) ==> FirstWithId(s[1..], id, i - 1);
      FindById(s[1..], id)
  }

  /** A record that is in the list is always found, and with unique
      identifiers the lookup returns that very record. */
  lemma {:induction false} FindByIdMember(s: seq<Coin>, c: Coin)
    requires c in s
    ensures FindById(s, c.id).Some?
    ensures FindById(s, c.id).value.id == c.id
    ensures UniqueIds(s) ==> FindById(s, c.id) == Some(c)
  {
    if s[0].id != c.id {
      assert c in s[1..];
      FindByIdMember(s[1..], c);
      if UniqueIds(s) {
        assert UniqueIds(s[1..]) by {
          forall i, j | 0 <= i < |s| - 1 && 0 <= j < |s| - 1 && s[1..][i].id == s[1..][j].id
            ensures i == j
          {
            assert s[i + 1].id == s[j + 1].id;
          }
        }
      }
    } else if UniqueIds(s) {
      var k :| 0 <= k < |s| && s[k] == c;
      assert s[k].id == s[0].id;
    }
  }
}
