/**
 * Values and records as the contact store keeps them.
 *
 * A stored contact is a JSON-like dictionary from field names to values.
 * The store itself only ever looks at one field, "contact_id", which it
 * stamps on every record it creates and compares when it searches.
 * This module holds the value-level meaning of the store's operations;
 * the store class in module ContactStore is specified against it.
 */
module ContactRecords {

  /** A JSON-like payload value: the JSON shapes the model keeps (no booleans or floats). */
  datatype Value =
    | IntV(i: int)
    | StrV(s: string)
    | NoneV
    | ListV(items: seq<Value>)
    | DictV(fields: map<string, Value>)

  /** One contact: a field-name to value dictionary. */
  type Record = map<string, Value>

  /** The field the store stamps on creation and searches by. */
  const ContactIdKey: string := "contact_id"

  datatype Option<T> = None | Some(value: T)

  /** The 404 raised when no stored record carries the requested id. */
  datatype Error = NotFound(contactId: Value)

  datatype Result<T> = Ok(value: T) | Err(error: Error)

  /** Outcome of an operation that returns nothing on success. */
  datatype Outcome = Pass | Fail(error: Error)

  /** The comparison made by get's loop: the record's "contact_id" equals the key. */
  predicate Matches(rec: Record, contactId: Value)
  {
    ContactIdKey in rec && rec[ContactIdKey] == contactId
  }

  /**
   * The position of the first record, in list order, whose "contact_id"
   * equals `contactId`; None when there is none. This is what get finds.
   */
  function FirstMatch(cs: seq<Record>, contactId: Value): (r: Option<nat>)
    ensures r.Some? ==> r.value < |cs| && Matches(cs[r.value], contactId)
    ensures r.Some? ==> forall j :: 0 <= j < r.value ==> !Matches(cs[j], contactId)
    ensures r.None? <==> forall j :: 0 <= j < |cs| ==> !Matches(cs[j], contactId)
  {
    if cs == [] then None
    else if Matches(cs[0], contactId) then Some(0)
    else
      match FirstMatch(cs[1..], contactId)
      case None =>
        assert forall j :: 1 <= j < |cs| ==> cs[j] == cs[1..][j - 1];
        None
      case Some(i) =>
        assert forall j :: 1 <= j <= i ==> cs[j] == cs[1..][j - 1];
        Some(i + 1)
  }

  /** Any position that matches is at or after the first match. */
  lemma FirstMatchIsLeast(cs: seq<Record>, contactId: Value, j: nat)
    requires j < |cs| && Matches(cs[j], contactId)
    ensures FirstMatch(cs, contactId).Some? && FirstMatch(cs, contactId).value <= j
  {
  }

  /**
   * Python's dict.update, right-biased: every key of `data` takes its value
   * from `data`, every other key of `rec` keeps its value, nothing is removed.
   */
  function Merge(rec: Record, data: Record): (r: Record)
    ensures r.Keys == rec.Keys + data.Keys
    ensures forall k :: k in data ==> r[k] == data[k]
    ensures forall k :: k in rec && k !in data ==> r[k] == rec[k]
  {
    rec + data
  }

  /**
   * The record create stores: the payload with "contact_id" set to `id`
   * (overwriting any "contact_id" the payload carried) and every other
   * field as given.
   */
  function Stamp(data: Record, id: int): (r: Record)
    ensures r.Keys == data.Keys + {ContactIdKey}
    ensures r[ContactIdKey] == IntV(id)
    ensures forall k :: k in data && k != ContactIdKey ==> r[k] == data[k]
  {
    data[ContactIdKey := IntV(id)]
  }

  /**
   * Python's list.remove(x): drop the first element equal (by value) to `x`.
   * The source only calls it with an element that is in the list.
   */
  function RemoveFirst<T(==)>(cs: seq<T>, x: T): (r: seq<T>)
    requires x in cs
    ensures |r| == |cs| - 1
    ensures multiset(r) == multiset(cs) - multiset{x}
  {
    assert cs == [cs[0]] + cs[1..];
    if cs[0] == x then cs[1..] else [cs[0]] + RemoveFirst(cs[1..], x)
  }

  /**
   * When position i holds the first copy of `x`, list.remove takes out
   * exactly position i and keeps the others in their order.
   */
  lemma {:induction false} RemoveFirstAt<T>(cs: seq<T>, x: T, i: nat)
    requires i < |cs| && cs[i] == x
    requires forall j :: 0 <= j < i ==> cs[j] != x
    ensures RemoveFirst(cs, x) == cs[..i] + cs[i + 1..]
  {
    if i == 0 {
      assert cs[..0] + cs[1..] == cs[1..];
    } else {
      var tail := cs[1..];
      forall j | 0 <= j < i - 1
        ensures tail[j] != x
      {
        assert tail[j] == cs[j + 1];
      }
      RemoveFirstAt(tail, x, i - 1);
      assert cs[0] != x;
      assert RemoveFirst(cs, x) == [cs[0]] + (tail[..i - 1] + tail[i..]);
      SpliceAfterHead(cs, i);
    }
  }

  /** Putting the head back in front of the tail with one element cut out. */
  lemma SpliceAfterHead<T>(cs: seq<T>, i: nat)
    requires 0 < i < |cs|
    ensures [cs[0]] + (cs[1..][..i - 1] + cs[1..][i..]) == cs[..i] + cs[i + 1..]
  {
    assert cs[1..][..i - 1] == cs[1..i];
    assert cs[1..][i..] == cs[i + 1..];
    assert [cs[0]] + cs[1..i] == cs[..i];
  }

  /** Removing the first record with a given id is removing what get finds. */
  lemma RemoveFirstMatch(cs: seq<Record>, contactId: Value)
    requires FirstMatch(cs, contactId).Some?
    ensures cs[FirstMatch(cs, contactId).value] in cs
    ensures RemoveFirst(cs, cs[FirstMatch(cs, contactId).value])
         == cs[..FirstMatch(cs, contactId).value] + cs[FirstMatch(cs, contactId).value + 1..]
  {
    var i := FirstMatch(cs, contactId).value;
    forall j | 0 <= j < i
      ensures cs[j] != cs[i]
    {
      assert !Matches(cs[j], contactId);
    }
    RemoveFirstAt(cs, cs[i], i);
  }

  // ---------------------------------------------------------------------
  // The id discipline create maintains
  // ---------------------------------------------------------------------

  predicate HasIntId(rec: Record)
  {
    ContactIdKey in rec && rec[ContactIdKey].IntV?
  }

  /** The integer id of a record (0 for a record without one). */
  function IdOf(rec: Record): (id: int)
  {
    if HasIntId(rec) then rec[ContactIdKey].i else 0
  }

  /**
   * The shape create builds from an empty list and a zero counter: the
   * counter is not negative, every record's "contact_id" is an integer
   * between 1 and the counter, and ids strictly increase with list position.
   */
  predicate IdsAscending(cs: seq<Record>, counter: int)
  {
    && 0 <= counter
    && (forall i :: 0 <= i < |cs| ==> HasIntId(cs[i]) && 1 <= IdOf(cs[i]) <= counter)
    && (forall i, j :: 0 <= i < j < |cs| ==> IdOf(cs[i]) < IdOf(cs[j]))
  }

  /** Under the id discipline no two records share an id. */
  lemma AscendingIdsDistinct(cs: seq<Record>, counter: int, i: nat, j: nat)
    requires IdsAscending(cs, counter)
    requires i < |cs| && j < |cs| && i != j
    ensures cs[i][ContactIdKey] != cs[j][ContactIdKey]
  {
    if i < j {
      assert IdOf(cs[i]) < IdOf(cs[j]);
    } else {
      assert IdOf(cs[j]) < IdOf(cs[i]);
    }
  }

  /** Under the id discipline the record get finds is the only one with that id. */
  lemma AscendingMatchIsUnique(cs: seq<Record>, counter: int, contactId: Value, j: nat)
    requires IdsAscending(cs, counter)
    requires FirstMatch(cs, contactId).Some?
    requires j < |cs| && j != FirstMatch(cs, contactId).value
    ensures !Matches(cs[j], contactId)
  {
    AscendingIdsDistinct(cs, counter, j, FirstMatch(cs, contactId).value);
  }

  /** Appending a freshly stamped record keeps the discipline, with the counter bumped. */
  lemma CreateKeepsIdsAscending(cs: seq<Record>, counter: int, data: Record)
    requires IdsAscending(cs, counter)
    ensures IdsAscending(cs + [Stamp(data, counter + 1)], counter + 1)
  {
    var cs' := cs + [Stamp(data, counter + 1)];
    forall i | 0 <= i < |cs'|
      ensures HasIntId(cs'[i]) && 1 <= IdOf(cs'[i]) <= counter + 1
      ensures i < |cs| ==> IdOf(cs'[i]) <= counter
    {
      if i < |cs| {
        assert cs'[i] == cs[i];
      }
    }
    forall i, j | 0 <= i < j < |cs'|
      ensures IdOf(cs'[i]) < IdOf(cs'[j])
    {
      if j < |cs| {
        assert cs'[i] == cs[i] && cs'[j] == cs[j];
      }
    }
  }

  /** Removing any one record keeps the discipline. */
  lemma RemoveKeepsIdsAscending(cs: seq<Record>, counter: int, i: nat)
    requires IdsAscending(cs, counter)
    requires i < |cs|
    ensures IdsAscending(cs[..i] + cs[i + 1..], counter)
  {
    var cs' := cs[..i] + cs[i + 1..];
    assert forall k :: 0 <= k < |cs'| ==> cs'[k] == cs[if k < i then k else k + 1];
  }

  /**
   * Merging a payload into one record keeps the discipline when the payload
   * has no "contact_id" or repeats the record's own (the record as get
   * returned it, edited and sent back).
   */
  lemma MergeKeepsIdsAscending(cs: seq<Record>, counter: int, i: nat, data: Record)
    requires IdsAscending(cs, counter)
    requires i < |cs|
    requires ContactIdKey !in data || data[ContactIdKey] == cs[i][ContactIdKey]
    ensures IdsAscending(cs[i := Merge(cs[i], data)], counter)
  {
    var cs' := cs[i := Merge(cs[i], data)];
    assert cs'[i][ContactIdKey] == cs[i][ContactIdKey];
    assert forall k :: 0 <= k < |cs| ==> IdOf(cs'[k]) == IdOf(cs[k]);
  }

  // ---------------------------------------------------------------------
  // What a following get observes
  // ---------------------------------------------------------------------

  /** A get for the id just handed out by create finds the record create appended. */
  lemma GetAfterCreate(cs: seq<Record>, counter: int, data: Record)
    requires IdsAscending(cs, counter)
    ensures FirstMatch(cs + [Stamp(data, counter + 1)], IntV(counter + 1)) == Some(|cs|)
  {
    var cs' := cs + [Stamp(data, counter + 1)];
    var m := |cs|;
    assert Matches(cs'[m], IntV(counter + 1));
    FirstMatchIsLeast(cs', IntV(counter + 1), m);
    NewIdNotYetUsed(cs, counter);
    assert forall j :: 0 <= j < m ==> cs'[j] == cs[j];
  }

  /** Under the id discipline no stored record carries the id after the counter. */
  lemma NewIdNotYetUsed(cs: seq<Record>, counter: int)
    requires IdsAscending(cs, counter)
    ensures forall j :: 0 <= j < |cs| ==> !Matches(cs[j], IntV(counter + 1))
  {
    forall j | 0 <= j < |cs|
      ensures !Matches(cs[j], IntV(counter + 1))
    {
      assert HasIntId(cs[j]) && IdOf(cs[j]) <= counter;
    }
  }

  /**
   * After an update whose payload has no "contact_id" or repeats the key,
   * get finds the merged record at the same place.
   */
  lemma GetAfterUpdate(cs: seq<Record>, contactId: Value, data: Record)
    requires FirstMatch(cs, contactId).Some?
    requires ContactIdKey !in data || data[ContactIdKey] == contactId
    ensures var i := FirstMatch(cs, contactId).value;
      FirstMatch(cs[i := Merge(cs[i], data)], contactId) == Some(i)
  {
    var i := FirstMatch(cs, contactId).value;
    var cs' := cs[i := Merge(cs[i], data)];
    assert Matches(cs'[i], contactId);
    FirstMatchIsLeast(cs', contactId, i);
    assert forall j :: 0 <= j < i ==> cs'[j] == cs[j];
  }

  /** Under the id discipline, after delete a get for the same id is a 404. */
  lemma GetAfterDelete(cs: seq<Record>, counter: int, contactId: Value)
    requires IdsAscending(cs, counter)
    requires FirstMatch(cs, contactId).Some?
    ensures var i := FirstMatch(cs, contactId).value;
      FirstMatch(cs[..i] + cs[i + 1..], contactId).None?
  {
    var i := FirstMatch(cs, contactId).value;
    var cs' := cs[..i] + cs[i + 1..];
    forall k | 0 <= k < |cs'|
      ensures !Matches(cs'[k], contactId)
    {
      var j := if k < i then k else k + 1;
      assert cs'[k] == cs[j];
      AscendingMatchIsUnique(cs, counter, contactId, j);
    }
  }

  /**
   * The HTTP route hands get the id as a string, while create stamps
   * integers: under the id discipline such a lookup never finds anything.
   */
  lemma StringIdNeverFound(cs: seq<Record>, counter: int, s: string)
    requires IdsAscending(cs, counter)
    ensures FirstMatch(cs, StrV(s)).None?
  {
    forall j | 0 <= j < |cs|
      ensures !Matches(cs[j], StrV(s))
    {
      assert HasIntId(cs[j]);
    }
  }

  /**
   * Under the id discipline, an update whose payload carries a
   * "contact_id" different from the key re-keys the record: a following
   * get of the key is a 404.
   */
  lemma UpdateToOtherIdLosesKey(cs: seq<Record>, counter: int, contactId: Value, data: Record)
    requires IdsAscending(cs, counter)
    requires FirstMatch(cs, contactId).Some?
    requires ContactIdKey in data && data[ContactIdKey] != contactId
    ensures var i := FirstMatch(cs, contactId).value;
      FirstMatch(cs[i := Merge(cs[i], data)], contactId).None?
  {
    var i := FirstMatch(cs, contactId).value;
    var cs' := cs[i := Merge(cs[i], data)];
    forall k | 0 <= k < |cs'|
      ensures !Matches(cs'[k], contactId)
    {
      if k != i {
        assert cs'[k] == cs[k];
        AscendingMatchIsUnique(cs, counter, contactId, k);
      }
    }
  }

  /**
   * update does not protect "contact_id": a payload that carries another
   * id re-keys the record. Two created records with ids 1 and 2, then an
   * update of id 2 with {"contact_id": 1}, leave id 2 unreachable and make
   * the second record invisible to get.
   */
  lemma UpdateCanRekey()
    ensures var cs := [Stamp(map[], 1), Stamp(map[], 2)];
      var i := FirstMatch(cs, IntV(2)).value;
      var cs' := cs[i := Merge(cs[i], map[ContactIdKey := IntV(1)])];
      && IdsAscending(cs, 2)
      && !IdsAscending(cs', 2)
      && FirstMatch(cs', IntV(2)).None?
      && FirstMatch(cs', IntV(1)) == Some(0)
  {
    var cs := [Stamp(map[], 1), Stamp(map[], 2)];
    assert FirstMatch(cs, IntV(2)) == Some(1) by {
      assert !Matches(cs[0], IntV(2));
      FirstMatchIsLeast(cs, IntV(2), 1);
    }
    var cs' := cs[1 := Merge(cs[1], map[ContactIdKey := IntV(1)])];
    assert IdOf(cs'[0]) == IdOf(cs'[1]) == 1;
    assert !Matches(cs'[0], IntV(2)) && !Matches(cs'[1], IntV(2));
  }
}
