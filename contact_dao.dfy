/**
 * The in-memory contact store: a counter of the last id handed out and a
 * list of contact records, updated in place by create, update and delete
 * and searched by get.
 */
module ContactStore {
  import opened ContactRecords

  class ContactDAO {
    /** The last id handed out by Create. */
    var counter: nat
    /** The stored contacts, in insertion order. */
    var contacts: seq<Record>

    /** Every stored record carries a "contact_id", so get's comparison never misses a key. */
    ghost predicate Valid()
      reads this
    {
      forall rec :: rec in contacts ==> ContactIdKey in rec
    }

    /**
     * The id discipline: ids are integers in 1..counter, strictly increasing
     * with list position. Create and Delete keep it, and so does Update when
     * its payload carries no "contact_id" or repeats the key.
     */
    ghost predicate IdsInOrder()
      reads this
    {
      IdsAscending(contacts, counter)
    }

    /** A fresh store: no contacts, counter at zero. */
    constructor ()
      ensures Valid() && IdsInOrder()
      ensures counter == 0 && contacts == []
    {
      counter := 0;
      contacts := [];
    }

    /**
     * The loop of get: walk the contacts in order and stop at the first
     * whose "contact_id" equals `contactId`. The position returned stands
     * for the stored object that update mutates and delete removes.
     */
    method Locate(contactId: Value) returns (found: Option<nat>)
      requires Valid()
      ensures found == FirstMatch(contacts, contactId)
      ensures found.Some? ==> found.value < |contacts| && Matches(contacts[found.value], contactId)
      ensures found.None? <==> forall j :: 0 <= j < |contacts| ==> !Matches(contacts[j], contactId)
    {
      var i := 0;
      while i < |contacts|
        invariant 0 <= i <= |contacts|
        invariant forall j :: 0 <= j < i ==> !Matches(contacts[j], contactId)
      {
        if contacts[i][ContactIdKey] == contactId {
          FirstMatchIsLeast(contacts, contactId, i);
          return Some(i);
        }
        i := i + 1;
      }
      return None;
    }

    /**
     * get: the first record in list order with the given id, or a 404.
     * Nothing changes either way.
     */
    method Get(contactId: Value) returns (r: Result<Record>)
      requires Valid()
      ensures r.Ok? <==> FirstMatch(contacts, contactId).Some?
      ensures r.Ok? ==> r.value == contacts[FirstMatch(contacts, contactId).value]
      ensures r.Ok? ==> Matches(r.value, contactId) && r.value in contacts
      ensures r.Err? ==> r.error == NotFound(contactId)
    {
      var found := Locate(contactId);
      match found {
        case None =>
          r := Err(NotFound(contactId));
        case Some(i) =>
          r := Ok(contacts[i]);
      }
    }

    /**
     * create: bump the counter, stamp the new value into the payload as
     * "contact_id", append the record and return it.
     */
    method Create(data: Record) returns (rec: Record)
      requires Valid()
      modifies this
      ensures Valid()
      ensures counter == old(counter) + 1
      ensures rec == Stamp(data, counter)
      ensures contacts == old(contacts) + [rec]
      ensures old(IdsInOrder()) ==> IdsInOrder()
      ensures old(IdsInOrder()) ==> FirstMatch(contacts, IntV(counter)) == Some(|contacts| - 1)
    {
      var next := counter + 1;
      rec := Stamp(data, next);
      counter := next;
      ghost var before := contacts;
      contacts := contacts + [rec];
      assert forall i :: 0 <= i < |before| ==> contacts[i] == before[i];
      if IdsAscending(before, counter - 1) {
        CreateKeepsIdsAscending(before, counter - 1, data);
        GetAfterCreate(before, counter - 1, data);
      }
    }

    /**
     * update: look the record up as get does (a 404 changes nothing), then
     * merge the payload into it in place, right-biased, and return it.
     */
    method Update(contactId: Value, data: Record) returns (r: Result<Record>)
      requires Valid()
      modifies this
      ensures Valid()
      ensures counter == old(counter)
      ensures FirstMatch(old(contacts), contactId).None? ==>
        r == Err(NotFound(contactId)) && contacts == old(contacts)
      ensures FirstMatch(old(contacts), contactId).Some? ==>
        var i := FirstMatch(old(contacts), contactId).value;
        && contacts == old(contacts)[i := Merge(old(contacts)[i], data)]
        && r == Ok(contacts[i])
      ensures old(IdsInOrder()) && (ContactIdKey !in data || data[ContactIdKey] == contactId) ==>
        IdsInOrder()
      ensures (ContactIdKey !in data || data[ContactIdKey] == contactId) ==>
        FirstMatch(contacts, contactId) == FirstMatch(old(contacts), contactId)
    {
      var found := Locate(contactId);
      match found {
        case None =>
          r := Err(NotFound(contactId));
        case Some(i) =>
          if ContactIdKey !in data || data[ContactIdKey] == contactId {
            GetAfterUpdate(contacts, contactId, data);
            if IdsAscending(contacts, counter) {
              MergeKeepsIdsAscending(contacts, counter, i, data);
            }
          }
          contacts := contacts[i := Merge(contacts[i], data)];
          r := Ok(contacts[i]);
      }
    }

    /**
     * delete: look the record up as get does (a 404 changes nothing), then
     * remove it with list.remove, which drops the first equal record.
     */
    method Delete(contactId: Value) returns (r: Outcome)
      requires Valid()
      modifies this
      ensures Valid()
      ensures counter == old(counter)
      ensures FirstMatch(old(contacts), contactId).None? ==>
        r == Fail(NotFound(contactId)) && contacts == old(contacts)
      ensures FirstMatch(old(contacts), contactId).Some? ==>
        var i := FirstMatch(old(contacts), contactId).value;
        && r == Pass
        && contacts == old(contacts)[..i] + old(contacts)[i + 1..]
      ensures old(IdsInOrder()) ==> IdsInOrder()
      ensures old(IdsInOrder()) ==> FirstMatch(contacts, contactId).None?
    {
      var found := Locate(contactId);
      match found {
        case None =>
          r := Fail(NotFound(contactId));
        case Some(i) =>
          var rec := contacts[i];
          RemoveFirstMatch(contacts, contactId);
          if IdsAscending(contacts, counter) {
            RemoveKeepsIdsAscending(contacts, counter, i);
            GetAfterDelete(contacts, counter, contactId);
          }
          contacts := RemoveFirst(contacts, rec);
          r := Pass;
      }
    }
  }

  /**
   * The module-level seeding: a fresh store and three creates. The ids come
   * out as 1, 2, 3; get(2) finds the second seed, while the string id the
   * HTTP route would pass finds nothing.
   */
  method SeedScenario() returns (ids: seq<Value>, second: Result<Record>, viaRoute: Result<Record>)
    ensures ids == [IntV(1), IntV(2), IntV(3)]
    ensures second == Ok(Stamp(map["first_name" := StrV("?????"), "last_name" := StrV("AAA"), "middle_name" := StrV("TTT")], 2))
    ensures viaRoute == Err(NotFound(StrV("2")))
  {
    var dao := new ContactDAO();
    var a := dao.Create(map["first_name" := StrV("Build an API"), "last_name" := StrV("SSS"), "middle_name" := StrV("PPP")]);
    var idA := a[ContactIdKey];
    assert idA == IntV(1);
    var b := dao.Create(map["first_name" := StrV("?????"), "last_name" := StrV("AAA"), "middle_name" := StrV("TTT")]);
    var idB := b[ContactIdKey];
    assert idB == IntV(2);
    var c := dao.Create(map["first_name" := StrV("profit!"), "last_name" := StrV("BBB"), "middle_name" := StrV("QQQ")]);
    var idC := c[ContactIdKey];
    assert idC == IntV(3);
    ids := [idA, idB, idC];
    second := dao.Get(IntV(2));
    assert dao.contacts[1] == b;
    AscendingMatchIsUnique(dao.contacts, dao.counter, IntV(2), 0);
    viaRoute := dao.Get(StrV("2"));
    StringIdNeverFound(dao.contacts, dao.counter, "2");
  }
}
