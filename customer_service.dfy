/** The Spring CustomerService over the customer table. The repository is a sequence of
    rows with distinct ids; a database failure, which the service catches, is a `fails`
    parameter of each operation. The Customers entity class is not part of this model:
    its fields are the ones the service reads and writes. */
module CustomerService {
  import opened Common

  datatype Customer = Customer(
    id: int, name: string, address: string, email: string, phoneNumber: string, epfNumber: string)

  /** A `ResponseEntity<String>`: status code and body. */
  datatype Response = Response(status: int, body: string)

  const Created := Response(201, "Customer created successfully")
  const CreationFailed := Response(500, "Customer creation failed")
  const NotFound := Response(404, "Customer not found")
  const Updated := Response(200, "Customer updated successfully")
  const UpdateFailed := Response(500, "Customer update failed")
  const Deleted := Response(200, "Customer deleted successfully")
  const DeletionFailed := Response(500, "Customer deletion failed")

  predicate DistinctIds(rows: seq<Customer>)
  {
    forall i, j :: 0 <= i < j < |rows| ==> rows[i].id != rows[j].id
  }

  predicate Exists(rows: seq<Customer>, id: int)
  {
    exists i :: 0 <= i < |rows| && rows[i].id == id
  }

  /** `findById`: the row with that id, if any. */
  function Find(rows: seq<Customer>, id: int): (r: Option<Customer>)
    ensures r.Some? <==> Exists(rows, id)
    ensures r.Some? ==> r.value in rows && r.value.id == id
  {
    if rows == [] then None
    else if rows[0].id == id then Some(rows[0])
    else Find(rows[1..], id)
  }

  /** The five setters of updateCustomer: everything but the id comes from `data`. */
  function CopyFields(existing: Customer, data: Customer): (r: Customer)
    ensures r.id == existing.id
    ensures r.(id := data.id) == data
  {
    existing.(name := data.name, address := data.address, email := data.email,
              phoneNumber := data.phoneNumber, epfNumber := data.epfNumber)
  }

  /** The table after saving the updated entity: the row with that id takes the copied fields. */
  function UpdateRows(rows: seq<Customer>, id: int, data: Customer): (r: seq<Customer>)
    ensures |r| == |rows|
    ensures forall i :: 0 <= i < |r| ==> r[i] == if rows[i].id == id then CopyFields(rows[i], data) else rows[i]
  {
    if rows == [] then []
    else [if rows[0].id == id then CopyFields(rows[0], data) else rows[0]] + UpdateRows(rows[1..], id, data)
  }

  /** `save(customer)`: a row with the same id is overwritten, otherwise the row is added. */
  function SaveRow(rows: seq<Customer>, c: Customer): (r: seq<Customer>)
    ensures Exists(rows, c.id) ==> |r| == |rows|
    ensures !Exists(rows, c.id) ==> r == rows + [c]
    ensures forall i :: 0 <= i < |rows| && rows[i].id != c.id ==> r[i] == rows[i]
    ensures Find(r, c.id) == Some(c)
  {
    if Exists(rows, c.id) then
      var r := seq(|rows|, i requires 0 <= i < |rows| => if rows[i].id == c.id then c else rows[i]);
      var k :| 0 <= k < |rows| && rows[k].id == c.id;
      assert r[k] == c;
      FindFirst(r, c.id);
      r
    else
      FindAppended(rows, c);
      rows + [c]
  }

  /** `deleteById`: every row with that id is gone, the others stay in order. */
  function DeleteRows(rows: seq<Customer>, id: int): (r: seq<Customer>)
    ensures !Exists(r, id)
    ensures forall i :: 0 <= i < |rows| && rows[i].id != id ==> rows[i] in r
    ensures forall c :: c in r ==> c in rows
  {
    Filter(rows, (c: Customer) => c.id != id)
  }

  lemma {:induction false} FindFirst(rows: seq<Customer>, id: int)
    requires Exists(rows, id)
    requires forall i :: 0 <= i < |rows| && rows[i].id == id ==> rows[i] == rows[FirstIndex(rows, id)]
    ensures Find(rows, id) == Some(rows[FirstIndex(rows, id)])
  {
    if rows[0].id != id {
      var i :| 0 <= i < |rows| && rows[i].id == id;
      assert rows[1..][i - 1] == rows[i];
      FindFirst(rows[1..], id);
    }
  }

  function FirstIndex(rows: seq<Customer>, id: int): (k: nat)
    requires Exists(rows, id)
    ensures k < |rows| && rows[k].id == id
  {
    if rows[0].id == id then 0
    else
      var i :| 0 <= i < |rows| && rows[i].id == id;
      assert rows[1..][i - 1] == rows[i];
      1 + FirstIndex(rows[1..], id)
  }

  lemma {:induction false} FindAppended(rows: seq<Customer>, c: Customer)
    requires !Exists(rows, c.id)
    ensures Find(rows + [c], c.id) == Some(c)
  {
    if rows != [] {
      assert (rows + [c])[1..] == rows[1..] + [c];
      FindAppended(rows[1..], c);
    }
  }

  /** Updating a table twice with the same data gives the table updated once. */
  lemma UpdateIdempotent(rows: seq<Customer>, id: int, data: Customer)
    ensures UpdateRows(UpdateRows(rows, id, data), id, data) == UpdateRows(rows, id, data)
  {
    var once := UpdateRows(rows, id, data);
    assert forall i :: 0 <= i < |once| ==> UpdateRows(once, id, data)[i] == once[i];
  }

  /** After an update the row with that id reads back with the submitted fields. */
  lemma {:induction false} UpdateReadsBack(rows: seq<Customer>, id: int, data: Customer)
    requires Exists(rows, id)
    ensures Find(UpdateRows(rows, id, data), id).Some?
    ensures Find(UpdateRows(rows, id, data), id).value.(id := data.id) == data
  {
    if rows[0].id != id {
      var i :| 0 <= i < |rows| && rows[i].id == id;
      assert rows[1..][i - 1] == rows[i];
      UpdateReadsBack(rows[1..], id, data);
      assert UpdateRows(rows, id, data)[1..] == UpdateRows(rows[1..], id, data);
    }
  }

  class CustomerTable {
    var rows: seq<Customer>

    ghost predicate Valid()
      reads this
    {
      DistinctIds(rows)
    }

    constructor ()
      ensures Valid() && rows == []
    {
      rows := [];
    }

    /** createCustomer: saves the entity; a failing save answers 500 and changes nothing. */
    method CreateCustomer(customer: Customer, fails: bool) returns (response: Response)
      requires Valid()
      modifies this
      ensures Valid()
      ensures rows == if fails then old(rows) else SaveRow(old(rows), customer)
      ensures response == if fails then CreationFailed else Created
    {
      if fails {
        return CreationFailed;
      }
      SaveKeepsDistinct(rows, customer);
      rows := SaveRow(rows, customer);
      return Created;
    }

    /** getAllCustomers: every stored row, or none when the query fails. */
    method GetAllCustomers(fails: bool) returns (all: seq<Customer>)
      ensures all == if fails then [] else rows
    {
      if fails {
        return [];
      }
      return rows;
    }

    /** updateCustomer: 404 for an unknown id, otherwise the five fields are copied onto the
        stored row and saved; a failing repository answers 500 and changes nothing. */
    method UpdateCustomer(id: int, customer: Customer, fails: bool) returns (response: Response)
      requires Valid()
      modifies this
      ensures Valid()
      ensures fails ==> rows == old(rows) && response == UpdateFailed
      ensures !fails && !Exists(old(rows), id) ==> rows == old(rows) && response == NotFound
      ensures !fails && Exists(old(rows), id) ==> rows == UpdateRows(old(rows), id, customer) && response == Updated
    {
      if fails {
        return UpdateFailed;
      }
      var existing := Find(rows, id);
      if existing.None? {
        return NotFound;
      }
      var updated := UpdateRows(rows, id, customer);
      assert forall i :: 0 <= i < |updated| ==> updated[i].id == rows[i].id;
      rows := updated;
      return Updated;
    }

    /** deleteCustomer: removes the row with that id (an unknown id removes nothing) and
        answers 200; a failing repository answers 500 and changes nothing. */
    method DeleteCustomer(id: int, fails: bool) returns (response: Response)
      requires Valid()
      modifies this
      ensures Valid()
      ensures rows == if fails then old(rows) else DeleteRows(old(rows), id)
      ensures response == if fails then DeletionFailed else Deleted
    {
      if fails {
        return DeletionFailed;
      }
      DeleteKeepsDistinct(rows, id);
      rows := DeleteRows(rows, id);
      return Deleted;
    }

    /** getCustomerById: the stored row, or null (None) when absent or when the query fails. */
    method GetCustomerById(id: int, fails: bool) returns (found: Option<Customer>)
      ensures found == if fails then None else Find(rows, id)
    {
      if fails {
        return None;
      }
      return Find(rows, id);
    }
  }

  lemma SaveKeepsDistinct(rows: seq<Customer>, c: Customer)
    requires DistinctIds(rows)
    ensures DistinctIds(SaveRow(rows, c))
  {
  }

  lemma DeleteKeepsDistinct(rows: seq<Customer>, id: int)
    requires DistinctIds(rows)
    ensures DistinctIds(DeleteRows(rows, id))
  {
    FilterKeepsDistinct(rows, (c: Customer) => c.id != id);
  }

  lemma {:induction false} FilterKeepsDistinct(rows: seq<Customer>, keep: Customer -> bool)
    requires DistinctIds(rows)
    ensures DistinctIds(Filter(rows, keep))
  {
    if rows != [] {
      FilterKeepsDistinct(rows[1..], keep);
      var rest := Filter(rows[1..], keep);
      forall c | c in rest
        ensures c.id != rows[0].id
      {
        var j :| 0 <= j < |rows[1..]| && rows[1..][j] == c;
        assert rows[j + 1] == c;
      }
    }
  }
}
