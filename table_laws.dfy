/** What the store's SQL statements guarantee about the two tables: creation writes one fresh
    order and exactly its items, each UPDATE touches only the row it names, the list filters
    select exactly their predicate, and `affectedRows` says whether the order was found. */
module TableLaws {
  import opened JsValues
  import opened OrderTable

  // ---------------------------------------------------------------------------------------
  // Creation

  lemma {:induction false} ItemsOfConcat(a: seq<ItemRow>, b: seq<ItemRow>, id: int)
    ensures ItemsOf(a + b, id) == ItemsOf(a, id) + ItemsOf(b, id)
  {
    if a == [] {
      assert a + b == b;
    } else {
      var head := if a[0].orderId == id then [ItemOf(a[0])] else [];
      assert (a + b)[0] == a[0] && (a + b)[1..] == a[1..] + b;
      calc {
        ItemsOf(a + b, id);
        head + ItemsOf(a[1..] + b, id);
        { ItemsOfConcat(a[1..], b, id); }
        head + (ItemsOf(a[1..], id) + ItemsOf(b, id));
        (head + ItemsOf(a[1..], id)) + ItemsOf(b, id);
        ItemsOf(a, id) + ItemsOf(b, id);
      }
    }
  }

  /** The item fetch returns each item exactly as often as the order's rows project to it. */
  lemma {:induction false} ItemsOfCopies(items: seq<ItemRow>, id: int, it: Item)
    ensures multiset(ItemsOf(items, id))[it] == CopiesOf(items, id, it)
  {
    if items != [] {
      ItemsOfCopies(items[1..], id, it);
    }
  }

  lemma {:induction false} ItemsOfAbsent(items: seq<ItemRow>, id: int)
    requires forall k :: 0 <= k < |items| ==> items[k].orderId != id
    ensures ItemsOf(items, id) == []
  {
    if items != [] {
      ItemsOfAbsent(items[1..], id);
    }
  }

  /** Reading back the rows of one bulk insert gives the cart lines in cart order, each column
      taken from its line and the image NULL when the line's image is falsy. */
  lemma {:induction false} ItemsOfInsertedRows(id: nat, lines: seq<CartLine>)
    ensures |ItemsOf(ItemRows(id, lines), id)| == |lines|
    ensures forall k :: 0 <= k < |lines| ==>
      var it := ItemsOf(ItemRows(id, lines), id)[k];
      && it.productId == SqlValue(lines[k].id)
      && it.productName == SqlValue(lines[k].productName)
      && it.quantity == SqlValue(lines[k].quantity)
      && it.price == SqlValue(lines[k].price)
      && it.image == OrNull(lines[k].image)
  {
    if lines != [] {
      var rows := ItemRows(id, lines);
      assert rows[1..] == ItemRows(id, lines[1..]);
      ItemsOfInsertedRows(id, lines[1..]);
      var r := ItemsOf(rows, id);
      assert r == [ItemOf(rows[0])] + ItemsOf(ItemRows(id, lines[1..]), id);
      forall k | 0 <= k < |lines|
        ensures r[k].productId == SqlValue(lines[k].id) && r[k].productName == SqlValue(lines[k].productName)
        ensures r[k].quantity == SqlValue(lines[k].quantity) && r[k].price == SqlValue(lines[k].price)
        ensures r[k].image == OrNull(lines[k].image)
      {
        if k > 0 {
          assert r[k] == ItemsOf(ItemRows(id, lines[1..]), id)[k - 1];
          assert lines[1..][k - 1] == lines[k];
        }
      }
    }
  }

  /** A successful createOrder leaves the tables well formed, and the id it hands out is fresh. */
  lemma CreateKeepsWellFormed(rows: seq<Order>, items: seq<ItemRow>, next: nat, d: OrderData, now: nat, lines: seq<CartLine>)
    requires WellFormed(rows, items, next)
    ensures !HasId(rows, next)
    ensures WellFormed(rows + [NewOrder(next, d, now)], items + ItemRows(next, lines), next + 1)
  {
    var rows' := rows + [NewOrder(next, d, now)];
    var items' := items + ItemRows(next, lines);
    forall k | 0 <= k < |items'| ensures HasId(rows', items'[k].orderId) {
      if k < |items| {
        var i :| 0 <= i < |rows| && rows[i].id == items[k].orderId;
        assert rows'[i] == rows[i];
      } else {
        assert items'[k] == ItemRows(next, lines)[k - |items|];
        assert rows'[|rows|].id == next;
      }
    }
  }

  /** After a successful createOrder the new order's items read back exactly as the cart lines,
      and every other order's items are as they were. */
  lemma CreatedItemsReadBack(rows: seq<Order>, items: seq<ItemRow>, next: nat, lines: seq<CartLine>)
    requires WellFormed(rows, items, next)
    ensures ItemsOf(items + ItemRows(next, lines), next) == ItemsOf(ItemRows(next, lines), next)
    ensures forall other: int :: other != next ==>
      ItemsOf(items + ItemRows(next, lines), other) == ItemsOf(items, other)
  {
    forall k | 0 <= k < |items| ensures items[k].orderId != next {
      var i :| 0 <= i < |rows| && rows[i].id == items[k].orderId;
    }
    ItemsOfAbsent(items, next);
    ItemsOfConcat(items, ItemRows(next, lines), next);
    forall other: int | other != next
      ensures ItemsOf(items + ItemRows(next, lines), other) == ItemsOf(items, other)
    {
      ItemsOfConcat(items, ItemRows(next, lines), other);
      ItemsOfAbsent(ItemRows(next, lines), other);
    }
  }

  lemma {:induction false} SelectAppend(rows: seq<Order>, o: Order, w: Where)
    ensures Select(rows + [o], w) == Select(rows, w) + (if Matches(o, w) then [o] else [])
  {
    if rows == [] {
      assert rows + [o] == [o];
      assert Select([o], w) == (if Matches(o, w) then [o] else []) + Select([], w);
    } else {
      var head := if Matches(rows[0], w) then [rows[0]] else [];
      var tail := if Matches(o, w) then [o] else [];
      assert (rows + [o])[0] == rows[0] && (rows + [o])[1..] == rows[1..] + [o];
      calc {
        Select(rows + [o], w);
        head + Select(rows[1..] + [o], w);
        { SelectAppend(rows[1..], o, w); }
        head + (Select(rows[1..], w) + tail);
        (head + Select(rows[1..], w)) + tail;
        Select(rows, w) + tail;
      }
    }
  }

  lemma {:induction false} SelectNone(rows: seq<Order>, w: Where)
    requires forall i :: 0 <= i < |rows| ==> !Matches(rows[i], w)
    ensures Select(rows, w) == []
  {
    if rows != [] {
      SelectNone(rows[1..], w);
    }
  }

  /** A selection keeps the primary key unique. */
  lemma {:induction false} SelectKeepsDistinctIds(rows: seq<Order>, w: Where)
    requires DistinctIds(rows)
    ensures DistinctIds(Select(rows, w))
  {
    if rows != [] {
      SelectKeepsDistinctIds(rows[1..], w);
      var rest := Select(rows[1..], w);
      forall o | o in rest ensures o.id != rows[0].id {
        var k :| 0 <= k < |rows[1..]| && rows[1..][k] == o;
        assert rows[k + 1] == o;
      }
    }
  }

  /** With unique ids, no row occurs twice. */
  lemma {:induction false} DistinctIdsOnce(rows: seq<Order>, o: Order)
    requires DistinctIds(rows)
    ensures multiset(rows)[o] <= 1
  {
    if rows != [] {
      DistinctIdsOnce(rows[1..], o);
      assert rows == [rows[0]] + rows[1..];
      if rows[0] == o {
        assert o !in rows[1..] by {
          forall k | 0 <= k < |rows[1..]| ensures rows[1..][k] != o {
            assert rows[1..][k] == rows[k + 1];
          }
        }
      }
    }
  }

  /** Reordering rows keeps their ids unique. */
  lemma PermutationKeepsDistinctIds(a: seq<Order>, b: seq<Order>)
    requires multiset(a) == multiset(b) && DistinctIds(b)
    ensures DistinctIds(a)
  {
    forall i, j | 0 <= i < j < |a| ensures a[i].id != a[j].id {
      if a[i] == a[j] {
        assert a == a[..j] + a[j..];
        assert a[i] == a[..j][i] && a[j] == a[j..][0];
        assert multiset(a)[a[i]] == multiset(a[..j])[a[i]] + multiset(a[j..])[a[i]];
        DistinctIdsOnce(b, a[i]);
      } else {
        assert a[i] in multiset(b) && a[j] in multiset(b);
        var p :| 0 <= p < |b| && b[p] == a[i];
        var q :| 0 <= q < |b| && b[q] == a[j];
        assert p != q;
      }
    }
  }

  /** A new order is listed as pending and unassigned, by its customer exactly when its customer
      id is not NULL and equals the one asked for, and by no rider; the other orders keep their
      place in every list. */
  lemma CreatedOrderListing(rows: seq<Order>, id: nat, d: OrderData, now: nat, c: Json, rider: Json)
    ensures Select(rows + [NewOrder(id, d, now)], PendingUnassigned) == Select(rows, PendingUnassigned) + [NewOrder(id, d, now)]
    ensures Select(rows + [NewOrder(id, d, now)], AcceptedBy(rider)) == Select(rows, AcceptedBy(rider))
    ensures Select(rows + [NewOrder(id, d, now)], ByCustomer(c)) ==
      Select(rows, ByCustomer(c)) + (if SqlEquals(SqlValue(d.id), c) then [NewOrder(id, d, now)] else [])
  {
    var o := NewOrder(id, d, now);
    assert Matches(o, PendingUnassigned) && !Matches(o, AcceptedBy(rider));
    assert Matches(o, ByCustomer(c)) == SqlEquals(SqlValue(d.id), c);
    SelectAppend(rows, o, PendingUnassigned);
    SelectAppend(rows, o, AcceptedBy(rider));
    assert Select(rows, AcceptedBy(rider)) + [] == Select(rows, AcceptedBy(rider));
    SelectAppend(rows, o, ByCustomer(c));
  }

  lemma NewOrderKeepsAcceptance(rows: seq<Order>, id: nat, d: OrderData, now: nat)
    requires AcceptanceConsistent(rows)
    ensures AcceptanceConsistent(rows + [NewOrder(id, d, now)])
  {
  }

  // ---------------------------------------------------------------------------------------
  // Updates

  /** An UPDATE that keeps every row's id keeps the tables well formed. */
  lemma SameIdsKeepWellFormed(rows: seq<Order>, rows': seq<Order>, items: seq<ItemRow>, next: nat)
    requires WellFormed(rows, items, next)
    requires |rows'| == |rows| && forall i :: 0 <= i < |rows| ==> rows'[i].id == rows[i].id
    ensures WellFormed(rows', items, next)
  {
    forall k | 0 <= k < |items| ensures HasId(rows', items[k].orderId) {
      var i :| 0 <= i < |rows| && rows[i].id == items[k].orderId;
      assert rows'[i].id == items[k].orderId;
    }
  }

  /** The status UPDATE sets the status of the row with that id and changes nothing else. */
  lemma SetStatusTouchesOnlyTarget(rows: seq<Order>, id: int, status: Json)
    ensures |SetStatus(rows, id, status)| == |rows|
    ensures forall i :: 0 <= i < |rows| ==>
      var r := SetStatus(rows, id, status)[i];
      && r.id == rows[i].id
      && (rows[i].id == id ==> r.status == status && r == rows[i].(status := status))
      && (rows[i].id != id ==> r == rows[i])
  {
  }

  /** The rider UPDATE sets the acceptance flag and both rider fields of the row with that id,
      whatever they were, and changes nothing else; in particular the status stays as it was. */
  lemma AssignRiderTouchesOnlyTarget(rows: seq<Order>, id: int, riderId: Json, riderName: Json)
    ensures |AssignRider(rows, id, riderId, riderName)| == |rows|
    ensures forall i :: 0 <= i < |rows| ==>
      var r := AssignRider(rows, id, riderId, riderName)[i];
      && r.id == rows[i].id && r.status == rows[i].status
      && (rows[i].id == id ==> r.isAccepted && r.riderId == riderId && r.riderName == riderName
                               && r == rows[i].(isAccepted := true, riderId := riderId, riderName := riderName))
      && (rows[i].id != id ==> r == rows[i])
  {
  }

  /** Of two status updates of one order, the second wins; in particular completing twice is
      completing once, and a completed order can still be given any other status. */
  lemma LastStatusWins(rows: seq<Order>, id: int, first: Json, second: Json)
    ensures SetStatus(SetStatus(rows, id, first), id, second) == SetStatus(rows, id, second)
  {
  }

  lemma CompleteIdempotent(rows: seq<Order>, id: int)
    ensures SetStatus(SetStatus(rows, id, Completed), id, Completed) == SetStatus(rows, id, Completed)
  {
    LastStatusWins(rows, id, Completed, Completed);
  }

  /** A second rider assignment overwrites the first. */
  lemma LastAssignmentWins(rows: seq<Order>, id: int, r1: Json, n1: Json, r2: Json, n2: Json)
    ensures AssignRider(AssignRider(rows, id, r1, n1), id, r2, n2) == AssignRider(rows, id, r2, n2)
  {
  }

  lemma SetStatusKeepsAcceptance(rows: seq<Order>, id: int, status: Json)
    requires AcceptanceConsistent(rows)
    ensures AcceptanceConsistent(SetStatus(rows, id, status))
  {
  }

  /** Assigning a rider whose id and name are both truthy keeps every accepted order naming its rider. */
  lemma AssignRiderKeepsAcceptance(rows: seq<Order>, id: int, riderId: Json, riderName: Json)
    requires AcceptanceConsistent(rows)
    requires Truthy(riderId) && Truthy(riderName)
    ensures AcceptanceConsistent(AssignRider(rows, id, riderId, riderName))
  {
  }

  // ---------------------------------------------------------------------------------------
  // Lists after a rider assignment

  /** Once a rider with a non-NULL id is assigned, the order no longer appears among the pending
      unassigned orders, although its status is unchanged. */
  lemma AssignedOrderLeavesPending(rows: seq<Order>, id: int, riderId: Json, riderName: Json)
    requires !IsNullish(riderId)
    ensures forall o :: o in Select(AssignRider(rows, id, riderId, riderName), PendingUnassigned) ==> o.id != id
  {
    forall o | o in Select(AssignRider(rows, id, riderId, riderName), PendingUnassigned) ensures o.id != id {
      var rows' := AssignRider(rows, id, riderId, riderName);
      var i :| 0 <= i < |rows'| && rows'[i] == o;
    }
  }

  /** ... and it appears among that rider's accepted orders. */
  lemma AssignedOrderListedForRider(rows: seq<Order>, id: int, riderId: Json, riderName: Json)
    requires !IsNullish(riderId)
    requires HasId(rows, id)
    ensures exists o :: o in Select(AssignRider(rows, id, riderId, riderName), AcceptedBy(riderId)) && o.id == id
  {
    var i :| 0 <= i < |rows| && rows[i].id == id;
    var rows' := AssignRider(rows, id, riderId, riderName);
    assert rows'[i] in rows' && Matches(rows'[i], AcceptedBy(riderId));
  }

  // ---------------------------------------------------------------------------------------
  // affectedRows

  /** Ids are unique, so `WHERE id = ?` matches one row when the order exists and none otherwise. */
  lemma {:induction false} MatchedOneIffFound(rows: seq<Order>, id: int)
    requires IdsIncreasing(rows)
    ensures Matched(rows, id) == if HasId(rows, id) then 1 else 0
  {
    if rows != [] {
      MatchedOneIffFound(rows[1..], id);
      if rows[0].id == id {
        assert !HasId(rows[1..], id);
      } else {
        assert HasId(rows, id) ==> HasId(rows[1..], id) by {
          if HasId(rows, id) {
            var i :| 0 <= i < |rows| && rows[i].id == id;
            assert rows[1..][i - 1] == rows[i];
          }
        }
        assert HasId(rows[1..], id) ==> HasId(rows, id) by {
          if HasId(rows[1..], id) {
            var i :| 0 <= i < |rows[1..]| && rows[1..][i].id == id;
            assert rows[i + 1] == rows[1..][i];
          }
        }
      }
    }
  }

  /** A status UPDATE changes no row exactly when every row it matches already has that status. */
  lemma NothingChangedIffAlreadySet(rows: seq<Order>, id: int, status: Json)
    ensures Changed(rows, SetStatus(rows, id, status)) == 0 <==> AlreadyHasStatus(rows, id, status)
  {
    var after := SetStatus(rows, id, status);
    if AlreadyHasStatus(rows, id, status) {
      assert forall i :: 0 <= i < |rows| ==> after[i] == rows[i];
      assert after == rows;
    } else {
      var i :| 0 <= i < |rows| && rows[i].id == id && rows[i].status != status;
      assert after[i] != rows[i];
    }
  }

  /** markOrderAsCompleted reports zero affected rows exactly when no order has the id or, when
      the connection counts changed rather than matched rows, when that order is already completed. */
  lemma CompletionAffectsNothingIff(foundRows: bool, rows: seq<Order>, id: int)
    requires IdsIncreasing(rows)
    ensures |SetStatus(rows, id, Completed)| == |rows|
    ensures AffectedRows(foundRows, rows, SetStatus(rows, id, Completed), id) == 0 <==>
      if foundRows then !HasId(rows, id) else AlreadyHasStatus(rows, id, Completed)
    ensures !HasId(rows, id) ==> AffectedRows(foundRows, rows, SetStatus(rows, id, Completed), id) == 0
  {
    MatchedOneIffFound(rows, id);
    NothingChangedIffAlreadySet(rows, id, Completed);
  }
}
