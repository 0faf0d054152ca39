// The SQL tables of one activity and the transactions that change them in place. Each transaction
// runs under the activity row lock, so it is one atomic step; an error restores the tables.
module OrderStore {
  import opened SeckillModel
  import L = Ledger

  class OrderStore {
    var row: Option<Activity>
    var users: set<nat>
    var orders: map<nat, nat>
    var results: map<StreamId, ResultRow>
    var nextOrder: nat

    function Model(): L.Ledger
      reads this
    {
      L.Ledger(row, users, orders, results, nextOrder)
    }

    constructor (row: Option<Activity>, users: set<nat>)
      ensures Model() == L.Ledger(row, users, map[], map[], 1)
    {
      this.row, this.users, orders, results, nextOrder := row, users, map[], map[], 1;
    }

    // ---- Statements used inside a transaction ---------------------------------------------------

    // UPDATE ... SET stock = stock - 1 WHERE stock > 0; tells whether a row changed.
    method DecrementStock() returns (changed: bool)
      modifies this`row
      ensures changed == (old(row).Some? && old(row).value.stock > 0)
      ensures row == if changed then Some(old(row).value.(stock := old(row).value.stock - 1)) else old(row)
    {
      changed := row.Some? && row.value.stock > 0;
      if changed { row := Some(row.value.(stock := row.value.stock - 1)); }
    }

    // INSERT INTO voucher_order under its unique and foreign keys.
    method CreateOrder(user: nat) returns (reply: Reply<nat>)
      modifies this`orders, this`nextOrder
      ensures reply == if user in old(orders).Values then Err(AlreadyPurchased)
                       else if user !in users then Err(NotFound) else Ok(old(nextOrder))
      ensures orders == if reply.Ok? then old(orders)[old(nextOrder) := user] else old(orders)
      ensures nextOrder == if reply.Ok? then old(nextOrder) + 1 else old(nextOrder)
    {
      if user in orders.Values { return Err(AlreadyPurchased); }
      if user !in users { return Err(NotFound); }
      reply := Ok(nextOrder);
      orders, nextOrder := orders[nextOrder := user], nextOrder + 1;
    }

    // INSERT INTO seckill_result under its primary and unique keys.
    method CreateResult(result: ResultRow) returns (ok: bool)
      modifies this`results
      ensures ok == (result.event.id !in old(results) && !L.ResultKeyTaken(old(Model()), result.event))
      ensures results == if ok then old(results)[result.event.id := result] else old(results)
    {
      ok := result.event.id !in results && !L.ResultKeyTaken(Model(), result.event);
      if ok { results := results[result.event.id := result]; }
    }

    method Rollback(saved: L.Ledger)
      modifies this
      ensures Model() == saved
    {
      row, users, orders, results, nextOrder := saved.row, saved.users, saved.orders, saved.results, saved.nextOrder;
    }

    // ---- Transactions -------------------------------------------------------------------------------

    method Activity() returns (reply: Reply<Activity>)
      ensures reply == if row.None? then Err(NotFound) else Ok(row.value)
    {
      reply := if row.None? then Err(NotFound) else Ok(row.value);
    }

    method Stage(now: int, token: string) returns (reply: Reply<Activity>)
      modifies this
      ensures (Model(), reply) == L.Stage(old(Model()), now, token)
    {
      if row.None? { return Err(NotFound); }
      var a := row.value;
      if a.state != 0 { return Ok(a); }
      if orders != map[] || a.stock <= 0 || a.end <= now { return Err(Conflict); }
      a := a.(state := 1);
      a := a.(generation := token);
      a := a.(capacity := a.stock);
      row := Some(a);
      reply := Ok(a);
    }

    method Activate(generation: string) returns (reply: Reply<()>)
      modifies this
      ensures (Model(), reply) == L.Activate(old(Model()), generation)
    {
      if row.None? { return Err(NotFound); }
      if row.value.generation != generation || (row.value.state != 1 && row.value.state != 2) { return Err(Conflict); }
      if row.value.state != 2 { row := Some(row.value.(state := 2)); }
      reply := Ok(());
    }

    method Result(user: nat) returns (reply: Reply<ResultRow>)
      ensures match reply
              case Ok(found) => exists id :: id in results && results[id] == found && found.event.user == user
              case Err(kind) => kind == NotFound && forall id :: id in results ==> results[id].event.user != user
    {
      var left := results.Keys;
      while left != {}
        invariant left <= results.Keys
        invariant forall id :: id in results && id !in left ==> results[id].event.user != user
      {
        var id :| id in left;
        if results[id].event.user == user { return Ok(results[id]); }
        left := left - {id};
      }
      reply := Err(NotFound);
    }

    // Commits one outcome per event. SQL failures are retryable, never final.
    method Apply(e: Event) returns (reply: Reply<ResultRow>)
      modifies this
      ensures (Model(), reply) == L.Apply(old(Model()), e)
    {
      if row.None? { return Err(Dependency); }
      var saved := Model();
      if e.id in results {
        return if results[e.id].event == e then Ok(results[e.id]) else Err(Dependency);
      }
      if row.value.state != 2 || row.value.generation != e.generation { return Err(Dependency); }
      var result := ResultRow(e, Failed(NoStock));
      if e.acceptedMs < row.value.begin || row.value.end <= e.acceptedMs {
        result := result.(verdict := Failed(OutsideWindow));
      } else if e.user !in users {
        result := result.(verdict := Failed(UserNotFound));
      } else if e.user in orders.Values {
        result := result.(verdict := Failed(DuplicateOrder));
      } else if row.value.stock != 0 {
        var changed := DecrementStock();
        if !changed { return Err(Dependency); }
        var order := CreateOrder(e.user);
        result := result.(verdict := Created(order.value));
      }
      var ok := CreateResult(result);
      if !ok {
        Rollback(saved);
        return Err(Dependency);
      }
      reply := Ok(result);
    }
  }

  // The synchronous purchase service over the same tables.
  class Order {
    const store: OrderStore

    constructor (store: OrderStore)
      ensures this.store == store
    {
      this.store := store;
    }

    method Place(user: nat, now: int) returns (reply: Reply<nat>)
      modifies store
      ensures user == 0 ==> reply == Err(Unauthorized) && store.Model() == old(store.Model())
      ensures user != 0 ==> (store.Model(), reply) == L.Place(old(store.Model()), user, now)
      ensures reply.Err? ==> store.Model() == old(store.Model())
      ensures reply.Ok? && L.LedgerInv(old(store.Model())) ==>
        && reply.value !in old(store.orders) && store.orders == old(store.orders)[reply.value := user]
        && store.row.value.stock == old(store.row.value.stock) - 1
        && store.users == old(store.users) && store.results == old(store.results)
    {
      if user == 0 { return Err(Unauthorized); }
      var saved := store.Model();
      var activity := store.Activity();
      if activity.Err? { return Err(activity.kind); }
      if activity.value.state != 0 { return Err(Conflict); }
      if now < activity.value.begin { return Err(ActivityNotStarted); }
      if activity.value.end <= now { return Err(ActivityEnded); }
      if user in store.orders.Values { return Err(AlreadyPurchased); }
      var changed := store.DecrementStock();
      if !changed { return Err(SoldOut); }
      reply := store.CreateOrder(user);
      if reply.Err? { store.Rollback(saved); }
    }
  }
}
