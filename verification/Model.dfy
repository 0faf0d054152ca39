// Values shared by the SQL and the Redis side of the flash sale.
module SeckillModel {
  // The largest integer a Lua number represents exactly, 2^53 - 1.
  const MAX_EXACT: int := 9007199254740991

  datatype Option<+T> = None | Some(value: T)

  // The public error kinds the modelled operations can report.
  datatype Kind =
    | Validation | Unauthorized | NotFound | Conflict | Dependency
    | ActivityNotStarted | ActivityEnded | SoldOut | AlreadyPurchased | RateLimited

  datatype Reply<+T> = Ok(value: T) | Err(kind: Kind)

  // A Redis stream identifier, printed as "ms-seq" and ordered lexicographically.
  datatype StreamId = StreamId(ms: nat, seqNo: nat)

  const ZERO_ID := StreamId(0, 0)

  predicate Before(a: StreamId, b: StreamId) {
    a.ms < b.ms || (a.ms == b.ms && a.seqNo < b.seqNo)
  }

  // An accepted reservation; not yet an order.
  datatype Event = Event(id: StreamId, user: nat, generation: string, acceptedMs: int)

  // The seckill_voucher row. state is 0 (sync), 1 (initializing) or 2 (active).
  datatype Activity = Activity(state: nat, generation: string, capacity: int, stock: int, begin: int, end: int)

  // The immutable snapshot an activation hands to Redis.
  datatype Seed = Seed(generation: string, capacity: int, begin: int, end: int)

  function SeedOf(a: Activity): Seed {
    Seed(a.generation, a.capacity, a.begin, a.end)
  }

  datatype Reason = OutsideWindow | UserNotFound | DuplicateOrder | NoStock

  datatype Verdict = Created(orderId: nat) | Failed(reason: Reason)

  // One seckill_result row: the event's columns and its final outcome.
  datatype ResultRow = ResultRow(event: Event, verdict: Verdict)

  predicate IsHex(c: char) {
    '0' <= c <= '9' || 'a' <= c <= 'f'
  }

  // 128 random bits in lower-case hexadecimal.
  predicate ValidGeneration(g: string) {
    |g| == 32 && forall i :: 0 <= i < |g| ==> IsHex(g[i])
  }

  predicate InWindow(begin: int, end: int, at: int) {
    begin <= at < end
  }
}
