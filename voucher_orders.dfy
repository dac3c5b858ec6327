/** `VoucherOrderServiceImpl`: flash-sale orders. The admission script in the
    store decides eligibility and queues the order on the stream
    `stream.orders`; a single consumer takes orders off the stream, creates
    each under a per-user lock with a guarded stock decrement, and
    acknowledges it; entries whose handling threw are retried from the
    group's pending list. */
module VoucherOrders {
  import opened Common
  import opened JavaLong
  import opened Redis
  import opened Calendar
  import opened IdWorker

  datatype VoucherOrder = VoucherOrder(id: int, userId: int, voucherId: int)

  /** "库存不足" (out of stock). */
  const MSG_NO_STOCK: string := "\U{5E93}\U{5B58}\U{4E0D}\U{8DB3}"
  /** "不能重复下单" (one order per user). */
  const MSG_DUPLICATE: string := "\U{4E0D}\U{80FD}\U{91CD}\U{590D}\U{4E0B}\U{5355}"

  /** The reply of `seckillVoucher` for the admission script's result `code`:
      its `intValue()` 0 admits with the order id, 1 is out of stock, anything
      else is a repeat order. */
  function SeckillReply(code: int, orderId: int): (r: Result<int>)
    ensures r.Ok? <==> IntValue(code) == 0
    ensures r.Ok? ==> r.data == orderId
    ensures r.Fail? ==> r.errorMsg == if IntValue(code) == 1 then MSG_NO_STOCK else MSG_DUPLICATE
  {
    var r := IntValue(code);
    if r != 0 then Fail(if r == 1 then MSG_NO_STOCK else MSG_DUPLICATE) else Ok(orderId)
  }

  /** Only the low 32 bits of the script's long result matter: codes that
      differ by a multiple of 2^32 get the same reply. */
  lemma SeckillReplyLow32(code: int, k: int, orderId: int)
    ensures SeckillReply(code + k * TWO_32, orderId) == SeckillReply(code, orderId)
  {
    var a, b := IntValue(code + k * TWO_32), IntValue(code);
    assert (a - b) % TWO_32 == 0 by {
      assert (code + k * TWO_32 - a) % TWO_32 == 0 && (code - b) % TWO_32 == 0;
      SameResidue(code + k * TWO_32 - a, code - b, a - b, k);
    }
  }

  lemma SameResidue(x: int, y: int, d: int, k: int)
    requires x % TWO_32 == 0 && y % TWO_32 == 0 && d == y - x + k * TWO_32
    requires -TWO_32 < d < TWO_32
    ensures d == 0
  {
    var p, q := x / TWO_32, y / TWO_32;
    assert x == p * TWO_32 && y == q * TWO_32;
    assert d == (q - p + k) * TWO_32;
  }

  /** How many orders of the list are for `voucherId`. */
  function Sold(orders: seq<VoucherOrder>, voucherId: int): (n: nat)
    ensures n <= |orders|
  {
    if orders == [] then 0
    else Sold(orders[..|orders| - 1], voucherId) + (if orders[|orders| - 1].voucherId == voucherId then 1 else 0)
  }

  /** The user already holds an order for the voucher: what the order-count
      query checks. The source filters `voucher_id` against the whole order
      object rather than its voucher id (VoucherOrderServiceImpl.java:409 and
      :421); this is the `(userId, voucherId)` test that query evidently
      means. */
  predicate HasOrder(orders: seq<VoucherOrder>, userId: int, voucherId: int)
  {
    exists i :: 0 <= i < |orders| && orders[i].userId == userId && orders[i].voucherId == voucherId
  }

  /** One order per user and voucher. */
  predicate OnePerUser(orders: seq<VoucherOrder>)
  {
    forall i, j :: 0 <= i < j < |orders| ==> !(orders[i].userId == orders[j].userId && orders[i].voucherId == orders[j].voucherId)
  }

  /** Recording a new order keeps one order per user and voucher when the
      user had none for that voucher. */
  lemma AppendKeepsOnePerUser(orders: seq<VoucherOrder>, o: VoucherOrder)
    requires OnePerUser(orders) && !HasOrder(orders, o.userId, o.voucherId)
    ensures OnePerUser(orders + [o])
  {
    forall i, j | 0 <= i < j < |orders + [o]|
      ensures !((orders + [o])[i].userId == (orders + [o])[j].userId && (orders + [o])[i].voucherId == (orders + [o])[j].voucherId)
    {
      if j == |orders| {
        assert (orders + [o])[i] == orders[i];
      } else {
        assert (orders + [o])[i] == orders[i] && (orders + [o])[j] == orders[j];
      }
    }
  }

  /** Whether `createVoucherOrder` saves `order`: the user has no order for
      the voucher yet and the voucher has stock left. */
  predicate Admits(stock: map<int, int>, orders: seq<VoucherOrder>, order: VoucherOrder)
  {
    !HasOrder(orders, order.userId, order.voucherId) && order.voucherId in stock && stock[order.voucherId] > 0
  }

  /** The outcome of one pass of the consumer loop. */
  datatype Step = Idle | Acked | Threw

  class VoucherOrderService {
    const store: RedisStore
    const idWorker: RedisIdWorker
    /** `stream.orders` with its group `g1`. */
    const queue: Stream<VoucherOrder>
    /** `tb_seckill_voucher.stock` by voucher id. */
    var stock: map<int, int>
    /** `tb_voucher_order`. */
    var orders: seq<VoucherOrder>
    /** Users whose lock `"lock:order:" + userId` is held elsewhere. */
    var locked: set<int>
    /** The stock each voucher started with. */
    ghost const initialStock: map<int, int>

    /** Stock never goes negative, and what was sold plus what is left is
        what there was; no user holds two orders for one voucher. */
    ghost predicate StockValid()
      reads this
    {
      && stock.Keys == initialStock.Keys
      && (forall v :: v in stock ==> 0 <= stock[v] && stock[v] + Sold(orders, v) == initialStock[v])
      && OnePerUser(orders)
    }

    ghost predicate Valid()
      reads this, queue
    {
      StockValid() && queue.Valid() && idWorker.store == store
    }

    constructor (store: RedisStore, idWorker: RedisIdWorker, queue: Stream<VoucherOrder>, stock: map<int, int>)
      requires idWorker.store == store && queue.Valid()
      requires forall v :: v in stock ==> stock[v] >= 0
      ensures Valid()
      ensures this.store == store && this.idWorker == idWorker && this.queue == queue
      ensures this.stock == stock && initialStock == stock && orders == [] && locked == {}
    {
      this.store := store;
      this.idWorker := idWorker;
      this.queue := queue;
      this.stock := stock;
      this.initialStock := stock;
      this.orders := [];
      this.locked := {};
    }

    /** `seckillVoucher`: takes an order id, runs the admission script (its
        result `code` is an input; on 0 the script has queued the order), and
        maps the result. `None` is the exception of an id counter that cannot
        be incremented. */
    method SeckillVoucher(voucherId: int, userId: int, now: DateTime, code: int) returns (r: Option<Result<int>>)
      requires Valid() && Calendar.Valid(now)
      modifies store`strings, queue`entries
      ensures Valid()
      ensures store.strings == Bumped(old(store.strings), CounterKey("order", now))
      ensures var count := NextCount(old(idWorker.Counter(CounterKey("order", now))));
        && (count.None? ==> r.None? && store.strings == old(store.strings) && queue.entries == old(queue.entries))
        && (count.Some? ==>
              var orderId := PackId(Timestamp(now), count.value);
              && r == Some(SeckillReply(code, orderId))
              && queue.entries == old(queue.entries) + (if code == 0 then [VoucherOrder(orderId, userId, voucherId)] else []))
    {
      var orderId := idWorker.NextId("order", now);
      if orderId.None? {
        return None;
      }
      if code == 0 {
        var _ := queue.Add(VoucherOrder(orderId.value, userId, voucherId));
      }
      r := Some(SeckillReply(code, orderId.value));
    }

    /** `createVoucherOrder`, one transaction: nothing when the user already
        has an order for the voucher, nothing when the conditional stock
        decrement (`stock > 0`) updates no row; otherwise one unit of stock
        goes and the order is saved. */
    method CreateVoucherOrder(order: VoucherOrder)
      requires StockValid()
      modifies this`stock, this`orders
      ensures StockValid()
      ensures old(Admits(stock, orders, order)) ==>
        stock == old(stock)[order.voucherId := old(stock)[order.voucherId] - 1] && orders == old(orders) + [order]
      ensures !old(Admits(stock, orders, order)) ==> stock == old(stock) && orders == old(orders)
    {
      if HasOrder(orders, order.userId, order.voucherId) {
        return;
      }
      var success := order.voucherId in stock && stock[order.voucherId] > 0;
      if !success {
        return;
      }
      AppendKeepsOnePerUser(orders, order);
      assert (orders + [order])[..|orders|] == orders;
      stock := stock[order.voucherId := stock[order.voucherId] - 1];
      orders := orders + [order];
    }

    /** `handleVoucherOrder`: without the user's lock nothing happens and the
        call returns normally; with it the order is created and the lock is
        released. `fault` stands for a database exception, which rolls the
        transaction back and propagates (`threw`). */
    method HandleVoucherOrder(order: VoucherOrder, fault: bool) returns (threw: bool)
      requires StockValid()
      modifies this`stock, this`orders, this`locked
      ensures StockValid() && locked == old(locked)
      ensures order.userId in old(locked) ==> !threw && stock == old(stock) && orders == old(orders)
      ensures order.userId !in old(locked) ==> threw == fault
      ensures threw ==> stock == old(stock) && orders == old(orders)
      ensures order.userId !in old(locked) && !fault && old(Admits(stock, orders, order)) ==>
        stock == old(stock)[order.voucherId := old(stock)[order.voucherId] - 1] && orders == old(orders) + [order]
      ensures order.userId !in old(locked) && !fault && !old(Admits(stock, orders, order)) ==>
        stock == old(stock) && orders == old(orders)
    {
      if order.userId in locked {
        return false;
      }
      locked := locked + {order.userId};
      if fault {
        threw := true;
      } else {
        CreateVoucherOrder(order);
        threw := false;
      }
      locked := locked - {order.userId};
    }

    /** One pass of `VoucherOrderHandler.run`: read the next new entry; on
        none, pass (`Idle`); otherwise handle it and acknowledge it only if
        handling returned (`Acked`). After `Threw` the entry stays pending and
        the caller runs the pending pass. Handling throws exactly when the
        database faults for a user whose lock was free; a returned handling
        has created the order when the user's lock was free and
        `createVoucherOrder` admits it, and has changed nothing otherwise. */
    method RunOnce(fault: bool) returns (step: Step)
      requires Valid()
      modifies this`stock, this`orders, this`locked, queue`delivered, queue`pending
      ensures Valid() && locked == old(locked)
      ensures old(queue.delivered) == |queue.entries| ==>
        step == Idle && queue.pending == old(queue.pending) && stock == old(stock) && orders == old(orders)
      ensures old(queue.delivered) < |queue.entries| ==>
        && queue.delivered == old(queue.delivered) + 1
        && (step == Acked ==> queue.pending == old(queue.pending))
        && (step == Threw ==> queue.pending == old(queue.pending) + [old(queue.delivered)] && stock == old(stock) && orders == old(orders))
        && step != Idle
      ensures old(queue.delivered) < |queue.entries| ==>
        var o := queue.entries[old(queue.delivered)];
        && step == (if fault && o.userId !in old(locked) then Threw else Acked)
        && (step == Acked ==> Created(o, old(locked), old(stock), old(orders)))
    {
      var read := queue.ReadNew();
      if read.None? {
        return Idle;
      }
      var (id, order) := read.value;
      var threw := HandleVoucherOrder(order, fault);
      if threw {
        return Threw;
      }
      queue.Ack(id);
      assert id !in old(queue.pending);
      WithoutAbsent(old(queue.pending), id);
      assert Without(old(queue.pending) + [id], id) == old(queue.pending) by {
        WithoutAppend(old(queue.pending), id);
      }
      step := Acked;
    }

    /** An order the admission script queues (code 0) is created by the next
        fault-free pass of the consumer, once every earlier entry has been
        delivered and the user's lock is free; any other reply queues
        nothing, and the pass is idle. */
    method AdmittedOrderIsCreated(voucherId: int, userId: int, now: DateTime, code: int) returns (r: Option<Result<int>>, step: Step)
      requires Valid() && Calendar.Valid(now)
      requires queue.delivered == |queue.entries| && userId !in locked
      modifies store`strings, queue`entries, queue`delivered, queue`pending, this`stock, this`orders, this`locked
      ensures Valid()
      ensures code == 0 && r.Some? ==>
        && r.value.Ok? && step == Acked
        && Created(VoucherOrder(r.value.data, userId, voucherId), old(locked), old(stock), old(orders))
      ensures !(code == 0 && r.Some?) ==> step == Idle && stock == old(stock) && orders == old(orders)
    {
      r := SeckillVoucher(voucherId, userId, now, code);
      step := RunOnce(false);
    }

    /** What a handling that returned normally leaves behind: the order
        created when the user's lock was free and `createVoucherOrder` admits
        it, nothing changed otherwise. */
    ghost predicate Created(o: VoucherOrder, wasLocked: set<int>, wasStock: map<int, int>, wasOrders: seq<VoucherOrder>)
      reads this
    {
      if o.userId !in wasLocked && Admits(wasStock, wasOrders, o) then
        stock == wasStock[o.voucherId := wasStock[o.voucherId] - 1] && orders == wasOrders + [o]
      else
        stock == wasStock && orders == wasOrders
    }

    /** One pass of `handlePendingLits`: `done` (leave the loop) when the
        pending list is empty; otherwise handle its oldest entry and
        acknowledge it unless handling threw, in which case the entry stays
        at the head for the next pass. */
    method PendingOnce(fault: bool) returns (done: bool)
      requires Valid()
      modifies this`stock, this`orders, this`locked, queue`pending
      ensures Valid() && locked == old(locked)
      ensures done <==> old(queue.pending) == []
      ensures done ==> queue.pending == old(queue.pending) && stock == old(stock) && orders == old(orders)
      ensures !done ==>
        var o := queue.entries[old(queue.pending)[0]];
        var threw := fault && o.userId !in old(locked);
        && queue.pending == (if threw then old(queue.pending) else old(queue.pending)[1..])
        && (threw ==> stock == old(stock) && orders == old(orders))
        && (!threw ==> Created(o, old(locked), old(stock), old(orders)))
    {
      var read := queue.ReadPending();
      if read.None? {
        return true;
      }
      var (id, order) := read.value;
      var threw := HandleVoucherOrder(order, fault);
      done := false;
      if threw {
        return;
      }
      WithoutFirst(queue.pending);
      queue.Ack(id);
    }

    /** `handlePendingLits` with one `fault` flag per pass, as many passes as
        there are flags: it leaves only with an empty pending list, and when
        no pass faults it empties a list shorter than the number of passes. */
    method HandlePendingList(faults: seq<bool>) returns (emptied: bool)
      requires Valid()
      modifies this`stock, this`orders, this`locked, queue`pending
      ensures Valid() && locked == old(locked)
      ensures emptied ==> queue.pending == []
      ensures (forall k :: 0 <= k < |faults| ==> !faults[k]) && |faults| > |old(queue.pending)| ==> emptied
    {
      var i := 0;
      emptied := false;
      while i < |faults| && !emptied
        invariant 0 <= i <= |faults|
        invariant Valid() && locked == old(locked)
        invariant emptied ==> queue.pending == []
        invariant !emptied && (forall k :: 0 <= k < i ==> !faults[k]) ==> |queue.pending| + i <= |old(queue.pending)|
      {
        emptied := PendingOnce(faults[i]);
        i := i + 1;
      }
    }
  }

  lemma {:induction false} WithoutAppend(xs: seq<nat>, x: nat)
    requires x !in xs
    ensures Without(xs + [x], x) == xs
  {
    if xs != [] {
      assert (xs + [x])[1..] == xs[1..] + [x];
      WithoutAppend(xs[1..], x);
    }
  }
}
