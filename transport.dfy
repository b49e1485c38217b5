/**
 * The Modbus hub the devices talk through. The hub itself is foreign code;
 * the model keeps only what a device asks of it: every request, in order,
 * in `log`. What a read returns is given to the device methods as a
 * parameter (`None` when the hub got no reply), so that every possible
 * reply is covered.
 */
module Transport {
  import opened Wrappers

  /** One call a device makes on the hub, keyed by the device's slave address. */
  datatype Request =
    | ReadCoils(slave: int, address: int, count: nat)
    | ReadHolding(slave: int, address: int, count: nat)
    | ReadInputs(slave: int, address: int, count: nat)
    | WriteCoil(slave: int, address: int, bit: bool)
    | WriteRegister(slave: int, address: int, value: int)

  /**
   * A reply that arrived but holds fewer than the `n` values asked for:
   * indexing the missing values raises IndexError in the caller.
   */
  predicate Short<T>(reply: Option<seq<T>>, n: nat) {
    reply.Some? && |reply.value| < n
  }

  /** A hub shared by the devices of one board. */
  class Hub {
    var log: seq<Request>

    constructor ()
      ensures log == []
    {
      log := [];
    }

    /** Hand one request to the transport. */
    method Call(request: Request)
      modifies this
      ensures log == old(log) + [request]
    {
      log := log + [request];
    }
  }
}
