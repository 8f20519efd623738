/** Credit on a stream: the consuming half, which asks for payloads with an initial request and REQUEST_N frames, and
    the publishing half, which hands the credit to the application's subscription. */
module Credits {
  import opened Frames
  import opened Allowances

  /** The largest number a REQUEST_N frame may carry. */
  const MAX_REQUEST_N: Size := 0x7FFF_FFFF

  /** The argument of a subscriber's `request(int64_t)`. */
  type Count = n: int | -0x8000_0000_0000_0000 <= n < 0x8000_0000_0000_0000

  /** The conversion to `size_t`: a negative argument becomes a huge credit. */
  function AsSize(n: Count): Size {
    if n < 0 then n + SIZE_T else n
  }

  /** `allowance`: requested less delivered.  `pending`: requested but not yet told to the other side. */
  datatype Consumer = Consumer(allowance: Size, pending: Size)

  /** A new state of the consuming half and the counts of the REQUEST_N frames it writes. */
  datatype Written = Written(to: Consumer, requests: seq<nat>)

  function AddImplicitAllowance(c: Consumer, n: Size): Consumer {
    c.(allowance := Released(c.allowance, n))
  }

  /** The count is cast to 32 bits. */
  function SendRequests(c: Consumer): Written {
    var toSync := Drained(c.pending, MAX_REQUEST_N);
    Written(c.(pending := Undrained(c.pending, MAX_REQUEST_N)), if toSync > 0 then [toSync % 0x1_0000_0000] else [])
  }

  function GenerateRequest(c: Consumer, n: Size): Written {
    SendRequests(Consumer(Released(c.allowance, n), Released(c.pending, n)))
  }

  /** A payload arrives; nothing if it exceeds the allowance, which is a flow-control error. */
  function TakePayload(c: Consumer): Option<Written> {
    if c.allowance >= 1 then Some(SendRequests(c.(allowance := Acquired(c.allowance, 1)))) else None
  }

  /** The part of a first request that travels with the frame that opens the stream. */
  function InitialPart(n: Count): Size {
    AsSize(if n > MAX_REQUEST_N then MAX_REQUEST_N else n)
  }

  /** The part that follows it. */
  function RemainingPart(n: Count): Size {
    if n > MAX_REQUEST_N then n - MAX_REQUEST_N else 0
  }

  /** The publishing half: credit that arrives before the application's subscription is kept.  `granted` records the
      sum of the requests made to that subscription. */
  datatype Publisher = Publisher(subscribed: bool, initialRequestN: Size, granted: nat)

  function Subscribed(p: Publisher): Publisher {
    if p.initialRequestN > 0 then
      Publisher(true, Undrained(p.initialRequestN, INFINITE), p.granted + Drained(p.initialRequestN, INFINITE))
    else p.(subscribed := true)
  }

  function ProcessRequestN(p: Publisher, n: Size): Publisher {
    if n == 0 then p
    else if p.subscribed then p.(granted := p.granted + n)
    else p.(initialRequestN := Released(p.initialRequestN, n))
  }
}
