/** Requests, results and prices at the target inference boundary. */
module InferenceContracts {
  import opened Prelude

  /** The operator's limits. Rates are per million tokens. */
  datatype Profile = Profile(maxOutput: nat, maxInputBytes: nat, maxRequests: nat, maxTotalTokens: nat,
                             maxCost: real, inputRate: real, outputRate: real)

  predicate ValidProfile(p: Profile) {
    p.inputRate >= 0.0 && p.outputRate >= 0.0 && p.maxCost >= 0.0
  }

  /** `size` is the encoded length of the messages; `hash` stands for the request's content. */
  datatype Work = Work(id: nat, hash: nat, size: nat, messages: nat, modelAllowed: bool)

  datatype AuditStatus = Succeeded | Failed | TimedOut | Rejected | CancelledCall

  datatype UsageSource = Provider | Reservation | NotDispatched

  datatype Audit = Audit(id: nat, hash: nat, status: AuditStatus, code: nat, input: nat, output: nat,
                         cost: real, source: UsageSource)

  datatype Result = Result(content: Option<nat>, audit: Audit)

  function Tokens(r: Result): nat {
    r.audit.input + r.audit.output
  }

  function ReserveInput(w: Work): nat {
    w.size + 64 * w.messages + 256
  }

  function ReserveTokens(p: Profile, w: Work): nat {
    ReserveInput(w) + p.maxOutput
  }

  /** `n` tokens at a rate, as a sum; it is the product, as `ScaleIsProduct` says. */
  function Scale(rate: real, n: nat): real {
    if n == 0 then 0.0 else Scale(rate, n - 1) + rate
  }

  lemma {:induction false} ScaleIsProduct(rate: real, n: nat)
    ensures Scale(rate, n) == n as real * rate
  {
    if n > 0 {
      ScaleIsProduct(rate, n - 1);
      assert n as real * rate == (n - 1) as real * rate + rate;
    }
  }

  /** Rates are per million tokens. */
  function PriceAt(inputRate: real, outputRate: real, input: nat, output: nat): real {
    (Scale(inputRate, input) + Scale(outputRate, output)) / 1000000.0
  }

  function Price(p: Profile, input: nat, output: nat): real {
    PriceAt(p.inputRate, p.outputRate, input, output)
  }


  function ReserveCost(p: Profile, w: Work): real {
    Price(p, ReserveInput(w), p.maxOutput)
  }

  lemma PriceMonotone(p: Profile, input: nat, output: nat, input': nat, output': nat)
    requires ValidProfile(p) && input <= input' && output <= output'
    ensures 0.0 <= Price(p, input, output) <= Price(p, input', output')
  {
    PriceAtMonotone(p.inputRate, p.outputRate, input, output, input', output');
  }

  lemma PriceAtMonotone(inputRate: real, outputRate: real, input: nat, output: nat, input': nat, output': nat)
    requires inputRate >= 0.0 && outputRate >= 0.0 && input <= input' && output <= output'
    ensures 0.0 <= PriceAt(inputRate, outputRate, input, output) <= PriceAt(inputRate, outputRate, input', output')
  {
    ScaleMonotone(inputRate, input, input');
    ScaleMonotone(outputRate, output, output');
  }

  lemma {:induction false} ScaleMonotone(rate: real, a: nat, b: nat)
    requires rate >= 0.0 && a <= b
    ensures 0.0 <= Scale(rate, a) <= Scale(rate, b)
  {
    if b > 0 {
      ScaleMonotone(rate, if a < b then a else a - 1, b - 1);
    }
  }

  /** The usage a result reports stays within what was reserved for its request. */
  predicate WithinReservation(p: Profile, w: Work, r: Result) {
    r.audit.input <= ReserveInput(w) && r.audit.output <= p.maxOutput
  }
}
