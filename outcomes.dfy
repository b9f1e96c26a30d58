/** Result kinds shared by every use case, and JavaScript truthiness of optional inputs. */
module Outcomes {

  datatype Option<+T> = None | Some(value: T)

  /** One `throw new Error(...)` of the use cases, named by its cause. */
  datatype Error =
    | TooFewMembers                   // CreatePool: fewer than 2 member ids
    | NoComplianceRecord(shipId: string)
    | NegativePoolSum                 // CreatePool: sum of cbBefore < 0
    | DeficitExitsWorse(shipId: string)
    | SurplusExitsNegative(shipId: string)
    | NonPositiveAmount               // ApplyBanked: amount <= 0
    | InsufficientBanked              // ApplyBanked: amount > global available
    | NonPositiveBalance              // BankSurplus: cb <= 0
    | NoRoutesForYear(year: int)      // ComputeCB
    | ShipNotFoundForYear(shipId: string)
    | NoBaseline                      // ComputeComparison
    | RouteNotFound(routeId: string)  // SetBaseline

  datatype Result<+T> = Ok(value: T) | Err(error: Error)

  /** A use case that answers either for one ship or for all of them. */
  datatype OneOrMany<+T> = One(item: T) | Many(items: seq<T>)

  /** `if (s)` on an optional string: absent (null/undefined) and "" are falsy. */
  predicate TextGiven(s: Option<string>) {
    s.Some? && s.value != ""
  }

  /** `if (n)` on an optional number: absent and 0 are falsy. */
  predicate NumberGiven(n: Option<int>) {
    n.Some? && n.value != 0
  }
}
