/** Types shared by every module: row identifiers, money, and the usual
    option and result wrappers. */
module Common {

  /** A cuid/UUID primary key. */
  type Id = string

  /** Money in integer cents: the DTOs admit non-negative amounts with at most
      two decimals. */
  type Cents = nat

  /** A calendar day, counted from an arbitrary epoch. */
  type Day = int

  datatype Option<+T> = None | Some(value: T)

  datatype Result<+T, +E> = Ok(value: T) | Err(error: E)

  /** A worker as joined into a trip: id plus display name. */
  datatype Worker = Worker(id: Id, name: string)

  /** A trip row joined with its daily log, truck, client and workers: the
      columns billing, payroll and reporting read. */
  datatype Trip = Trip(
    truckId: Id, truckCode: string,
    clientId: Id, clientName: string,
    date: Day, seqNo: int, routeLabel: Option<string>,
    driver: Worker, helper: Option<Worker>,
    billAmount: Cents, driverPay: Cents, helperPay: Cents)

  lemma {:induction false} LongerThanAll(used: set<Id>) returns (id: Id)
    ensures forall x :: x in used ==> |x| < |id|
    decreases used
  {
    if used == {} {
      id := "x";
    } else {
      var y :| y in used;
      id := LongerThanAll(used - {y});
      if |id| <= |y| {
        id := y + "x";
      }
    }
  }

  /** There is always another id. */
  lemma FreshId(used: set<Id>) returns (id: Id)
    ensures id !in used
  {
    id := LongerThanAll(used);
  }
}
