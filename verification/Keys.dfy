/** Modes of execution and the keys under which orders and ledger movements are unique. */
module Keys {
  /** Ordered from no execution to real money. */
  datatype Mode = Disabled | Simulation | Sandbox | LiveCanary

  /** What the order key hashes; the digest is taken to be injective. */
  datatype OrderKey = OrderKey(
    mode: Mode,
    operatorKey: string,
    fixtureId: string,
    marketKey: string,
    selectionKey: string,
    strategyVersion: string,
    bucket: int)

  const DECISION_BUCKET_MS := 15 * 60 * 1000

  /** Key of a ledger movement: one constructor per prefix used by the source. */
  datatype EntryKey =
    | OpenKey(account: nat)
    | ReserveKey(order: OrderKey)
    | ReleaseKey(order: OrderKey)
    | PartialKey(order: OrderKey)
    | SettleKey(order: OrderKey)
}
