/**
 The values the registry stores and exchanges.  Times and durations are integers in
 nanoseconds, the resolution of the clock the service reads.
 */
module Types {

  const MILLISECOND: int := 1_000_000
  const SECOND: int := 1_000_000_000

  datatype Option<+T> = None | Some(value: T)

  /** A lease token.  The store keeps its hash; the hash is taken to be collision free. */
  type Token = string

  datatype Status = Unspecified | Healthy | Draining | Other(code: int)

  /** The pair a caller names an instance by. */
  datatype Key = Key(service: string, id: string)

  datatype Instance = Instance(
    service: string,
    id: string,
    endpoint: string,
    metadata: map<string, string>,
    weight: nat,
    status: Status,
    registeredAt: int,
    updatedAt: int,
    leaseExpiresAt: int)
  {
    function Name(): Key {
      Key(service, id)
    }
  }

  /** The fields that only a registration sets. */
  predicate SameIdentity(a: Instance, b: Instance) {
    && a.Name() == b.Name()
    && a.endpoint == b.endpoint
    && a.metadata == b.metadata
    && a.weight == b.weight
    && a.registeredAt == b.registeredAt
  }
}
