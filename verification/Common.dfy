/** What several modules share: an optional value, the size of a 32-bit word and the slots of the two packed queues. */
module Common {
  datatype Option<T> = None | Some(value: T)

  const WORD := 0x1_0000_0000

  /** record.SyncConcurrency; the commit pipeline lets one fewer commit be under way. */
  const SLOTS := 512

  const HALF := 0x8000_0000

  /** A length converted to a signed 32-bit number. */
  function Int32(n: nat): int { if n % WORD < HALF then n % WORD else n % WORD - WORD }
}
