/** The two-level table of a thread's specific data. */
module KeyBlocks {

  /** One slot; data 0 is no data. */
  datatype KeyData = KeyData(seqno: nat, data: nat)

  const KEYS_PER_BLOCK := 32
  const KEY_BLOCKS := 32

  function CleanBlock(): seq<KeyData> { seq(KEYS_PER_BLOCK, i => KeyData(0, 0)) }
}
