/** What several of the models need: an optional value, addresses, counters in maps,
    and the integer widths of Go's uint32 and Solidity's uint32 and uint256. */
module Common {

  datatype Option<T> = None | Some(value: T)

  type Address = nat   // addresses are only compared

  /** A map whose missing keys read as zero, as Solidity mappings and Go maps of numbers do. */
  function At<K>(m: map<K, nat>, k: K): nat { if k in m then m[k] else 0 }

  const U32: nat := 0x1_0000_0000
  const U32_MAX: nat := U32 - 1
  const U256_MAX: nat := 0x1_0000_0000_0000_0000_0000_0000_0000_0000_0000_0000_0000_0000_0000_0000_0000_0000 - 1
}
