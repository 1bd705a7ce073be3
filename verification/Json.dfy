/** The value of a cJSON item: what `type`, `valueint`, `valuestring` and the sibling list under
    `child` mean. Numbers are the 32-bit integers. */
module Json {
  import opened CString

  datatype Json =
    | Null
    | False
    | True
    | Number(n: int)
    | String(s: Str)
    | Array(items: Items)
    | Object(members: Members)

  // The siblings of an array and of an object, in the order of the `next` links.
  datatype Items = NoItems | Item(head: Json, tail: Items)

  datatype Members = NoMembers | Member(key: Str, value: Json, others: Members)

  const INT_MIN: int := -0x8000_0000
  const INT_MAX: int := 0x7fff_ffff
}
