/** Content and its identifiers, as resolvers, filters and gossip messages name them. */
module ContentTypes {
  import opened Bytes

  /** Content identifiers, used as map keys. */
  type Id = string

  type Content = seq<Byte>
}
