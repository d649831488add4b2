/** The retention classes of a chunk (src/storage/schema/10-semantic.sql). */
module Chunks {
  datatype Retention = Ephemeral | Standard | Pinned | Trash | Tombstone
}
