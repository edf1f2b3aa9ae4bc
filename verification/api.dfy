/** The wire representation of parts (package `api`). */
module Api {
  import opened Base

  /** Time metadata on the wire. `deleted_at` is a pointer tagged
      `omitempty`: None means the key is left out of the JSON object. */
  datatype TimeMetadata = TimeMetadata(createdAt: Time, updatedAt: Time, deletedAt: Option<Time>)

  /** A part as the handlers send it. */
  datatype Part = Part(id: UUID, name: Bytes, meta: TimeMetadata)

  /** The body of a create request: `{"part_name": ...}`. A missing key
      decodes to the empty name. */
  datatype CreatePartRequest = CreatePartRequest(name: Bytes)

  /** The keys of the JSON object `encoding/json` writes for a part, in
      field order. */
  function JsonKeys(p: Part): (keys: seq<string>)
    ensures "deleted_at" in keys <==> p.meta.deletedAt.Some?
    ensures |keys| == 4 || |keys| == 5
    ensures keys[..4] == ["part_id", "part_name", "created_at", "updated_at"]
  {
    ["part_id", "part_name", "created_at", "updated_at"]
      + (if p.meta.deletedAt.Some? then ["deleted_at"] else [])
  }
}
