/**
 The versioned document every campaign protocol writes through.
 `save_campaign(document, expected_version)` is one transaction: it replaces the document
 and increments the version, or fails with a conflict and changes nothing.
 */
module VersionedLog {
  import opened Wrappers

  datatype Record<D> = Record(doc: D, version: nat)

  /** The compare-and-set; `None` is the version conflict. */
  function Save<D>(current: Record<D>, expected: nat, doc: D): Option<Record<D>> {
    if expected == current.version then Some(Record(doc, current.version + 1)) else None
  }

  /** What a process knows about a snapshot it read earlier. */
  ghost predicate Past<D>(snapshot: Record<D>, current: Record<D>) {
    && snapshot.version <= current.version
    && (snapshot.version == current.version ==> snapshot == current)
  }
}
