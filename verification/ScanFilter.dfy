/**
  The scan's filter, and the subtitle row it reads.
*/
module ScanFilter {
  import opened Text

  // What a file holds, and whether the filter finds the subset marker in it.
  datatype Content = Content(text: string, marked: bool)

  datatype File = File(size: int, mtime: int, content: Content)

  // The digest column: SHA-256, taken to be injective, or a fingerprint of the metadata, or nothing.
  datatype Digest = Of(content: Content) | Fingerprint(size: int, mtime: int) | NoDigest

  datatype Status = Success | Partial | Failed | AlreadySubset | Restored

  datatype Row = Row(size: int, mtime: int, digest: Digest, config: Option<string>, status: Option<Status>, revision: Option<int>)

  // The revision as the database column holds it; both sides of the comparison are cast alike.
  function AsI64(revision: nat): int {
    if revision < 0x8000_0000_0000_0000 then revision else revision - 0x1_0000_0000_0000_0000
  }

  // ----- The filter -----

  // The row says that its file was converted under this configuration, as far as these fonts allow.
  predicate Done(row: Row, config: string, revision: nat) {
    row.config == Some(config)
    && (row.status == Some(Success) || (row.status == Some(Partial) && row.revision == Some(AsI64(revision))))
  }

  datatype Verdict = Busy | SameMetadata | Marked | SameHash | Convert

  // `filter_candidate`
  function Filter(row: Option<Row>, active: bool, f: File, config: string, revision: nat): Verdict {
    if row.Some? && active then Busy
    else if row.Some? && row.value.size == f.size && row.value.mtime == f.mtime && Done(row.value, config, revision) then SameMetadata
    else if f.content.marked then Marked
    else if row.Some? && row.value.digest == Of(f.content) && Done(row.value, config, revision) then SameHash
    else Convert
  }

  // Either early return on the row's word.
  predicate Skips(row: Option<Row>, active: bool, f: File, config: string, revision: nat) {
    Filter(row, active, f, config, revision) == SameMetadata || Filter(row, active, f, config, revision) == SameHash
  }

  // The row's outcome still holds: a success, or a partial conversion at this very revision.
  predicate Holds(row: Row, config: string, revision: nat) {
    && row.config == Some(config)
    && row.status.Some?
    && (row.status.value.Success? || (row.status.value.Partial? && row.revision.Some? && row.revision.value == AsI64(revision)))
  }

  /**
    What the filter says, verdict by verdict: a path with an active job is left alone, then the row's
    size and time decide, then the marker in the file, then the row's digest; what is left is converted.
  */
  lemma FilterVerdicts(row: Option<Row>, active: bool, f: File, config: string, revision: nat)
    ensures var v := Filter(row, active, f, config, revision);
            var known := row.Some? && !active && Holds(row.value, config, revision);
            var same := row.Some? && row.value.size == f.size && row.value.mtime == f.mtime;
            && (v == Busy <==> row.Some? && active)
            && (v == SameMetadata <==> known && same)
            && (v == Marked <==> !(row.Some? && active) && !(known && same) && f.content.marked)
            && (v == SameHash <==> known && !same && !f.content.marked && row.value.digest == Of(f.content))
            && (v == Convert <==> !(row.Some? && active) && !f.content.marked && !(known && (same || row.value.digest == Of(f.content))))
  {
  }

  /** The cast keeps the revision apart from every other one, and is the two's complement of 64 bits. */
  lemma CastKeepsApart(a: nat, b: nat)
    requires a < 0x1_0000_0000_0000_0000 && b < 0x1_0000_0000_0000_0000
    ensures AsI64(a) == AsI64(b) <==> a == b
    ensures -0x8000_0000_0000_0000 <= AsI64(a) < 0x8000_0000_0000_0000
    ensures (AsI64(a) - a) % 0x1_0000_0000_0000_0000 == 0
  {
  }
}
