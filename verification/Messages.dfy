/** What a request asks for, and how many receives each end of a connection posts. */
module Messages {
  /** QPS_MAX_DEPTH: receives posted for each peer when it connects. */
  const DEPTH: nat := 128

  datatype Message =
    Test | Disconnect | UpdateMeta | ExtentReadEnd | Malloc | Scan | Expire | Response | Invalid | Other

  /** Messages for which RdmaCall returns before it posts anything. */
  predicate NeverPosted(m: Message) { m.Disconnect? || m.UpdateMeta? || m.ExtentReadEnd? }

  /** Messages that the poller ignores; of the others it answers only Test. */
  predicate Ignored(m: Message) { m.Malloc? || m.Scan? || m.Expire? }
}
