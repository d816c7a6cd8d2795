/** What the session engine and the byte codec share. */
module Protocol {

  datatype Reason = Normal | VersionIncompatible | ProtocolViolation | AuthFailed | ResourceLimit | Internal

  const MAX_ITEMS := 512   // of a request, and of a batch
  const MAX_PACKS := 128   // of a request
}
