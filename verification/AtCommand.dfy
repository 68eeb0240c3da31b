/** What the AT command handlers of core/mt/mt_at.c share: the fields of a command line, and the answers. */
module AtCommand {
  /** One comma-separated field of a command line. */
  datatype Token = Blank | Junk | Num(v: int)

  datatype Reply = Done | PlainError | MtErr(code: nat)

  const BAD_PARAM: Reply := MtErr(1)
  const NO_ENDPOINT: Reply := MtErr(2)
  const NO_CLUSTER: Reply := MtErr(3)
  const NO_ATTRIBUTE: Reply := MtErr(4)
  const UNKNOWN_TYPE: Reply := MtErr(6)
  const NOT_PERSISTED: Reply := MtErr(7)
  const COMP_REJECT: Reply := MtErr(10)
}
