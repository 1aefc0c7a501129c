// Result vocabulary shared by the engine and the bulk pipeline (src/eve/verdict.py,
// src/eve/layers/smtp.py).

module Verdicts {
  import opened Common

  datatype Status = Valid | Invalid | Risky | Unknown | Disposable

  datatype SubStatus =
    | Ok | InvalidSyntax | NoMx | DisposableDomain | RoleAccount | CatchAll | MailboxNotFound
    | Greylisted | Timeout | DnsError | AntispamBlock | Unsettled

  datatype Outcome = Confirmed | Rejected | CatchAllDomain | Inconclusive

  datatype ProbeResult = ProbeResult(outcome: Outcome, isCatchAll: bool, code: int, detail: string)

  /** The contents of a verdict. */
  datatype VerdictData = VerdictData(
    email: string,
    status: Status,
    sub: SubStatus,
    score: int,
    normalizedEmail: Option<string>,
    domain: Option<string>,
    suggestion: Option<string>,
    isDisposable: bool,
    isRole: bool,
    isFree: bool,
    isCatchAll: bool,
    mxFound: bool,
    smtp: Option<ProbeResult>
  )
}
