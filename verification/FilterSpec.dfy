/**
 The filters of the admission pipeline on values: whitelist, then blacklist, then limiter, with
 every limiter refusal fed back to auto-learning.
*/
module FilterSpec {
  import L = LimiterSpec
  import B = BlacklistSpec

  datatype Filters = Filters(tables: L.Tables, sys: B.Sys)

  datatype Outcome =
    | Whitelisted
    | Admitted
    | RefusedByBan(answer: B.Answer)
    | RefusedByLimit(verdict: L.LimitResult)

  predicate Refused(outcome: Outcome) {
    outcome.RefusedByBan? || outcome.RefusedByLimit?
  }

  /** What the filters decide. Connections are checked against the connection limits. */
  function Decision(lc: L.Config, f: Filters, ip: string, uid: int, now: int): (outcome: Outcome)
    ensures outcome.RefusedByLimit? ==> outcome.verdict.Refused?
  {
    var answer := B.IsBlacklisted(f.sys.lists, ip, uid, now);
    var verdict := L.Verdict(lc, f.tables, L.Request(ip, uid, false, now));
    if ip in f.sys.lists.white then Whitelisted
    else if answer != B.Clear then RefusedByBan(answer)
    else if verdict.Refused? then RefusedByLimit(verdict)
    else Admitted
  }

  /** What one connection does to the filters: only an admission counts in the limiter, only
      a limiter refusal counts towards a ban, and the other outcomes leave no trace. */
  ghost predicate Filtered(lc: L.Config, bc: B.Config, f: Filters, ip: string, uid: int, now: int, f': Filters) {
    match Decision(lc, f, ip, uid, now)
    case Whitelisted => f' == f
    case RefusedByBan(_) => f' == f
    case Admitted =>
      f'.sys == f.sys && f'.tables == L.Committed(lc, f.tables, L.Request(ip, uid, false, now))
    case RefusedByLimit(_) =>
      f'.tables == f.tables && B.Step(bc, f.sys, B.Reject(ip, uid, now), f'.sys)
  }
}
