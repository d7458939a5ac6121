/** The policy preflight: deny unless the one known tool is enabled. */
module Policy {
  import opened Bytes
  import opened Config
  import opened RpcParse

  datatype Decision = Deny | AskFirst | Allow

  datatype Verdict = Verdict(decision: Decision, risk: string, hash: nat, summary: string, reason: string)

  const SUMMARY: string := "Read Linux system information with sys.info"

  function Preflight(cfg: Config, q: Request): Verdict {
    if q.name != "sys.info" then
      Verdict(Deny, "denied", q.hash, Trunc("Unknown method " + q.name, 256), "unknown_tool")
    else if !cfg.sysRead then
      Verdict(Deny, "denied", q.hash,
              "sys.info denied because capabilities.sys_read is disabled", "policy_denied")
    else
      Verdict(AskFirst, "low", q.hash, SUMMARY, "approval_required")
  }

  /** Nothing is ever allowed without approval, and only an enabled sys.info gets as far
      as asking for one. */
  lemma DefaultDeny(cfg: Config, q: Request)
    ensures Preflight(cfg, q).decision != Allow
    ensures Preflight(cfg, q).decision == AskFirst <==> q.name == "sys.info" && cfg.sysRead
  {}

  class PolicyResult {
    var decision: Decision
    var risk: string
    var hash: nat
    var summary: string
    var reason: string

    function View(): Verdict
      reads this
    {
      Verdict(decision, risk, hash, summary, reason)
    }

    constructor ()
      ensures View() == Verdict(Deny, "", 0, "", "")
    {
      decision, risk, hash, summary, reason := Deny, "", 0, "", "";
    }

    /** `anything_policy_preflight` fills the structure field by field. */
    method Decide(cfg: Config, q: Request)
      modifies this
      ensures View() == Preflight(cfg, q)
    {
      risk, summary, reason := "", "", "";
      hash := q.hash;
      if q.name != "sys.info" {
        decision, risk, reason := Deny, "denied", "unknown_tool";
        summary := Trunc("Unknown method " + q.name, 256);
        return;
      }
      if !cfg.sysRead {
        decision, risk, reason := Deny, "denied", "policy_denied";
        summary := "sys.info denied because capabilities.sys_read is disabled";
        return;
      }
      decision, risk, reason := AskFirst, "low", "approval_required";
      summary := SUMMARY;
    }
  }
}
