/** `LatencyBoundedGate.evaluate`: one verdict and one sealed token, failing closed. */
module LatencyGate {
  import opened Json
  import opened GateTypes
  import opened Interlock

  /** The operator channel: none, one that stays silent past the timeout, or a reply. */
  datatype Channel = NoChannel | Silent | Reply(text: string)

  const YES_WORDS := {"y", "yes", "approve", "approved"}
  const NO_WORDS := {"n", "no", "deny", "denied", "reject", "rejected"}

  /** `norm` is strip-and-lowercase. The result is absent when the interlock raises. */
  method Evaluate(interlock: DeterministicInterlock, hash: TokenHash, norm: string -> string,
                  explain: Reason -> string,
                  coa: Coa, channel: Channel, tokenId: string, now: string)
    returns (r: Option<(GateVerdict, Token)>)
    ensures r.None? <==> FullCheck(interlock.rules, interlock.active, coa) == Crash
    ensures r.Some? && r.value.0 == REJECTED_FAST ==> FullCheck(interlock.rules, interlock.active, coa).Reject?
    ensures r.Some? ==>
      var (verdict, token) := r.value;
      var passes := Safe(interlock.rules, coa) && coa.id !in interlock.active &&
                    PairKey(interlock.rules, coa) !in interlock.active;
      var auto := coa.tier == Tier0Autonomous;
      var answered := channel.Reply?;
      var yes := channel.Reply? && norm(channel.text) in YES_WORDS;
      && token.digest == hash(token.(digest := "")) && token.coaId == coa.id && token.verdict == verdict
      && token.tokenId == tokenId && token.issuedAt == now
      && (verdict == REJECTED_FAST <==> !passes)
      && (verdict == APPROVED <==> passes && (auto || yes))
      && (verdict == REJECTED_OPERATOR <==> passes && !auto && answered && !yes)
      && (verdict == TIMED_OUT_FALLBACK <==> passes && !auto && !answered)
      && (token.operator == Some("autonomous") <==> passes && auto)
      && (token.operator == Some("operator") <==> passes && !auto && answered)
      && token.reason == Some(
           if !passes then explain(FullCheck(interlock.rules, interlock.active, coa).reason)
           else if auto then "tier0_auto"
           else if yes then "operator_approve"
           else if answered then "operator_deny"
           else if channel == NoChannel then "no_operator_channel"
           else "latency_timeout")
  {
    PassMeansSafe(interlock.rules, interlock.active, coa);
    var check := interlock.Verify(coa);
    if check == Crash {
      return None;
    }
    var token := Token(tokenId, coa.id, REJECTED_FAST, now, None, None, "");
    if check.Reject? {
      token := Seal(hash, token.(reason := Some(explain(check.reason))));
      return Some((REJECTED_FAST, token));
    }
    if coa.tier == Tier0Autonomous {
      token := token.(verdict := APPROVED, operator := Some("autonomous"), reason := Some("tier0_auto"));
      return Some((APPROVED, Seal(hash, token)));
    }
    match channel
    case NoChannel =>
      token := token.(verdict := TIMED_OUT_FALLBACK, reason := Some("no_operator_channel"));
      return Some((TIMED_OUT_FALLBACK, Seal(hash, token)));
    case Silent =>
      token := token.(verdict := TIMED_OUT_FALLBACK, reason := Some("latency_timeout"));
      return Some((TIMED_OUT_FALLBACK, Seal(hash, token)));
    case Reply(text) =>
      if norm(text) in YES_WORDS {
        token := token.(verdict := APPROVED, operator := Some("operator"), reason := Some("operator_approve"));
        return Some((APPROVED, Seal(hash, token)));
      }
      token := token.(verdict := REJECTED_OPERATOR, operator := Some("operator"), reason := Some("operator_deny"));
      return Some((REJECTED_OPERATOR, Seal(hash, token)));
  }
}
