/**
 * The shape shared by the form validators: each field has an ordered list of rules,
 * tried one after another with `if … else if …`, and only the message of the first
 * rule that fails is recorded for that field.
 */
module FormChecks {
  import opened Wrappers

  /** One rule of a field: whether the value passes it, and the message shown when it does not. */
  datatype Check = Check(passes: bool, message: string)

  /** The message of the first failing rule, or None when every rule passes. */
  function FirstFailure(checks: seq<Check>): (r: Option<string>)
    ensures r.None? <==> forall k | 0 <= k < |checks| :: checks[k].passes
    ensures r.Some? ==>
      exists k | 0 <= k < |checks| ::
        && !checks[k].passes
        && r.value == checks[k].message
        && forall m | 0 <= m < k :: checks[m].passes
  {
    if checks == [] then None
    else if !checks[0].passes then Some(checks[0].message)
    else
      assert forall m | 0 < m < |checks| :: checks[m] == checks[1..][m - 1];
      FirstFailure(checks[1..])
  }

  /** The first failing rule is unique: a failing rule preceded only by passing ones gives the message. */
  lemma {:induction false} FirstFailureAt(checks: seq<Check>, k: nat)
    requires k < |checks| && !checks[k].passes
    requires forall m | 0 <= m < k :: checks[m].passes
    ensures FirstFailure(checks) == Some(checks[k].message)
  {
    if k > 0 {
      assert checks[0].passes;
      FirstFailureAt(checks[1..], k - 1);
    }
  }
}
