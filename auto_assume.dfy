/**
  `auto_assume`: look up the caller's ARN, grant it the right to assume the
  role, then ask STS to assume the role. The remote answers (the caller's ARN,
  the fetched trust policy, the account id) are inputs; the result is what the
  script sends: the trust-policy write, if any, and the assume-role request.
*/
module IamAutoAssume {
  import opened Wrappers
  import opened Policy
  import opened TrustPolicy
  import opened RoleArn

  /** The arguments of the `assume_role` call. */
  datatype AssumeRoleRequest = AssumeRoleRequest(roleArn: string, sessionName: string)

  const SessionName: string := "TestRoleSession"

  /** `auto_assume(roleName)`. `callerArn` is what `get_current_role_arn` returned,
      `fetched` what `get_role` returned inside the grant, and `accountId` what
      the second identity lookup inside `construct_role_arn` returned. The
      assume-role request is sent whatever happened to the grant, and it names
      the same role whose trust policy the grant read. */
  method AutoAssume(roleName: string, callerArn: Option<string>, fetched: Option<Document>, accountId: Option<string>)
    returns (grant: Outcome, request: AssumeRoleRequest)
    ensures grant == Grant(roleName, fetched, callerArn)
    ensures grant.Written? ==> grant.roleName == roleName
    ensures callerArn.None? ==> grant != AlreadyGranted
    ensures request.sessionName == "TestRoleSession"
    ensures request.roleArn == ConstructRoleArn(accountId, roleName)
    ensures ':' !in AccountText(accountId) ==> ParseRoleArn(request.roleArn) == Some((AccountText(accountId), roleName))
  {
    grant := UpdateTrustPolicy(roleName, fetched, callerArn);
    if callerArn.None? {
      UnknownCallerNeverGranted(roleName, fetched);
    }
    request := AssumeRoleRequest(ConstructRoleArn(accountId, roleName), SessionName);
    if ':' !in AccountText(accountId) {
      ParseConstructed(accountId, roleName);
    }
  }

  /** A failed caller lookup does not stop the flow: `None` is passed on to the
      grant, and on a document with a `Statement` list and no `Allow` statement
      the grant writes a new statement whose `AWS` is `null`. */
  lemma IdentityFailureStillUpdates(roleName: string, doc: Document)
    requires doc.statement.Some?
    requires forall j :: 0 <= j < |doc.statement.value| ==> doc.statement.value[j].effect != Some("Allow")
    ensures Grant(roleName, Some(doc), None).Written?
    ensures var written := Grant(roleName, Some(doc), None).document.statement;
      written.Some? && |written.value| == |doc.statement.value| + 1 &&
      written.value[|doc.statement.value|].principal == Some(PrincipalMap(Some(AwsNull), map[]))
  {
    NonAllowNeverGrants(roleName, doc, None);
    WriteAppendsOne(roleName, Some(doc), None);
  }
}
