/**
  `construct_role_arn`: the role ARN is formatted from the account id that the
  identity lookup returned and the role name, with the partition fixed to `aws`
  and neither input checked.
*/
module RoleArn {
  import opened Wrappers

  const Prefix: string := "arn:aws:iam::"
  const RoleInfix: string := ":role/"

  /** How the f-string renders the account id: a failed lookup (`None`) prints as `None`. */
  function AccountText(accountId: Option<string>): string {
    match accountId
    case Some(id) => id
    case None => "None"
  }

  /** The ARN of role `roleName` in the account the lookup returned. */
  function ConstructRoleArn(accountId: Option<string>, roleName: string): (arn: string)
    ensures |arn| == |Prefix| + |AccountText(accountId)| + |RoleInfix| + |roleName|
    ensures arn[..|Prefix|] == Prefix
    ensures arn[|arn| - |roleName|..] == roleName
  {
    Prefix + AccountText(accountId) + RoleInfix + roleName
  }

  /** Index of the first `:` in `s`, or `|s|` when there is none. */
  function FirstColon(s: string): (k: nat)
    ensures k <= |s|
    ensures k < |s| ==> s[k] == ':'
    ensures forall j :: 0 <= j < k ==> s[j] != ':'
  {
    if s == [] || s[0] == ':' then 0 else 1 + FirstColon(s[1..])
  }

  /** Reads an IAM role ARN of the `aws` partition back into its account id and
      role name: the account id runs up to the first `:` after the prefix. */
  function ParseRoleArn(arn: string): Option<(string, string)> {
    if |arn| < |Prefix| || arn[..|Prefix|] != Prefix then None
    else
      var rest := arn[|Prefix|..];
      var k := FirstColon(rest);
      if |rest| - k < |RoleInfix| || rest[k..k + |RoleInfix|] != RoleInfix then None
      else Some((rest[..k], rest[k + |RoleInfix|..]))
  }

  /** Round trip: when the account text has no `:`, the ARN gives back exactly
      the account text and the role name it was built from. */
  lemma ParseConstructed(accountId: Option<string>, roleName: string)
    requires ':' !in AccountText(accountId)
    ensures ParseRoleArn(ConstructRoleArn(accountId, roleName)) == Some((AccountText(accountId), roleName))
  {
    var account := AccountText(accountId);
    var arn := ConstructRoleArn(accountId, roleName);
    assert arn[..|Prefix|] == Prefix;
    var rest := arn[|Prefix|..];
    assert rest == account + RoleInfix + roleName;
    assert rest[|account|] == ':';
    assert forall j :: 0 <= j < |account| ==> rest[j] == account[j];
    var k := FirstColon(rest);
    assert k == |account|;
    assert rest[k..k + |RoleInfix|] == RoleInfix;
    assert rest[..k] == account;
    assert rest[k + |RoleInfix|..] == roleName;
  }

  /** Two lookups with colon-free account ids and two role names give the same
      ARN only when the account texts and the role names are the same. */
  lemma ConstructInjective(a1: Option<string>, n1: string, a2: Option<string>, n2: string)
    requires ':' !in AccountText(a1) && ':' !in AccountText(a2)
    requires ConstructRoleArn(a1, n1) == ConstructRoleArn(a2, n2)
    ensures AccountText(a1) == AccountText(a2) && n1 == n2
  {
    ParseConstructed(a1, n1);
    ParseConstructed(a2, n2);
  }

  /** A failed account lookup is not caught: the ARN carries the text `None`
      where the account id belongs, and still parses as a role ARN. */
  lemma FailedLookupEmbedsNone(roleName: string)
    ensures ConstructRoleArn(None, roleName) == "arn:aws:iam::None:role/" + roleName
    ensures ParseRoleArn(ConstructRoleArn(None, roleName)) == Some(("None", roleName))
  {
    ParseConstructed(None, roleName);
  }

  /** The account id `123456789012` and role `TestRole` give `arn:aws:iam::123456789012:role/TestRole`. */
  lemma ExampleArn()
    ensures ConstructRoleArn(Some("123456789012"), "TestRole") == "arn:aws:iam::123456789012:role/TestRole"
  {
  }
}
