# iam-auto-assume, modelled in Dafny

`iam_auto_assume.py` lets a developer assume an IAM role from their current
identity while they iterate on that role's policies. `auto_assume(role_name)`
does three things. It looks up the caller's ARN. It adds an `Allow`
`sts:AssumeRole` statement for that ARN to the role's trust policy, unless one
is already there. It then asks STS to assume the role.

This project models the part of the script that makes decisions. The remote
calls are not modelled; what they return is passed in as a parameter.

- `Wrappers` (`wrappers.dfy`): `Option` stands for a missing key or a Python
  `None`. `Result` stands for an expression that may raise.
- `Policy` (`policy.dfy`): the trust-policy document as `get_role` returns it.
  - The document has an optional `Statement` list.
  - Each statement has an optional `Effect`, an optional `Principal` and an
    optional `Action`.
  - `Principal` is either a mapping with an optional `AWS` entry, or a bare
    value such as `"*"`.
  - `AWS` is a single string, a list of strings, or `null`.
  - `ArnIn` models Python's `in` as line 92 uses it:
    - For a list, it tests element equality.
    - For a string, it searches for a substring.
    - It raises `TypeError` for `None in <str>` and for `x in None`.
- `TrustPolicy` (`trust_policy.dfy`): `update_trust_policy`.
  - `UpdateTrustPolicy` is the imperative model. It scans the statements with a
    loop and returns as soon as one matches. Otherwise it appends the new
    statement and produces the full document to write.
  - It is proved equal to `Grant`, a reference definition built on the
    recursive `Scan`.
  - The outcome is one of three things: `AlreadyGranted` (nothing written),
    `Written` (a full-document replace request is issued for the role that was read) or
    `Swallowed` (an exception was caught at line 114 and nothing was written).
- `RoleArn` (`role_arn.dfy`): `construct_role_arn`.
  - `ConstructRoleArn` formats the ARN.
  - `ParseRoleArn` reads an ARN back into its parts. It is the partner used for
    the round-trip lemma.
- `IamAutoAssume` (`auto_assume.dfy`): `auto_assume` as a sequence of calls.
  Its results are the grant's outcome and the `assume_role` request that would
  be sent.

Three behaviours of the code that are easy to miss:

- **A failed caller lookup does not stop the flow.** `get_current_role_arn`
  returns `None` on failure (line 72), and line 132 passes that `None`
  straight to `update_trust_policy`.
  - The scan cannot find `None` in any list, and `None in <str>` raises.
  - If the fetched document has a `Statement` list and no `Allow` statement,
    a write request is issued for a document whose new statement has
    `"AWS": null`. Whether IAM accepts it is not modelled.
  - `Allow` statements whose test is False for `None` also lead to the write:
    a list-form `AWS`, or a missing `Principal` or `AWS`, since `None` is in
    no list (`WrittenIff`).
  - The usual error paths still apply: a failed fetch, a missing `Statement`
    key, or an `Allow` statement whose test raises each end in a swallowed
    exception with no write.
  - `IdentityFailureStillUpdates` and `UnknownCallerNeverGranted` prove this.
- **For the single-string form of `Principal.AWS`, `in` is a substring
  search** (line 92). So `.../role/Dev` counts as already granted when the
  policy names `.../role/DevOps` (`SubstringTakenAsGrant`). The list form is
  checked by element equality.
- **A missing `Statement` key fails without a crash.** The scan sees an empty
  list, and the `append` then raises `KeyError`, which is swallowed
  (`MissingStatementSwallowed`).

## Model

| member | source | states |
|---|---|---|
| `Policy.ArnIn` | iam_auto_assume.py:92 | Python `in` on `Principal.AWS` raises exactly for a `null` container or a `None` ARN checked against a string, and the error is then a TypeError. A `True` answer needs a real ARN. |
| `TrustPolicy.AllowsCaller` | iam_auto_assume.py:92 | The condition on one statement. Only an `Allow` statement can match, and only a real ARN can match. Only an `Allow` statement with a `Principal` can raise, so the `and` short-circuits before `Principal` is read. An AttributeError is raised exactly for an `Allow` statement whose `Principal` is not a mapping. The `{}`/`[]` defaults and the two membership forms are stated by `MissingPrincipalNeverGrants`, `ListFormIsEquality` and `StringFormIsSubstring`. |
| `TrustPolicy.NewStatement` | iam_auto_assume.py:97-101 | The appended statement is `Allow`, has action `sts:AssumeRole`, and its `Principal` is a mapping with only `AWS`, which holds the caller's ARN as one string (`null` for a `None` caller). `NewStatementVerdict` states that it matches its own ARN. |
| `TrustPolicy.Scan` | iam_auto_assume.py:91-94 | The in-order scan stops at the first statement that matches or raises. Every statement before the stop evaluated to false. With no stop, every statement evaluated to false. |
| `TrustPolicy.ScanUnique` | iam_auto_assume.py:91-94 | The scan's stopping point is determined by the statements alone. Anything that meets that description is the scan's result. |
| `TrustPolicy.Grant` | iam_auto_assume.py:85-115 | Reference outcome of one call. A write targets the role that was read and needs a fetched document with a `Statement` list. An early return needs a fetched document and a real ARN. `FetchFailed` is swallowed exactly when `get_role` failed. The lemmas below state the rest. |
| `TrustPolicy.UpdateTrustPolicy` | iam_auto_assume.py:85-115 | The loop with its early return, the append and the write decision produce exactly the outcome of the reference definition `Grant`. |
| `TrustPolicy.AlreadyGrantedIff` | iam_auto_assume.py:91-94 | The call returns early with no write if and only if some statement matches and every statement before it evaluated to false. |
| `TrustPolicy.WrittenIff` | iam_auto_assume.py:91-108 | A write is issued if and only if the `Statement` list exists and no statement in it matches or raises. |
| `TrustPolicy.WriteAppendsOne` | iam_auto_assume.py:97-108 | The written document targets the role that was read. It keeps `Version`, and its list is the old list, same content and order, plus exactly one new `Allow`/`sts:AssumeRole` statement at the end. |
| `TrustPolicy.NewStatementVerdict` | iam_auto_assume.py:92-101 | The appended statement matches its own ARN, because a string contains itself. For a `None` caller the test on it raises TypeError. |
| `TrustPolicy.GrantIdempotent` | iam_auto_assume.py:91-102 | Running the grant again on the written document issues no second write. For a real ARN it returns early, and the new last statement is the only one that grants the caller. For `None` it raises and the error is swallowed. |
| `TrustPolicy.NonAllowNeverGrants` | iam_auto_assume.py:92 | A `Statement` list with no `Allow` statement always leads to the write. `Deny` statements and statements without `Effect` never count, whatever their `Principal` is. |
| `TrustPolicy.MissingPrincipalNeverGrants` | iam_auto_assume.py:92 | A missing `Principal`, or a `Principal` mapping without `AWS`, falls back to `{}` and `[]`. Such a statement neither matches nor raises. |
| `TrustPolicy.ListFormIsEquality` | iam_auto_assume.py:92 | For a list-valued `AWS` on an `Allow` statement, the statement matches if and only if the ARN is an element of the list. |
| `TrustPolicy.StringFormIsSubstring` | iam_auto_assume.py:92 | For a string-valued `AWS` on an `Allow` statement, the statement matches if and only if the ARN is a substring of that string. |
| `TrustPolicy.SubstringTakenAsGrant` | iam_auto_assume.py:91-94 | A grant for `.../role/DevOps` in string form is taken as a grant for the different ARN `.../role/Dev`. The same grant in list form is not, and the call writes. |
| `TrustPolicy.SwallowedIff` | iam_auto_assume.py:85-115 | An exception is swallowed with no write if and only if one of three things holds: the fetch failed; the scan first stopped at a statement whose test raised that error; or the `Statement` key is missing, which gives a `KeyError`. |
| `TrustPolicy.MissingStatementSwallowed` | iam_auto_assume.py:91-115 | A document without `Statement` ends in a swallowed `KeyError` and no write: the scan walks the `[]` default of `.get("Statement", [])` (`StatementsOf`), and the `append` on the missing key raises. |
| `TrustPolicy.ScalarPrincipalSwallowed` | iam_auto_assume.py:91-115 | The scan may reach an `Allow` statement whose `Principal` is not a mapping, such as `"*"`. The call then ends in a swallowed AttributeError and no write. |
| `TrustPolicy.UnknownCallerNeverGranted` | iam_auto_assume.py:92 | A `None` caller ARN never finds an existing grant. |
| `RoleArn.ConstructRoleArn` | iam_auto_assume.py:57 | The ARN starts with `arn:aws:iam::` and ends with the role name. Its length is the two fixed parts plus the account text plus the role name. |
| `RoleArn.ParseConstructed` | iam_auto_assume.py:57 | Round trip: parsing the constructed ARN gives back the account text and the role name whenever the account text has no `:`. |
| `RoleArn.ConstructInjective` | iam_auto_assume.py:57 | With colon-free account texts, two ARNs are equal only when their accounts and role names are equal. |
| `RoleArn.FailedLookupEmbedsNone` | iam_auto_assume.py:44-57 | A failed account lookup is embedded as the text `None` (`AccountText`): `arn:aws:iam::None:role/<name>`. That ARN still parses as a role ARN. A returned account id is embedded as is, as `ParseConstructed` shows. |
| `RoleArn.ExampleArn` | iam_auto_assume.py:57 | Account `123456789012` with role `TestRole` gives `arn:aws:iam::123456789012:role/TestRole`. |
| `IamAutoAssume.AutoAssume` | iam_auto_assume.py:130-134 | The grant runs on the caller's ARN, even a `None` one, which never counts as granted. The `assume_role` request is then sent regardless of the grant's outcome, with session name `TestRoleSession`, for the ARN of the same role. |
| `IamAutoAssume.IdentityFailureStillUpdates` | iam_auto_assume.py:130-132 | A failed caller lookup still reaches the trust policy. For a fetched document that has a `Statement` list and no `Allow` statement, a statement with `"AWS": null` is appended and a write request carrying it is issued. |

## Left out

- The remote calls are inputs of the model, not part of it. These are `get_caller_identity` (lines 40-41 and 67-68), `get_role` (line 87), `update_assume_role_policy` (lines 105-108) and `assume_role` (lines 121-124). Their answers are parameters: the caller's ARN, the fetched document (`None` when `get_role` raised) and the account id.
- The service's answer to the write is not modelled. Whether IAM accepts or rejects the document, the function returns normally; only the 10-second sleep and the log line differ.
- `IamAutoAssume.AutoAssume`: returns the `assume_role` request instead of credentials. The credentials, and the `ClientError` that gives `None`, come from the remote service.
- `json.dumps` (line 107): the document is a Dafny datatype, not JSON text.
- `time.sleep(10)` (line 112) and every `print` line: they are timing and console side effects.
- `Statement` given as a single mapping instead of a list, and list items that are not mappings, are not modelled. Both would raise `AttributeError`, which would be swallowed.
- Values of `Effect` that are not strings are not modelled. They compare unequal to `"Allow"`, exactly as a non-`"Allow"` string does.
- Statement keys the grant never reads (`Sid`, `Condition`, `NotPrincipal`) are not modelled. A statement is always carried whole.
- Top-level document keys other than `Version` and `Statement` (such as `Id`) are not modelled. The code never reads them and would write them back unchanged.
- Exceptions raised outside the `try` block are not modelled. These are `boto3.client('iam')` (line 83) and `boto3.client('sts')` (line 119). Such an exception reaches the caller of `update_trust_policy` or `assume_role`, and through it the caller of `auto_assume`. `assume_role` catches only `botocore.exceptions.ClientError` (line 126). Any other exception from lines 121-125 is not modelled either: for example `NoCredentialsError`, or a `KeyError` on `'Credentials'`. Such an exception also leaves `auto_assume`.
- Concurrent callers, and the eventual consistency of IAM, are outside a sequential model.
