/**
  The trust-policy document of an IAM role, as `get_role` hands it back once the
  JSON is decoded, and Python's `in` operator on the values of `Principal.AWS`.
*/
module Policy {
  import opened Wrappers

  /** The value of a `Principal` mapping's `AWS` entry: one ARN, a list of ARNs,
      or JSON `null` (what the grant writes when the caller's ARN is `None`). */
  datatype Aws = AwsString(arn: string) | AwsList(arns: seq<string>) | AwsNull

  /** `Principal` is either a mapping (`{"AWS": ..., "Service": ...}`) or a bare
      value such as the wildcard `"*"`. In a mapping, `aws` is the `AWS` entry
      and `others` holds the remaining entries (`Service`, `Federated`, ...);
      a decoded JSON object has one value per key, so `others` never holds the
      key `"AWS"`, and a `"AWS"` key placed there stands for no document. */
  datatype Principal =
    | PrincipalMap(aws: Option<Aws>, others: map<string, Aws>)
    | PrincipalScalar(value: string)

  /** `Action` is never read by the grant; it is carried along unchanged. */
  datatype Action = ActionString(name: string) | ActionList(names: seq<string>)

  /** One statement; each key may be absent from the mapping. */
  datatype Statement = Statement(effect: Option<string>, principal: Option<Principal>, action: Option<Action>)

  /** The document; `Statement` may be absent. */
  datatype Document = Document(version: Option<string>, statement: Option<seq<Statement>>)

  /** The exceptions the grant raises and swallows (`except Exception`). */
  datatype Failure =
    | FetchFailed          // `get_role` raised, or its response lacked the document
    | PrincipalNotMapping  // AttributeError: `.get` on a `Principal` that is not a mapping
    | MembershipTypeError  // TypeError: `None in <str>`, or `<anything> in None`
    | NoStatementKey       // KeyError: `trust_policy["Statement"]` on a document without it

  /** `a` occurs in `s` starting at index `k`. */
  predicate OccursAt(a: string, s: string, k: nat) {
    k + |a| <= |s| && s[k..k + |a|] == a
  }

  /** Python's `a in s` for two strings: `a` occurs as a contiguous slice of `s`. */
  predicate IsSubstring(a: string, s: string) {
    exists k: nat | k <= |s| - |a| :: OccursAt(a, s, k)
  }

  /** Python's `arn in container` where `arn` is a `str` or `None` and `container`
      is the value of `Principal.AWS`: substring search for a string, element
      equality for a list, and a TypeError for the combinations Python refuses. */
  function ArnIn(arn: Option<string>, container: Aws): (r: Result<bool, Failure>)
    ensures r.Err? <==> container.AwsNull? || (arn.None? && container.AwsString?)
    ensures r.Err? ==> r.error == MembershipTypeError
    ensures r == Ok(true) ==> arn.Some?
  {
    match (arn, container)
    case (Some(a), AwsString(s)) => Ok(IsSubstring(a, s))
    case (Some(a), AwsList(xs)) => Ok(a in xs)
    case (None, AwsList(_)) => Ok(false)
    case (None, AwsString(_)) => Err(MembershipTypeError)
    case (_, AwsNull) => Err(MembershipTypeError)
  }

  /** Every string contains itself, so a single-string `AWS` entry always matches its own ARN. */
  lemma SubstringOfItself(a: string)
    ensures IsSubstring(a, a)
  {
    assert OccursAt(a, a, 0);
  }

  /** A string that is a prefix of another is a substring of it. */
  lemma PrefixIsSubstring(a: string, s: string)
    requires |a| <= |s| && s[..|a|] == a
    ensures IsSubstring(a, s)
  {
    assert OccursAt(a, s, 0);
  }
}
