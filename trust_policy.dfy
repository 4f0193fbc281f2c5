/**
  `update_trust_policy`: look for an existing `Allow` statement naming the
  caller's ARN; if there is none, append one and write the whole document back.
  Every exception raised inside the `try` block (lines 85-115) is swallowed, so
  for that block the caller only ever sees a normal return. The IAM client is
  created before the `try` (line 83) and is not part of this model.
*/
module TrustPolicy {
  import opened Wrappers
  import opened Policy

  /** What one call does, as seen from outside: nothing (an existing grant was
      found), one full-document write request to the role (the service's answer
      is not modelled), or an exception swallowed before any write. */
  datatype Outcome =
    | AlreadyGranted
    | Written(roleName: string, document: Document)
    | Swallowed(failure: Failure)

  /** The statement the grant appends: `Allow`, `Principal: {AWS: arn}`, `sts:AssumeRole`. */
  function NewStatement(arn: Option<string>): (s: Statement)
    ensures s.effect == Some("Allow") && s.action == Some(ActionString("sts:AssumeRole"))
    ensures s.principal.Some? && s.principal.value.PrincipalMap? && s.principal.value.others == map[]
    ensures s.principal.value.aws == if arn.Some? then Some(AwsString(arn.value)) else Some(AwsNull)
  {
    Statement(
      Some("Allow"),
      Some(PrincipalMap(Some(if arn.Some? then AwsString(arn.value) else AwsNull), map[])),
      Some(ActionString("sts:AssumeRole")))
  }

  /** The list the scan walks: `trust_policy.get("Statement", [])`. */
  function StatementsOf(doc: Document): seq<Statement> {
    doc.statement.GetOr([])
  }

  /** The condition evaluated on each statement: `Effect` is `"Allow"` and the
      caller's ARN is `in` `Principal.AWS`, with `{}` and `[]` standing in for a
      missing `Principal` and a missing `AWS`. The `and` short-circuits, so the
      `Principal` of a statement that is not an `Allow` is never looked at. */
  function AllowsCaller(s: Statement, arn: Option<string>): (r: Result<bool, Failure>)
    ensures r == Ok(true) ==> s.effect == Some("Allow") && arn.Some?
    ensures r.Err? ==> s.effect == Some("Allow") && s.principal.Some?
    ensures r == Err(PrincipalNotMapping) <==> s.effect == Some("Allow") && s.principal.Some? && s.principal.value.PrincipalScalar?
  {
    if s.effect != Some("Allow") then Ok(false)
    else match s.principal.GetOr(PrincipalMap(None, map[]))
      case PrincipalScalar(_) => Err(PrincipalNotMapping)
      case PrincipalMap(aws, _) => ArnIn(arn, aws.GetOr(AwsList([])))
  }

  /** Where the scan over the statements stops: at the first statement that
      matches, at the first one whose test raises, or not at all. */
  datatype ScanResult = NotFound | Found(index: nat) | Raised(index: nat, failure: Failure) {

    /** The same stop, one statement further along the list. */
    function Later(): ScanResult {
      match this
      case NotFound => NotFound
      case Found(i) => Found(i + 1)
      case Raised(i, f) => Raised(i + 1, f)
    }
  }

  /** `r` describes the in-order scan of `stmts`: every statement before the stop
      evaluated to false, and the stop is a match or an exception. */
  predicate IsScanOf(stmts: seq<Statement>, arn: Option<string>, r: ScanResult) {
    (r.Found? ==> r.index < |stmts| && AllowsCaller(stmts[r.index], arn) == Ok(true)) &&
    (r.Raised? ==> r.index < |stmts| && AllowsCaller(stmts[r.index], arn) == Err(r.failure)) &&
    (r.NotFound? ==> forall j :: 0 <= j < |stmts| ==> AllowsCaller(stmts[j], arn) == Ok(false)) &&
    (!r.NotFound? ==> forall j :: 0 <= j < r.index ==> AllowsCaller(stmts[j], arn) == Ok(false))
  }

  /** The scan of lines 91-94, statement by statement from the front. */
  function Scan(stmts: seq<Statement>, arn: Option<string>): (r: ScanResult)
    ensures IsScanOf(stmts, arn, r)
    decreases |stmts|
  {
    if stmts == [] then NotFound
    else match AllowsCaller(stmts[0], arn)
      case Ok(true) => Found(0)
      case Err(f) => Raised(0, f)
      case Ok(false) => Scan(stmts[1..], arn).Later()
  }

  /** The scan's stop is determined by the statements: anything that describes
      it is the result of `Scan`. */
  lemma ScanUnique(stmts: seq<Statement>, arn: Option<string>, r: ScanResult)
    requires IsScanOf(stmts, arn, r)
    ensures r == Scan(stmts, arn)
  {
  }

  /** The scan stops at statement `i` with test result `verdict`: every
      statement before it evaluated to false. */
  predicate StopsAt(stmts: seq<Statement>, arn: Option<string>, i: nat, verdict: Result<bool, Failure>) {
    i < |stmts| && AllowsCaller(stmts[i], arn) == verdict &&
    forall j :: 0 <= j < i ==> AllowsCaller(stmts[j], arn) == Ok(false)
  }

  /** The reference definition of one call on the document `get_role` returned
      for `roleName` (`None` when that call raised). */
  function Grant(roleName: string, fetched: Option<Document>, arn: Option<string>): (out: Outcome)
    ensures out.Written? ==> out.roleName == roleName && fetched.Some? && fetched.value.statement.Some?
    ensures out == AlreadyGranted ==> fetched.Some? && arn.Some?
    ensures fetched.None? <==> out == Swallowed(FetchFailed)
  {
    match fetched
    case None => Swallowed(FetchFailed)
    case Some(doc) =>
      match Scan(StatementsOf(doc), arn)
      case Raised(_, f) => Swallowed(f)
      case Found(_) => AlreadyGranted
      case NotFound =>
        if doc.statement.None? then Swallowed(NoStatementKey)
        else Written(roleName, doc.(statement := Some(doc.statement.value + [NewStatement(arn)])))
  }

  /** `update_trust_policy(roleName, arn)`, given what `get_role` returned. The
      statement list is scanned in order with an early return; when nothing
      matched, the new statement is appended and the document written. */
  method UpdateTrustPolicy(roleName: string, fetched: Option<Document>, arn: Option<string>)
    returns (out: Outcome)
    ensures out == Grant(roleName, fetched, arn)
  {
    if fetched.None? {
      return Swallowed(FetchFailed);
    }
    var doc := fetched.value;
    var stmts := StatementsOf(doc);
    var i := 0;
    while i < |stmts|
      invariant 0 <= i <= |stmts|
      invariant forall j :: 0 <= j < i ==> AllowsCaller(stmts[j], arn) == Ok(false)
    {
      var test := AllowsCaller(stmts[i], arn);
      if test.Err? {
        ScanUnique(stmts, arn, Raised(i, test.error));
        return Swallowed(test.error);
      }
      if test.value {
        ScanUnique(stmts, arn, Found(i));
        return AlreadyGranted;
      }
      i := i + 1;
    }
    ScanUnique(stmts, arn, NotFound);
    if doc.statement.None? {
      return Swallowed(NoStatementKey);
    }
    var appended := doc.statement.value + [NewStatement(arn)];
    out := Written(roleName, doc.(statement := Some(appended)));
  }

  // ---------------------------------------------------------------------------
  // Properties of the grant

  /** The call returns early, writing nothing, exactly when some statement
      matches and every statement before it evaluated to false. */
  lemma AlreadyGrantedIff(roleName: string, doc: Document, arn: Option<string>)
    ensures Grant(roleName, Some(doc), arn) == AlreadyGranted <==>
      exists i: nat :: StopsAt(StatementsOf(doc), arn, i, Ok(true))
  {
    var stmts := StatementsOf(doc);
    var r := Scan(stmts, arn);
    if r.Found? {
      assert StopsAt(stmts, arn, r.index, Ok(true));
    }
    if exists i: nat :: StopsAt(stmts, arn, i, Ok(true)) {
      var i: nat :| StopsAt(stmts, arn, i, Ok(true));
      ScanUnique(stmts, arn, Found(i));
    }
  }

  /** A write is issued exactly when the document has a `Statement` list and
      no statement in it matches or raises. */
  lemma WrittenIff(roleName: string, doc: Document, arn: Option<string>)
    ensures Grant(roleName, Some(doc), arn).Written? <==>
      doc.statement.Some? && forall j :: 0 <= j < |doc.statement.value| ==> AllowsCaller(doc.statement.value[j], arn) == Ok(false)
  {
    if doc.statement.Some? && forall j :: 0 <= j < |doc.statement.value| ==> AllowsCaller(doc.statement.value[j], arn) == Ok(false) {
      ScanUnique(StatementsOf(doc), arn, NotFound);
    }
  }

  /** The write replaces the document with the same document whose statement
      list has grown by exactly one: the earlier statements keep their content
      and order, the new `Allow` statement is last, and it goes to the role that
      was read. */
  lemma WriteAppendsOne(roleName: string, fetched: Option<Document>, arn: Option<string>)
    requires Grant(roleName, fetched, arn).Written?
    ensures fetched.Some? && fetched.value.statement.Some?
    ensures var before := fetched.value.statement.value;
      var written := Grant(roleName, fetched, arn);
      written.roleName == roleName &&
      written.document.version == fetched.value.version &&
      written.document.statement.Some? &&
      |written.document.statement.value| == |before| + 1 &&
      written.document.statement.value[..|before|] == before &&
      written.document.statement.value[|before|] == NewStatement(arn)
  {
    var before := fetched.value.statement.value;
    assert (before + [NewStatement(arn)])[..|before|] == before;
  }

  /** The appended statement matches the caller's own ARN (a string contains
      itself) and raises for a `None` caller (`None in None`). */
  lemma NewStatementVerdict(arn: Option<string>)
    ensures AllowsCaller(NewStatement(arn), arn) == if arn.Some? then Ok(true) else Err(MembershipTypeError)
  {
    if arn.Some? {
      SubstringOfItself(arn.value);
    }
  }

  /** Idempotence: running the grant again on the document it wrote finds the
      new statement and writes nothing; that statement is then the one and only
      statement that grants the caller. With a `None` caller the second run
      raises on the new statement instead, and still writes nothing. */
  lemma GrantIdempotent(roleName: string, fetched: Option<Document>, arn: Option<string>)
    requires Grant(roleName, fetched, arn).Written?
    ensures var again := Grant(roleName, Some(Grant(roleName, fetched, arn).document), arn);
      again == if arn.Some? then AlreadyGranted else Swallowed(MembershipTypeError)
    ensures var after := Grant(roleName, fetched, arn).document.statement;
      after.Some? && |after.value| > 0 &&
      forall j :: 0 <= j < |after.value| ==> (AllowsCaller(after.value[j], arn) == Ok(true) <==> arn.Some? && j == |after.value| - 1)
  {
    var before := fetched.value.statement.value;
    var after := before + [NewStatement(arn)];
    WrittenIff(roleName, fetched.value, arn);
    NewStatementVerdict(arn);
    var r := if arn.Some? then Found(|before|) else Raised(|before|, MembershipTypeError);
    assert IsScanOf(after, arn, r) by {
      forall j | 0 <= j < |before| ensures AllowsCaller(after[j], arn) == Ok(false) {
        assert after[j] == before[j];
      }
    }
    ScanUnique(after, arn, r);
    forall j | 0 <= j < |after| - 1 ensures AllowsCaller(after[j], arn) == Ok(false) {
      assert after[j] == before[j];
    }
  }

  /** Only `Allow` statements can hold an existing grant: a `Statement` list with
      no `Allow` in it always leads to the write, whatever the principals in it
      are (a `"*"` in a `Deny` is never looked at). */
  lemma NonAllowNeverGrants(roleName: string, doc: Document, arn: Option<string>)
    requires doc.statement.Some?
    requires forall j :: 0 <= j < |doc.statement.value| ==> doc.statement.value[j].effect != Some("Allow")
    ensures Grant(roleName, Some(doc), arn).Written?
  {
    WrittenIff(roleName, doc, arn);
  }

  /** A statement with no `Principal`, or a `Principal` mapping with no `AWS`
      entry, never holds a grant and never raises: the defaults `{}` and `[]`
      stand in. */
  lemma MissingPrincipalNeverGrants(s: Statement, arn: Option<string>)
    requires s.principal.None? || (s.principal.value.PrincipalMap? && s.principal.value.aws.None?)
    ensures AllowsCaller(s, arn) == Ok(false)
  {
  }

  /** For a list-valued `Principal.AWS` the test is exact element equality. */
  lemma ListFormIsEquality(s: Statement, a: string, arns: seq<string>, others: map<string, Aws>)
    requires s.effect == Some("Allow") && s.principal == Some(PrincipalMap(Some(AwsList(arns)), others))
    ensures AllowsCaller(s, Some(a)) == Ok(true) <==> a in arns
  {
  }

  /** For a single-string `Principal.AWS` the test is substring search. */
  lemma StringFormIsSubstring(s: Statement, a: string, arn: string, others: map<string, Aws>)
    requires s.effect == Some("Allow") && s.principal == Some(PrincipalMap(Some(AwsString(arn)), others))
    ensures AllowsCaller(s, Some(a)) == Ok(true) <==> IsSubstring(a, arn)
  {
  }

  /** An `Allow` statement for `.../role/DevOps` in single-string form is taken
      as a grant for the different role `.../role/Dev`, because the test is a
      substring search; the same ARN in list form is not, and the grant writes. */
  lemma SubstringTakenAsGrant()
    ensures var caller := "arn:aws:iam::111122223333:role/Dev";
      var granted := "arn:aws:iam::111122223333:role/DevOps";
      var asString := Statement(Some("Allow"), Some(PrincipalMap(Some(AwsString(granted)), map[])), Some(ActionString("sts:AssumeRole")));
      var asList := Statement(Some("Allow"), Some(PrincipalMap(Some(AwsList([granted])), map[])), Some(ActionString("sts:AssumeRole")));
      caller != granted &&
      Grant("DevOps", Some(Document(Some("2012-10-17"), Some([asString]))), Some(caller)) == AlreadyGranted &&
      Grant("DevOps", Some(Document(Some("2012-10-17"), Some([asList]))), Some(caller)).Written?
  {
    var caller := "arn:aws:iam::111122223333:role/Dev";
    var granted := "arn:aws:iam::111122223333:role/DevOps";
    PrefixIsSubstring(caller, granted);
    assert caller != granted by { assert |caller| != |granted|; }
  }

  /** Error paths: a call that raises anywhere swallows the exception and
      writes nothing. A failed fetch, a document without `Statement` whose scan
      saw nothing, and a first stop at a raising statement each end this way. */
  lemma SwallowedIff(roleName: string, fetched: Option<Document>, arn: Option<string>, f: Failure)
    ensures Grant(roleName, fetched, arn) == Swallowed(f) <==>
      (fetched.None? && f == FetchFailed) ||
      (fetched.Some? && fetched.value.statement.None? && f == NoStatementKey) ||
      (fetched.Some? && exists i: nat :: StopsAt(StatementsOf(fetched.value), arn, i, Err(f)))
  {
    if fetched.Some? {
      var stmts := StatementsOf(fetched.value);
      var r := Scan(stmts, arn);
      if r.Raised? {
        assert StopsAt(stmts, arn, r.index, Err(r.failure));
      }
      if exists i: nat :: StopsAt(stmts, arn, i, Err(f)) {
        var i: nat :| StopsAt(stmts, arn, i, Err(f));
        ScanUnique(stmts, arn, Raised(i, f));
      }
    }
  }

  /** A document without a `Statement` key never crashes the caller: the scan
      sees an empty list, the `append` raises KeyError, and it is swallowed. */
  lemma MissingStatementSwallowed(roleName: string, doc: Document, arn: Option<string>)
    requires doc.statement.None?
    ensures Grant(roleName, Some(doc), arn) == Swallowed(NoStatementKey)
  {
    SwallowedIff(roleName, Some(doc), arn, NoStatementKey);
  }

  /** An `Allow` statement whose `Principal` is not a mapping (the wildcard
      `"*"`) raises as soon as the scan reaches it. */
  lemma ScalarPrincipalSwallowed(roleName: string, doc: Document, arn: Option<string>, i: nat)
    requires i < |StatementsOf(doc)|
    requires StatementsOf(doc)[i].effect == Some("Allow") && StatementsOf(doc)[i].principal.Some?
    requires StatementsOf(doc)[i].principal.value.PrincipalScalar?
    requires forall j :: 0 <= j < i ==> AllowsCaller(StatementsOf(doc)[j], arn) == Ok(false)
    ensures Grant(roleName, Some(doc), arn) == Swallowed(PrincipalNotMapping)
  {
    SwallowedIff(roleName, Some(doc), arn, PrincipalNotMapping);
  }

  /** A caller whose ARN lookup failed (`None`) is never found in any document:
      `None` is not an element of any list of ARNs, and `None in <str>` raises. */
  lemma UnknownCallerNeverGranted(roleName: string, fetched: Option<Document>)
    ensures Grant(roleName, fetched, None) != AlreadyGranted
  {
  }
}
