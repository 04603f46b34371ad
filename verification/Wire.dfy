/**
 * The Offline Verification Algorithm over a token chain (`load`, src/wire.ts): commitments, depth, subsumption
 * and time, on both draft profiles. Decoding, hashing and signatures are parameters.
 */
module Wire {
  import opened Results
  import opened PlainJson
  import opened Scopes
  import opened Authorities

  datatype WireReason =
    | Malformed | SignatureInvalid | ParHashMismatch | DepthInvalid | PrincipalAltered | NotNarrower | ExpiredToken | AudienceMismatch

  /** The two base64url parts a token signs, and its signature. */
  datatype Token = Token(signingInput: string, signature: string)

  type Payload = seq<Member>

  /** What the environment decides: the payload a signing input carries, the authority a payload carries,
      SHA-256 in hex, base64url, the signature check, and the verifier's own settings. */
  datatype Verifier = Verifier(
    read: string -> Payload, authority: (nat, Payload) -> Option<Authority>,
    digest: string -> string, decode: string -> Option<string>, signed: (nat, Token) -> bool,
    profile: Profile, now: int, audienceOk: Payload -> bool)

  function Claims(v: Verifier, tokens: seq<Token>, i: nat): Payload
    requires i < |tokens|
  {
    v.read(tokens[i].signingInput)
  }

  /** The error of the first position below `n` that has one. */
  function FirstError(n: nat, rule: nat -> Option<WireReason>): (r: Option<WireReason>)
    ensures r.None? <==> forall i: nat :: i < n ==> rule(i).None?
  {
    if n == 0 then None
    else match FirstError(n - 1, rule) case Some(e) => Some(e) case None => rule(n - 1)
  }

  // ---- the steps, position by position ------------------------------------

  /** The -02 shape check runs before any signature. */
  function ShapeError(v: Verifier, tokens: seq<Token>, i: nat): Option<WireReason> {
    if i < |tokens| && v.profile.P02? && v.authority(i, Claims(v, tokens, i)).None? then Some(Malformed) else None
  }

  function SignatureError(v: Verifier, tokens: seq<Token>, i: nat): Option<WireReason> {
    if i < |tokens| && !v.signed(i, tokens[i]) then Some(SignatureInvalid) else None
  }

  /** The byte commitment to the parent's signing input. */
  function ParHashError(v: Verifier, tokens: seq<Token>, i: nat): Option<WireReason> {
    if i >= |tokens| then None
    else if i == 0 then (if Own(Claims(v, tokens, 0), "par_hash").Some? then Some(Malformed) else None)
    else
      match Own(Claims(v, tokens, i), "par_hash")
      case Some(JStr(s)) =>
        (match v.decode(s)
         case None => Some(Malformed)
         case Some(hex) => if hex == v.digest(tokens[i - 1].signingInput) then None else Some(ParHashMismatch))
      case _ => Some(ParHashMismatch)
  }

  /** `DT_0.del_max_depth`, a positive integer bounding the number of tokens. */
  function MaxDepth(v: Verifier, tokens: seq<Token>): Option<int>
    requires tokens != []
  {
    match Own(Claims(v, tokens, 0), "del_max_depth")
    case Some(JNum(n)) => if n > 0 then Some(n) else None
    case _ => None
  }

  function DepthAt(v: Verifier, tokens: seq<Token>, i: nat): Option<WireReason> {
    if i < |tokens| && Own(Claims(v, tokens, i), "del_depth") != Some(JNum(i)) then Some(DepthInvalid) else None
  }

  function DepthError(v: Verifier, tokens: seq<Token>): Option<WireReason>
    requires tokens != []
  {
    if DepthAt(v, tokens, 0).Some? || MaxDepth(v, tokens).None? || |tokens| > MaxDepth(v, tokens).value then Some(DepthInvalid)
    else FirstError(|tokens|, (i: nat) => DepthAt(v, tokens, i))
  }

  function PrincipalError(v: Verifier, tokens: seq<Token>, i: nat): Option<WireReason> {
    if i < |tokens| && v.profile.P02? && Own(Claims(v, tokens, i), "sub") != Own(Claims(v, tokens, 0), "sub") then Some(PrincipalAltered)
    else None
  }

  function AuthorityError(v: Verifier, tokens: seq<Token>, i: nat): Option<WireReason> {
    if i < |tokens| && v.authority(i, Claims(v, tokens, i)).None? then Some(Malformed) else None
  }

  /** The authority compared: under the -02 the derived ttl is left out. */
  function Compared(v: Verifier, a: Authority): Authority {
    if v.profile.P02? then a.(ttl := None) else a
  }

  predicate WithinParent(v: Verifier, tokens: seq<Token>, i: nat)
    requires 0 < i < |tokens|
  {
    match (v.authority(i, Claims(v, tokens, i)), v.authority(i - 1, Claims(v, tokens, i - 1)))
    case (Some(child), Some(parent)) => IsNarrower(Compared(v, child), Compared(v, parent))
    case _ => false
  }

  /** The depth bound in force after token `i`: a token may restate it, never raise it. */
  function BoundAfter(v: Verifier, tokens: seq<Token>, i: nat): Option<int>
    requires i < |tokens|
  {
    if i == 0 || v.profile.P01? then MaxDepth(v, tokens)
    else
      match (Declared(Claims(v, tokens, i), "del_max_depth"), BoundAfter(v, tokens, i - 1))
      case (Some(JNum(n)), Some(_)) => Some(n)
      case (_, bound) => bound
  }

  function SubsumptionError(v: Verifier, tokens: seq<Token>, i: nat): Option<WireReason> {
    if i == 0 || i >= |tokens| then None
    else if !WithinParent(v, tokens, i) then Some(NotNarrower)
    else if v.profile.P01? then None
    else
      match Declared(Claims(v, tokens, i), "del_max_depth")
      case None => None
      case Some(JNum(n)) =>
        if n <= 0 then Some(Malformed)
        else if BoundAfter(v, tokens, i - 1).None? || n > BoundAfter(v, tokens, i - 1).value then Some(NotNarrower) else None
      case Some(_) => Some(Malformed)
  }

  function ExpOf(v: Verifier, tokens: seq<Token>, i: nat): Option<int>
    requires i < |tokens|
  {
    match Own(Claims(v, tokens, i), "exp") case Some(JNum(n)) => Some(n) case _ => None
  }

  function TimeError(v: Verifier, tokens: seq<Token>, i: nat): Option<WireReason> {
    if i >= |tokens| then None
    else
      match ExpOf(v, tokens, i)
      case None => Some(Malformed)
      case Some(exp) =>
        match Declared(Claims(v, tokens, i), "nbf")
        case Some(JNum(nbf)) => if v.now < nbf then Some(ExpiredToken) else LateError(v, tokens, i, exp)
        case None => LateError(v, tokens, i, exp)
        case Some(_) => Some(Malformed)
  }

  function LateError(v: Verifier, tokens: seq<Token>, i: nat, exp: int): Option<WireReason>
    requires i < |tokens|
  {
    if v.now > exp || (v.profile.P02? && v.now == exp) then Some(ExpiredToken)
    else if i > 0 && ExpOf(v, tokens, i - 1).Some? && exp > ExpOf(v, tokens, i - 1).value then Some(ExpiredToken)
    else None
  }

  function FirstParHashError(v: Verifier, tokens: seq<Token>): Option<WireReason> {
    FirstError(|tokens|, (i: nat) => ParHashError(v, tokens, i))
  }

  function FirstSubsumptionError(v: Verifier, tokens: seq<Token>): Option<WireReason> {
    FirstError(|tokens|, (i: nat) => SubsumptionError(v, tokens, i))
  }

  function FirstTimeError(v: Verifier, tokens: seq<Token>): Option<WireReason> {
    FirstError(|tokens|, (i: nat) => TimeError(v, tokens, i))
  }

  function Then(a: Option<WireReason>, b: Option<WireReason>): Option<WireReason> {
    if a.Some? then a else b
  }

  /** The reason `load` denies with, the first in the draft's order; none where it accepts. */
  function LoadError(v: Verifier, tokens: seq<Token>): Option<WireReason> {
    var n := |tokens|;
    if n == 0 then Some(Malformed)
    else
      Then(FirstError(n, (i: nat) => ShapeError(v, tokens, i)),
      Then(FirstError(n, (i: nat) => SignatureError(v, tokens, i)),
      Then(FirstParHashError(v, tokens),
      Then(DepthError(v, tokens),
      Then(FirstError(n, (i: nat) => PrincipalError(v, tokens, i)),
      Then(FirstError(n, (i: nat) => AuthorityError(v, tokens, i)),
      Then(FirstSubsumptionError(v, tokens),
      Then(FirstTimeError(v, tokens),
           if v.profile.P02? && !v.audienceOk(Claims(v, tokens, n - 1)) then Some(AudienceMismatch) else None))))))))
  }

  predicate Accepted(v: Verifier, tokens: seq<Token>) {
    LoadError(v, tokens).None?
  }

  // ---- the loops ----------------------------------------------------------

  method CheckParHashes(v: Verifier, tokens: seq<Token>) returns (err: Option<WireReason>)
    requires tokens != []
    ensures err == FirstParHashError(v, tokens)
  {
    ghost var rule := (i: nat) => ParHashError(v, tokens, i);
    if Own(Claims(v, tokens, 0), "par_hash").Some? {
      FirstErrorAt(|tokens|, rule, 0);
      return Some(Malformed);
    }
    for i := 1 to |tokens|
      invariant FirstError(i, rule).None?
    {
      var claim := Own(Claims(v, tokens, i), "par_hash");
      if claim.None? || !claim.value.JStr? { FirstErrorAt(|tokens|, rule, i); return Some(ParHashMismatch); }
      var hex := v.decode(claim.value.text);
      if hex.None? { FirstErrorAt(|tokens|, rule, i); return Some(Malformed); }
      if hex.value != v.digest(tokens[i - 1].signingInput) { FirstErrorAt(|tokens|, rule, i); return Some(ParHashMismatch); }
    }
    return None;
  }

  /** The first error stands, whatever follows it. */
  lemma {:induction false} FirstErrorAt(n: nat, rule: nat -> Option<WireReason>, i: nat)
    requires i < n && FirstError(i, rule).None? && rule(i).Some?
    ensures FirstError(n, rule) == rule(i)
  {
    if i < n - 1 { FirstErrorAt(n - 1, rule, i); }
  }

  /** Step 4, carrying the depth bound along the chain. */
  method CheckSubsumption(v: Verifier, tokens: seq<Token>) returns (err: Option<WireReason>)
    requires tokens != [] && MaxDepth(v, tokens).Some?
    ensures err == FirstSubsumptionError(v, tokens)
  {
    hide WithinParent, Own;
    ghost var rule := (i: nat) => SubsumptionError(v, tokens, i);
    var bound := MaxDepth(v, tokens).value;
    for i := 1 to |tokens|
      invariant FirstError(i, rule).None? && BoundAfter(v, tokens, i - 1) == Some(bound)
    {
      var narrower := IsWithinParent(v, tokens, i);
      if !narrower { FirstErrorAt(|tokens|, rule, i); return Some(NotNarrower); }
      if v.profile.P02? {
        var own := Declared(Claims(v, tokens, i), "del_max_depth");
        if own.Some? {
          if !own.value.JNum? || own.value.number <= 0 { FirstErrorAt(|tokens|, rule, i); return Some(Malformed); }
          if own.value.number > bound { FirstErrorAt(|tokens|, rule, i); return Some(NotNarrower); }
          bound := own.value.number;
        }
      }
    }
    return None;
  }

  method IsWithinParent(v: Verifier, tokens: seq<Token>, i: nat) returns (r: bool)
    requires 0 < i < |tokens|
    ensures r == WithinParent(v, tokens, i)
  {
    var child, parent := v.authority(i, Claims(v, tokens, i)), v.authority(i - 1, Claims(v, tokens, i - 1));
    if child.None? || parent.None? { return false; }
    r := IsNarrowerThan(Compared(v, child.value), Compared(v, parent.value));
  }

  /** Step 5, carrying the previous expiry along the chain. */
  method CheckTimes(v: Verifier, tokens: seq<Token>) returns (err: Option<WireReason>)
    ensures err == FirstTimeError(v, tokens)
  {
    hide Own;
    ghost var rule := (i: nat) => TimeError(v, tokens, i);
    var prevExp: Option<int> := None;
    for i := 0 to |tokens|
      invariant FirstError(i, rule).None? && prevExp == if i == 0 then None else ExpOf(v, tokens, i - 1)
    {
      var exp := ExpOf(v, tokens, i);
      if exp.None? { FirstErrorAt(|tokens|, rule, i); return Some(Malformed); }
      var nbf := Declared(Claims(v, tokens, i), "nbf");
      if nbf.Some? {
        if !nbf.value.JNum? { FirstErrorAt(|tokens|, rule, i); return Some(Malformed); }
        if v.now < nbf.value.number { FirstErrorAt(|tokens|, rule, i); return Some(ExpiredToken); }
      }
      if v.now > exp.value || (v.profile.P02? && v.now == exp.value) { FirstErrorAt(|tokens|, rule, i); return Some(ExpiredToken); }
      if prevExp.Some? && exp.value > prevExp.value { FirstErrorAt(|tokens|, rule, i); return Some(ExpiredToken); }
      prevExp := exp;
    }
    return None;
  }

  method CheckEach(n: nat, rule: nat -> Option<WireReason>) returns (err: Option<WireReason>)
    ensures err == FirstError(n, rule)
  {
    for i := 0 to n
      invariant FirstError(i, rule).None?
    {
      if rule(i).Some? {
        FirstErrorAt(n, rule, i);
        return rule(i);
      }
    }
    return None;
  }

  /** `load`: the first failure in the draft's order, or acceptance. */
  method Load(v: Verifier, tokens: seq<Token>) returns (err: Option<WireReason>)
    ensures err == LoadError(v, tokens)
  {
    hide ParHashError, SubsumptionError, TimeError, DepthAt, ShapeError, SignatureError, PrincipalError, AuthorityError, FirstError;
    if tokens == [] { return Some(Malformed); }
    var n := |tokens|;
    err := CheckEach(n, (i: nat) => ShapeError(v, tokens, i));
    if err.Some? { return; }
    err := CheckEach(n, (i: nat) => SignatureError(v, tokens, i));
    if err.Some? { return; }
    err := CheckParHashes(v, tokens);
    if err.Some? { return; }
    if DepthAt(v, tokens, 0).Some? { return Some(DepthInvalid); }
    if MaxDepth(v, tokens).None? || n > MaxDepth(v, tokens).value { return Some(DepthInvalid); }
    err := CheckEach(n, (i: nat) => DepthAt(v, tokens, i));
    if err.Some? { return; }
    err := CheckEach(n, (i: nat) => PrincipalError(v, tokens, i));
    if err.Some? { return; }
    err := CheckEach(n, (i: nat) => AuthorityError(v, tokens, i));
    if err.Some? { return; }
    err := CheckSubsumption(v, tokens);
    if err.Some? { return; }
    err := CheckTimes(v, tokens);
    if err.Some? { return; }
    if v.profile.P02? && !v.audienceOk(Claims(v, tokens, n - 1)) { return Some(AudienceMismatch); }
    return None;
  }

  // ---- what acceptance proves ---------------------------------------------

  /** Every step found nothing at any token. */
  ghost predicate AllPass(v: Verifier, tokens: seq<Token>) {
    && tokens != [] && MaxDepth(v, tokens).Some? && |tokens| <= MaxDepth(v, tokens).value
    && (forall i: nat {:trigger TokenPasses(v, tokens, i)} :: i < |tokens| ==> TokenPasses(v, tokens, i))
  }

  ghost predicate TokenPasses(v: Verifier, tokens: seq<Token>, i: nat) {
    && SignatureError(v, tokens, i).None? && ParHashError(v, tokens, i).None? && DepthAt(v, tokens, i).None?
    && PrincipalError(v, tokens, i).None? && AuthorityError(v, tokens, i).None? && SubsumptionError(v, tokens, i).None?
    && TimeError(v, tokens, i).None?
  }

  lemma AcceptedPasses(v: Verifier, tokens: seq<Token>)
    requires Accepted(v, tokens)
    ensures AllPass(v, tokens)
  {
    hide SignatureError, ParHashError, DepthAt, PrincipalError, AuthorityError, SubsumptionError, TimeError, MaxDepth, ShapeError;
    forall i: nat | i < |tokens| ensures TokenPasses(v, tokens, i) {
      var signature := (j: nat) => SignatureError(v, tokens, j);
      var commitment := (j: nat) => ParHashError(v, tokens, j);
      var depth := (j: nat) => DepthAt(v, tokens, j);
      var principal := (j: nat) => PrincipalError(v, tokens, j);
      var authority := (j: nat) => AuthorityError(v, tokens, j);
      var subsumption := (j: nat) => SubsumptionError(v, tokens, j);
      var time := (j: nat) => TimeError(v, tokens, j);
      assert signature(i).None? && commitment(i).None? && depth(i).None? && principal(i).None?;
      assert authority(i).None? && subsumption(i).None? && time(i).None?;
    }
  }

  function AuthorityAt(v: Verifier, tokens: seq<Token>, i: nat): Option<Authority>
    requires i < |tokens|
  {
    v.authority(i, Claims(v, tokens, i))
  }

  /** The leaf is within every earlier token, and so is every token within those before it. */
  lemma {:induction false} WithinEveryAncestor(v: Verifier, tokens: seq<Token>, i: nat, j: nat)
    requires Accepted(v, tokens) && i < j < |tokens|
    ensures AuthorityAt(v, tokens, i).Some? && AuthorityAt(v, tokens, j).Some?
    ensures IsNarrower(Compared(v, AuthorityAt(v, tokens, j).value), Compared(v, AuthorityAt(v, tokens, i).value))
  {
    hide Accepted, IsNarrower, ParHashError, TimeError, DepthAt, SignatureError, PrincipalError, AuthorityError, Own;
    AcceptedPasses(v, tokens);
    assert TokenPasses(v, tokens, i) && TokenPasses(v, tokens, j);
    if i < j - 1 {
      WithinEveryAncestor(v, tokens, i, j - 1);
      assert TokenPasses(v, tokens, j - 1);
      NarrowerTransitive(Compared(v, AuthorityAt(v, tokens, j).value), Compared(v, AuthorityAt(v, tokens, j - 1).value),
                         Compared(v, AuthorityAt(v, tokens, i).value));
    }
  }

  /** Adjacent authorities paired under one key read the same context field. */
  ghost predicate FieldsAgreeAlong(v: Verifier, tokens: seq<Token>) {
    forall i: nat {:trigger FieldsAgreeAt(v, tokens, i)} :: 0 < i < |tokens| ==> FieldsAgreeAt(v, tokens, i)
  }

  ghost predicate FieldsAgreeAt(v: Verifier, tokens: seq<Token>, i: nat)
    requires 0 < i < |tokens|
  {
    match (AuthorityAt(v, tokens, i), AuthorityAt(v, tokens, i - 1))
    case (Some(child), Some(parent)) => FieldsMatch(child, parent)
    case _ => true
  }

  /** Token chains attenuate: whatever a token's authority grants, every earlier token's grants. */
  lemma {:induction false} EveryAncestorGrants(v: Verifier, tokens: seq<Token>, i: nat, j: nat, scope: string, ctx: Context, totals: Context)
    requires Accepted(v, tokens) && FieldsAgreeAlong(v, tokens) && i <= j < |tokens|
    requires AuthorityAt(v, tokens, j).Some? && Grants(AuthorityAt(v, tokens, j).value, scope, ctx, totals)
    ensures AuthorityAt(v, tokens, i).Some? && Grants(AuthorityAt(v, tokens, i).value, scope, ctx, totals)
    decreases j
  {
    hide Accepted, IsNarrower, Grants, FieldsMatch;
    if i < j {
      WithinEveryAncestor(v, tokens, j - 1, j);
      assert FieldsAgreeAt(v, tokens, j);
      var child, parent := AuthorityAt(v, tokens, j).value, AuthorityAt(v, tokens, j - 1).value;
      TtlGrantsNothing(v, child, scope, ctx, totals);
      TtlGrantsNothing(v, parent, scope, ctx, totals);
      TtlNamesNoField(v, child, parent);
      NarrowerIsSound(Compared(v, child), Compared(v, parent), scope, ctx, totals);
      EveryAncestorGrants(v, tokens, i, j - 1, scope, ctx, totals);
    }
  }

  lemma TtlGrantsNothing(v: Verifier, a: Authority, scope: string, ctx: Context, totals: Context)
    ensures Grants(Compared(v, a), scope, ctx, totals) <==> Grants(a, scope, ctx, totals)
  {
    hide CoversAny, Admitted;
  }

  lemma TtlNamesNoField(v: Verifier, a: Authority, b: Authority)
    requires FieldsMatch(a, b)
    ensures FieldsMatch(Compared(v, a), Compared(v, b))
  {
    hide Held;
  }

  /** `now` is inside every token's window, and expiry never increases along the chain. */
  lemma {:induction false} TimesHold(v: Verifier, tokens: seq<Token>, i: nat, j: nat)
    requires Accepted(v, tokens) && i <= j < |tokens|
    ensures ExpOf(v, tokens, i).Some? && ExpOf(v, tokens, j).Some? && ExpOf(v, tokens, j).value <= ExpOf(v, tokens, i).value
    ensures v.now <= ExpOf(v, tokens, j).value && (v.profile.P02? ==> v.now < ExpOf(v, tokens, j).value)
    ensures match Declared(Claims(v, tokens, j), "nbf") case Some(JNum(nbf)) => nbf <= v.now case Some(_) => false case None => true
    decreases j
  {
    hide Accepted, Own, ParHashError, SubsumptionError, DepthAt, SignatureError, PrincipalError, AuthorityError;
    AcceptedPasses(v, tokens);
    assert TokenPasses(v, tokens, i) && TokenPasses(v, tokens, j);
    if i < j { TimesHold(v, tokens, i, j - 1); }
  }

  /** The depth bound only shrinks, and bounds the number of tokens. */
  lemma {:induction false} BoundsShrink(v: Verifier, tokens: seq<Token>, i: nat, j: nat)
    requires Accepted(v, tokens) && i <= j < |tokens|
    ensures BoundAfter(v, tokens, i).Some? && BoundAfter(v, tokens, j).Some?
    ensures BoundAfter(v, tokens, j).value <= BoundAfter(v, tokens, i).value <= MaxDepth(v, tokens).value
    ensures |tokens| <= MaxDepth(v, tokens).value
    decreases j
  {
    hide Accepted, Own, ParHashError, TimeError, DepthAt, SignatureError, PrincipalError, AuthorityError, WithinParent;
    AcceptedPasses(v, tokens);
    assert TokenPasses(v, tokens, j);
    if j > 0 {
      BoundsShrink(v, tokens, if i < j then i else j - 1, j - 1);
    }
  }

  /** SHA-256 as an injective function. */
  ghost predicate DigestIsInjective(v: Verifier) {
    forall a, b :: v.digest(a) == v.digest(b) ==> a == b
  }

  /** The leaf's signing input determines the whole chain of signing inputs, and its length. */
  lemma LeafDeterminesChain(v: Verifier, x: seq<Token>, y: seq<Token>)
    requires DigestIsInjective(v) && Accepted(v, x) && Accepted(v, y)
    requires x[|x| - 1].signingInput == y[|y| - 1].signingInput
    ensures |x| == |y| && forall i :: 0 <= i < |x| ==> x[i].signingInput == y[i].signingInput
  {
    hide Accepted, Own, TimeError, SubsumptionError, AuthorityError, ParHashError, PrincipalError, SignatureError;
    AcceptedPasses(v, x);
    AcceptedPasses(v, y);
    assert TokenPasses(v, x, |x| - 1) && TokenPasses(v, y, |y| - 1);
    assert |x| == |y|;
    forall i | 0 <= i < |x| ensures x[i].signingInput == y[i].signingInput { SameFromLeaf(v, x, y, i); }
  }

  lemma {:induction false} SameFromLeaf(v: Verifier, x: seq<Token>, y: seq<Token>, i: nat)
    requires DigestIsInjective(v) && AllPass(v, x) && AllPass(v, y) && |x| == |y| && i < |x|
    requires x[|x| - 1].signingInput == y[|y| - 1].signingInput
    ensures x[i].signingInput == y[i].signingInput
    decreases |x| - i
  {
    hide Own, TimeError, SubsumptionError, AuthorityError, DepthAt;
    if i < |x| - 1 {
      SameFromLeaf(v, x, y, i + 1);
      assert TokenPasses(v, x, i + 1) && TokenPasses(v, y, i + 1);
      assert v.digest(x[i].signingInput) == v.digest(y[i].signingInput);
    }
  }
}
