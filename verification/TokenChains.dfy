/** When a token chain is accepted, and why it is not: stated of claims, commitments, authorities, windows and signatures. */
module TokenChains {
  import opened Results
  import opened PlainJson
  import opened Scopes
  import opened Authorities
  import opened Bounds
  import opened Wire

  function ClaimsAt(v: Verifier, tokens: seq<Token>, i: nat): Payload
    requires i < |tokens|
  {
    v.read(tokens[i].signingInput)
  }

  // ---- the steps, as what they ask ----------------------------------------

  predicate IsRead(v: Verifier, tokens: seq<Token>, i: nat)
    requires i < |tokens|
  {
    v.authority(i, ClaimsAt(v, tokens, i)).Some?
  }

  /** The first token commits to nothing, and every other to the bytes its parent signed. */
  ghost predicate IsCommitted(v: Verifier, tokens: seq<Token>, i: nat)
    requires i < |tokens|
  {
    if i == 0 then forall x :: !Says(ClaimsAt(v, tokens, 0), "par_hash", x)
    else exists s :: Says(ClaimsAt(v, tokens, i), "par_hash", JStr(s)) && v.decode(s) == Some(v.digest(tokens[i - 1].signingInput))
  }

  /** A commitment that is not base64url, or one on the first token. */
  ghost predicate IsIllegible(v: Verifier, tokens: seq<Token>, i: nat)
    requires i < |tokens|
  {
    i == 0 || exists s :: Says(ClaimsAt(v, tokens, i), "par_hash", JStr(s)) && v.decode(s).None?
  }

  /** The first token bounds the number of tokens, and each carries its own position. */
  ghost predicate IsBounded(v: Verifier, tokens: seq<Token>)
    requires tokens != []
  {
    exists n :: 0 < n && |tokens| <= n && Says(ClaimsAt(v, tokens, 0), "del_max_depth", JNum(n))
  }

  predicate IsPlaced(v: Verifier, tokens: seq<Token>, i: nat)
    requires i < |tokens|
  {
    Says(ClaimsAt(v, tokens, i), "del_depth", JNum(i))
  }

  ghost predicate IsOfOnePrincipal(v: Verifier, tokens: seq<Token>, i: nat)
    requires i < |tokens|
  {
    forall x :: Says(ClaimsAt(v, tokens, i), "sub", x) <==> Says(ClaimsAt(v, tokens, 0), "sub", x)
  }

  /** The authority as it is compared: the "02" profile leaves out the derived ttl. */
  predicate IsWithinParentAt(v: Verifier, tokens: seq<Token>, i: nat)
    requires 0 < i < |tokens|
  {
    match (v.authority(i, ClaimsAt(v, tokens, i)), v.authority(i - 1, ClaimsAt(v, tokens, i - 1)))
    case (Some(a), Some(p)) => if v.profile.P02? then IsNarrower(a.(ttl := None), p.(ttl := None)) else IsNarrower(a, p)
    case _ => false
  }

  /** A depth bound restated under the "02" profile is a positive integer... */
  ghost predicate RestatesWell(v: Verifier, tokens: seq<Token>, i: nat)
    requires i < |tokens|
  {
    forall x :: Says(ClaimsAt(v, tokens, i), "del_max_depth", x) && x != JNull ==> x.JNum? && x.number > 0
  }

  /** ...and no larger than any bound stated before it. */
  ghost predicate NeverRaises(v: Verifier, tokens: seq<Token>, i: nat)
    requires i < |tokens|
  {
    forall n, j: nat, m :: j < i && Says(ClaimsAt(v, tokens, i), "del_max_depth", JNum(n)) && Says(ClaimsAt(v, tokens, j), "del_max_depth", JNum(m)) ==> n <= m
  }

  ghost predicate Attenuates(v: Verifier, tokens: seq<Token>, i: nat)
    requires i < |tokens|
  {
    i > 0 ==> IsWithinParentAt(v, tokens, i) && (v.profile.P02? ==> RestatesWell(v, tokens, i) && NeverRaises(v, tokens, i))
  }

  predicate Expires(v: Verifier, tokens: seq<Token>, i: nat, exp: int)
    requires i < |tokens|
  {
    Says(ClaimsAt(v, tokens, i), "exp", JNum(exp))
  }

  /** An integer expiry, and an integer start if there is one. */
  ghost predicate IsTimed(v: Verifier, tokens: seq<Token>, i: nat)
    requires i < |tokens|
  {
    && (exists exp :: Expires(v, tokens, i, exp))
    && forall x :: Says(ClaimsAt(v, tokens, i), "nbf", x) && x != JNull ==> x.JNum?
  }

  /** The clock is in the window, and the window ends no later than the parent's. */
  ghost predicate IsInTime(v: Verifier, tokens: seq<Token>, i: nat)
    requires i < |tokens|
  {
    && (forall n :: Says(ClaimsAt(v, tokens, i), "nbf", JNum(n)) ==> n <= v.now)
    && (forall exp :: Expires(v, tokens, i, exp) ==> v.now <= exp && (v.profile.P02? ==> v.now < exp))
    && (i > 0 ==> forall exp, parent {:trigger Expires(v, tokens, i, exp), Expires(v, tokens, i - 1, parent)} :: Expires(v, tokens, i, exp) && Expires(v, tokens, i - 1, parent) ==> exp <= parent)
  }

  // ---- each rule as what it asks ------------------------------------------

  lemma ParHashIff(v: Verifier, tokens: seq<Token>, i: nat)
    requires i < |tokens|
    ensures ParHashError(v, tokens, i).None? <==> IsCommitted(v, tokens, i)
    ensures !IsCommitted(v, tokens, i) ==> ParHashError(v, tokens, i) == Some(if IsIllegible(v, tokens, i) then Malformed else ParHashMismatch)
  {
    hide Says, Own;
    var c := Claims(v, tokens, i);
    assert c == ClaimsAt(v, tokens, i);
    forall x ensures Own(c, "par_hash") == Some(x) <==> Says(c, "par_hash", x) { OwnIff(c, "par_hash", x); }
    match Own(c, "par_hash")
    case Some(JStr(s)) => assert Says(c, "par_hash", JStr(s));
    case Some(x) => assert Says(c, "par_hash", x);
    case None =>
  }

  lemma MaxDepthIff(v: Verifier, tokens: seq<Token>, n: int)
    requires tokens != []
    ensures MaxDepth(v, tokens) == Some(n) <==> n > 0 && Says(ClaimsAt(v, tokens, 0), "del_max_depth", JNum(n))
  {
    hide Says, Own;
    OwnIff(Claims(v, tokens, 0), "del_max_depth", JNum(n));
  }

  lemma PlacedIff(v: Verifier, tokens: seq<Token>, i: nat)
    requires i < |tokens|
    ensures DepthAt(v, tokens, i) == if IsPlaced(v, tokens, i) then None else Some(DepthInvalid)
  {
    hide Says, Own;
    OwnIff(Claims(v, tokens, i), "del_depth", JNum(i));
  }

  lemma DepthIff(v: Verifier, tokens: seq<Token>)
    requires tokens != []
    ensures DepthError(v, tokens).None? <==> IsBounded(v, tokens) && forall i: nat :: i < |tokens| ==> IsPlaced(v, tokens, i)
    ensures DepthError(v, tokens).Some? ==> DepthError(v, tokens) == Some(DepthInvalid)
  {
    hide Says, MaxDepth, IsPlaced, DepthAt;
    forall n { MaxDepthIff(v, tokens, n); }
    forall i: nat | i < |tokens| ensures DepthAt(v, tokens, i) == if IsPlaced(v, tokens, i) then None else Some(DepthInvalid) { PlacedIff(v, tokens, i); }
    var rule := (i: nat) => DepthAt(v, tokens, i);
    SameReason(|tokens|, rule, DepthInvalid);
    if FirstError(|tokens|, rule).None? {
      forall i: nat | i < |tokens| ensures IsPlaced(v, tokens, i) { assert rule(i).None?; }
    }
    if MaxDepth(v, tokens).Some? { assert Says(ClaimsAt(v, tokens, 0), "del_max_depth", JNum(MaxDepth(v, tokens).value)); }
    assert IsBounded(v, tokens) <==> MaxDepth(v, tokens).Some? && |tokens| <= MaxDepth(v, tokens).value;
  }

  /** A rule with one reason. */
  lemma {:induction false} SameReason(n: nat, rule: nat -> Option<WireReason>, reason: WireReason)
    requires forall i: nat :: i < n ==> rule(i).None? || rule(i) == Some(reason)
    ensures FirstError(n, rule).None? || FirstError(n, rule) == Some(reason)
  {
    if n > 0 { SameReason(n - 1, rule, reason); }
  }

  lemma PrincipalIff(v: Verifier, tokens: seq<Token>, i: nat)
    requires i < |tokens|
    ensures PrincipalError(v, tokens, i).None? <==> (v.profile.P02? ==> IsOfOnePrincipal(v, tokens, i))
  {
    hide Says, Own;
    var c, d := Claims(v, tokens, i), Claims(v, tokens, 0);
    assert c == ClaimsAt(v, tokens, i) && d == ClaimsAt(v, tokens, 0);
    forall x ensures (Own(c, "sub") == Some(x) <==> Says(c, "sub", x)) && (Own(d, "sub") == Some(x) <==> Says(d, "sub", x)) {
      OwnIff(c, "sub", x);
      OwnIff(d, "sub", x);
    }
    if Own(c, "sub").Some? { assert Says(c, "sub", Own(c, "sub").value); }
    if Own(d, "sub").Some? { assert Says(d, "sub", Own(d, "sub").value); }
  }

  lemma WithinIff(v: Verifier, tokens: seq<Token>, i: nat)
    requires 0 < i < |tokens|
    ensures WithinParent(v, tokens, i) <==> IsWithinParentAt(v, tokens, i)
  {
    hide IsNarrower;
  }

  lemma TimeIff(v: Verifier, tokens: seq<Token>, i: nat)
    requires i < |tokens|
    ensures TimeError(v, tokens, i).None? <==> IsTimed(v, tokens, i) && IsInTime(v, tokens, i)
    ensures TimeError(v, tokens, i).Some? ==> TimeError(v, tokens, i) == Some(if IsTimed(v, tokens, i) then ExpiredToken else Malformed)
  {
    hide Says, Own;
    var c := Claims(v, tokens, i);
    assert c == ClaimsAt(v, tokens, i);
    forall x ensures (Own(c, "nbf") == Some(x) <==> Says(c, "nbf", x)) && (Own(c, "exp") == Some(x) <==> Says(c, "exp", x)) {
      OwnIff(c, "nbf", x);
      OwnIff(c, "exp", x);
    }
    ExpIff(v, tokens, i);
    if i > 0 { ExpIff(v, tokens, i - 1); }
    if Declared(c, "nbf").Some? { assert Says(c, "nbf", Declared(c, "nbf").value); }
  }

  lemma ExpIff(v: Verifier, tokens: seq<Token>, i: nat)
    requires i < |tokens|
    ensures forall exp :: ExpOf(v, tokens, i) == Some(exp) <==> Expires(v, tokens, i, exp)
    ensures ExpOf(v, tokens, i).Some? ==> Expires(v, tokens, i, ExpOf(v, tokens, i).value)
  {
    hide Says, Own;
    forall exp ensures Own(Claims(v, tokens, i), "exp") == Some(JNum(exp)) <==> Expires(v, tokens, i, exp) { OwnIff(Claims(v, tokens, i), "exp", JNum(exp)); }
  }

  // ---- the depth bound ----------------------------------------------------

  /** The bound in force is stated by some token so far, and none so far states a smaller one. */
  ghost predicate IsLeastBound(v: Verifier, tokens: seq<Token>, k: nat, b: int)
    requires k < |tokens|
  {
    && (exists j: nat :: j <= k && Says(ClaimsAt(v, tokens, j), "del_max_depth", JNum(b)))
    && forall j: nat, m :: j <= k && Says(ClaimsAt(v, tokens, j), "del_max_depth", JNum(m)) ==> b <= m
  }

  lemma StatedIff(v: Verifier, tokens: seq<Token>, i: nat)
    requires i < |tokens|
    ensures forall x :: Declared(Claims(v, tokens, i), "del_max_depth") == Some(x) <==> x != JNull && Says(ClaimsAt(v, tokens, i), "del_max_depth", x)
  {
    hide Says, Own;
    forall x { OwnIff(Claims(v, tokens, i), "del_max_depth", x); }
  }

  lemma {:induction false} BoundIsLeast(v: Verifier, tokens: seq<Token>, k: nat)
    requires k < |tokens| && v.profile.P02? && MaxDepth(v, tokens).Some?
    requires forall j: nat :: 0 < j <= k ==> RestatesWell(v, tokens, j) && NeverRaises(v, tokens, j)
    ensures BoundAfter(v, tokens, k).Some? && IsLeastBound(v, tokens, k, BoundAfter(v, tokens, k).value)
  {
    hide Says, Declared, RestatesWell, NeverRaises;
    StatedIff(v, tokens, k);
    if k == 0 {
      MaxDepthIff(v, tokens, MaxDepth(v, tokens).value);
      forall m | Says(ClaimsAt(v, tokens, 0), "del_max_depth", JNum(m)) ensures m == MaxDepth(v, tokens).value {
        assert Declared(Claims(v, tokens, 0), "del_max_depth") == Some(JNum(m));
      }
    } else {
      BoundIsLeast(v, tokens, k - 1);
      BoundStep(v, tokens, k);
    }
  }

  lemma BoundStep(v: Verifier, tokens: seq<Token>, k: nat)
    requires 0 < k < |tokens| && v.profile.P02? && RestatesWell(v, tokens, k) && NeverRaises(v, tokens, k)
    requires BoundAfter(v, tokens, k - 1).Some? && IsLeastBound(v, tokens, k - 1, BoundAfter(v, tokens, k - 1).value)
    ensures BoundAfter(v, tokens, k).Some? && IsLeastBound(v, tokens, k, BoundAfter(v, tokens, k).value)
  {
    hide Says, Declared, MaxDepth;
    StatedIff(v, tokens, k);
    var before := BoundAfter(v, tokens, k - 1).value;
    var stated := Declared(Claims(v, tokens, k), "del_max_depth");
    if stated.Some? {
      assert Says(ClaimsAt(v, tokens, k), "del_max_depth", stated.value);
      forall j: nat, m | j <= k && Says(ClaimsAt(v, tokens, j), "del_max_depth", JNum(m)) ensures stated.value.number <= m {
        if j == k { assert stated == Some(JNum(m)); }
      }
    } else {
      var j: nat :| j <= k - 1 && Says(ClaimsAt(v, tokens, j), "del_max_depth", JNum(before));
      assert forall m :: !Says(ClaimsAt(v, tokens, k), "del_max_depth", JNum(m));
    }
  }

  /** Past tokens that attenuate, the rule about subsumption asks exactly that the next one does. */
  lemma SubsumptionIff(v: Verifier, tokens: seq<Token>, i: nat)
    requires i < |tokens| && MaxDepth(v, tokens).Some? && forall j: nat :: j < i ==> Attenuates(v, tokens, j)
    ensures SubsumptionError(v, tokens, i) ==
              if Attenuates(v, tokens, i) then None
              else if IsWithinParentAt(v, tokens, i) && !RestatesWell(v, tokens, i) then Some(Malformed) else Some(NotNarrower)
  {
    hide Says, Declared, IsWithinParentAt, WithinParent, MaxDepth, BoundAfter, NeverRaises, RestatesWell;
    if i > 0 {
      WithinIff(v, tokens, i);
      if v.profile.P02? {
        forall j: nat | 0 < j <= i - 1 ensures RestatesWell(v, tokens, j) && NeverRaises(v, tokens, j) { assert Attenuates(v, tokens, j); }
        BoundIsLeast(v, tokens, i - 1);
        RestatedIff(v, tokens, i, BoundAfter(v, tokens, i - 1).value);
      }
    }
  }

  lemma RestatedIff(v: Verifier, tokens: seq<Token>, i: nat, bound: int)
    requires 0 < i < |tokens| && IsLeastBound(v, tokens, i - 1, bound)
    ensures match Declared(Claims(v, tokens, i), "del_max_depth")
            case None => RestatesWell(v, tokens, i) && NeverRaises(v, tokens, i)
            case Some(JNum(n)) => (RestatesWell(v, tokens, i) <==> n > 0) && (NeverRaises(v, tokens, i) <==> n <= bound)
            case Some(_) => !RestatesWell(v, tokens, i)
  {
    hide Says, Declared;
    StatedIff(v, tokens, i);
    var stated := Declared(Claims(v, tokens, i), "del_max_depth");
    if stated.Some? { assert Says(ClaimsAt(v, tokens, i), "del_max_depth", stated.value); }
    forall n ensures Says(ClaimsAt(v, tokens, i), "del_max_depth", JNum(n)) <==> stated == Some(JNum(n)) {}
    var j: nat :| j <= i - 1 && Says(ClaimsAt(v, tokens, j), "del_max_depth", JNum(bound));
  }

  // ---- the whole answer ---------------------------------------------------

  ghost predicate StopsOn(n: nat, rule: nat -> Option<WireReason>, i: nat, r: WireReason) {
    i < n && rule(i) == Some(r) && forall j: nat :: j < i ==> rule(j).None?
  }

  lemma {:induction false} FirstErrorIff(n: nat, rule: nat -> Option<WireReason>, r: WireReason)
    ensures FirstError(n, rule) == Some(r) <==> exists i: nat :: StopsOn(n, rule, i, r)
  {
    if n > 0 {
      FirstErrorIff(n - 1, rule, r);
      if FirstError(n, rule) == Some(r) {
        if FirstError(n - 1, rule).Some? {
          var i: nat :| StopsOn(n - 1, rule, i, r);
          assert StopsOn(n, rule, i, r);
        } else {
          assert StopsOn(n, rule, n - 1, r);
        }
      }
      if i: nat :| StopsOn(n, rule, i, r) {
        if i < n - 1 { assert StopsOn(n - 1, rule, i, r); }
      }
    }
  }

  ghost predicate AllRead(v: Verifier, tokens: seq<Token>) { forall i: nat :: i < |tokens| ==> IsRead(v, tokens, i) }

  predicate AllSigned(v: Verifier, tokens: seq<Token>) { forall i: nat :: i < |tokens| ==> v.signed(i, tokens[i]) }

  ghost predicate AllCommitted(v: Verifier, tokens: seq<Token>) { forall i: nat :: i < |tokens| ==> IsCommitted(v, tokens, i) }

  ghost predicate AllPlaced(v: Verifier, tokens: seq<Token>)
    requires tokens != []
  {
    IsBounded(v, tokens) && forall i: nat :: i < |tokens| ==> IsPlaced(v, tokens, i)
  }

  ghost predicate OnePrincipal(v: Verifier, tokens: seq<Token>) {
    v.profile.P02? ==> forall i: nat :: i < |tokens| ==> IsOfOnePrincipal(v, tokens, i)
  }

  ghost predicate AllAttenuate(v: Verifier, tokens: seq<Token>) { forall i: nat :: i < |tokens| ==> Attenuates(v, tokens, i) }

  ghost predicate AllInTime(v: Verifier, tokens: seq<Token>) { forall i: nat :: i < |tokens| ==> IsTimed(v, tokens, i) && IsInTime(v, tokens, i) }

  predicate MeetsAudience(v: Verifier, tokens: seq<Token>)
    requires tokens != []
  {
    v.profile.P02? ==> v.audienceOk(ClaimsAt(v, tokens, |tokens| - 1))
  }

  /** The first token of a step that fails it, and the reason it is denied with. */
  ghost predicate CommitmentDenied(v: Verifier, tokens: seq<Token>, i: nat, r: WireReason) {
    && i < |tokens| && !IsCommitted(v, tokens, i) && (forall j: nat :: j < i ==> IsCommitted(v, tokens, j))
    && r == if IsIllegible(v, tokens, i) then Malformed else ParHashMismatch
  }

  ghost predicate AttenuationDenied(v: Verifier, tokens: seq<Token>, i: nat, r: WireReason) {
    && 0 < i < |tokens| && !Attenuates(v, tokens, i) && (forall j: nat :: j < i ==> Attenuates(v, tokens, j))
    && r == if IsWithinParentAt(v, tokens, i) && !RestatesWell(v, tokens, i) then Malformed else NotNarrower
  }

  ghost predicate WindowDenied(v: Verifier, tokens: seq<Token>, i: nat, r: WireReason) {
    && i < |tokens| && !(IsTimed(v, tokens, i) && IsInTime(v, tokens, i))
    && (forall j: nat :: j < i ==> IsTimed(v, tokens, j) && IsInTime(v, tokens, j))
    && r == if IsTimed(v, tokens, i) then ExpiredToken else Malformed
  }

  /** The reason a chain is denied with: that of the first step it fails, in the draft's order. */
  ghost predicate IsDenied(v: Verifier, tokens: seq<Token>, r: WireReason) {
    if tokens == [] || (v.profile.P02? && !AllRead(v, tokens)) then r == Malformed
    else if !AllSigned(v, tokens) then r == SignatureInvalid
    else if !AllCommitted(v, tokens) then exists i: nat :: CommitmentDenied(v, tokens, i, r)
    else if !AllPlaced(v, tokens) then r == DepthInvalid
    else if !OnePrincipal(v, tokens) then r == PrincipalAltered
    else if !AllRead(v, tokens) then r == Malformed
    else if !AllAttenuate(v, tokens) then exists i: nat :: AttenuationDenied(v, tokens, i, r)
    else if !AllInTime(v, tokens) then exists i: nat :: WindowDenied(v, tokens, i, r)
    else !MeetsAudience(v, tokens) && r == AudienceMismatch
  }

  lemma CommitmentsIff(v: Verifier, tokens: seq<Token>, r: WireReason)
    ensures FirstParHashError(v, tokens).None? <==> AllCommitted(v, tokens)
    ensures FirstParHashError(v, tokens) == Some(r) <==> exists i: nat :: CommitmentDenied(v, tokens, i, r)
  {
    hide ParHashError, IsCommitted, IsIllegible;
    var rule := (i: nat) => ParHashError(v, tokens, i);
    forall i: nat | i < |tokens|
      ensures rule(i) == if IsCommitted(v, tokens, i) then None else Some(if IsIllegible(v, tokens, i) then Malformed else ParHashMismatch)
    {
      ParHashIff(v, tokens, i);
    }
    forall i: nat ensures StopsOn(|tokens|, rule, i, r) <==> CommitmentDenied(v, tokens, i, r) {}
    assert FirstParHashError(v, tokens) == FirstError(|tokens|, rule);
    FirstErrorIff(|tokens|, rule, r);
  }

  lemma WindowsIff(v: Verifier, tokens: seq<Token>, r: WireReason)
    ensures FirstTimeError(v, tokens).None? <==> AllInTime(v, tokens)
    ensures FirstTimeError(v, tokens) == Some(r) <==> exists i: nat :: WindowDenied(v, tokens, i, r)
  {
    hide TimeError, IsTimed, IsInTime;
    var rule := (i: nat) => TimeError(v, tokens, i);
    forall i: nat | i < |tokens|
      ensures rule(i) == if IsTimed(v, tokens, i) && IsInTime(v, tokens, i) then None else Some(if IsTimed(v, tokens, i) then ExpiredToken else Malformed)
    {
      TimeIff(v, tokens, i);
    }
    forall i: nat ensures StopsOn(|tokens|, rule, i, r) <==> WindowDenied(v, tokens, i, r) {}
    assert FirstTimeError(v, tokens) == FirstError(|tokens|, rule);
    FirstErrorIff(|tokens|, rule, r);
  }

  /** The rule about subsumption finds nothing below `n` exactly when every token so far attenuates. */
  lemma {:induction false} AttenuatedSoFar(v: Verifier, tokens: seq<Token>, n: nat)
    requires n <= |tokens| && tokens != [] && MaxDepth(v, tokens).Some?
    ensures (forall i: nat :: i < n ==> SubsumptionError(v, tokens, i).None?) <==> forall i: nat :: i < n ==> Attenuates(v, tokens, i)
  {
    hide SubsumptionError, Attenuates, MaxDepth, IsWithinParentAt, RestatesWell;
    if n > 0 {
      AttenuatedSoFar(v, tokens, n - 1);
      if forall j: nat :: j < n - 1 ==> Attenuates(v, tokens, j) { SubsumptionIff(v, tokens, n - 1); }
    }
  }

  lemma AttenuationIff(v: Verifier, tokens: seq<Token>, r: WireReason)
    requires tokens != [] && MaxDepth(v, tokens).Some?
    ensures FirstSubsumptionError(v, tokens).None? <==> AllAttenuate(v, tokens)
    ensures FirstSubsumptionError(v, tokens) == Some(r) <==> exists i: nat :: AttenuationDenied(v, tokens, i, r)
  {
    hide SubsumptionError, Attenuates, MaxDepth, IsWithinParentAt, RestatesWell;
    var rule := (i: nat) => SubsumptionError(v, tokens, i);
    AttenuatedSoFar(v, tokens, |tokens|);
    assert FirstSubsumptionError(v, tokens) == FirstError(|tokens|, rule);
    assert FirstError(|tokens|, rule).None? <==> forall i: nat :: i < |tokens| ==> SubsumptionError(v, tokens, i).None? by {
      if FirstError(|tokens|, rule).None? {
        forall i: nat | i < |tokens| ensures SubsumptionError(v, tokens, i).None? { assert rule(i).None?; }
      }
    }
    forall i: nat ensures StopsOn(|tokens|, rule, i, r) <==> AttenuationDenied(v, tokens, i, r) { AttenuationDeniedIff(v, tokens, rule, i, r); }
    FirstErrorIff(|tokens|, rule, r);
  }

  lemma AttenuationDeniedIff(v: Verifier, tokens: seq<Token>, rule: nat -> Option<WireReason>, i: nat, r: WireReason)
    requires tokens != [] && MaxDepth(v, tokens).Some? && forall j: nat :: rule(j) == SubsumptionError(v, tokens, j)
    ensures StopsOn(|tokens|, rule, i, r) <==> AttenuationDenied(v, tokens, i, r)
  {
    hide SubsumptionError, Attenuates, MaxDepth, IsWithinParentAt, RestatesWell;
    if i < |tokens| {
      AttenuatedSoFar(v, tokens, i);
      assert (forall j: nat :: j < i ==> rule(j).None?) <==> forall j: nat :: j < i ==> SubsumptionError(v, tokens, j).None? by {
        if forall j: nat :: j < i ==> rule(j).None? {
          forall j: nat | j < i ensures SubsumptionError(v, tokens, j).None? { assert rule(j).None?; }
        }
      }
      if i == 0 { FirstAttenuates(v, tokens); }
      if forall j: nat :: j < i ==> Attenuates(v, tokens, j) { SubsumptionIff(v, tokens, i); }
    }
  }

  lemma FirstAttenuates(v: Verifier, tokens: seq<Token>)
    requires tokens != []
    ensures Attenuates(v, tokens, 0) && SubsumptionError(v, tokens, 0).None?
  {
  }

  lemma ShapesIff(v: Verifier, tokens: seq<Token>)
    ensures var shape := FirstError(|tokens|, (i: nat) => ShapeError(v, tokens, i));
            (shape.None? <==> (v.profile.P02? ==> AllRead(v, tokens))) && (shape.Some? ==> shape == Some(Malformed))
  {
    var rule := (i: nat) => ShapeError(v, tokens, i);
    SameReason(|tokens|, rule, Malformed);
    forall i: nat | i < |tokens| ensures rule(i).None? <==> (v.profile.P02? ==> IsRead(v, tokens, i)) {}
    if FirstError(|tokens|, rule).None? && v.profile.P02? {
      forall i: nat | i < |tokens| ensures IsRead(v, tokens, i) { assert rule(i).None?; }
    }
  }

  lemma SignaturesIff(v: Verifier, tokens: seq<Token>)
    ensures var signature := FirstError(|tokens|, (i: nat) => SignatureError(v, tokens, i));
            (signature.None? <==> AllSigned(v, tokens)) && (signature.Some? ==> signature == Some(SignatureInvalid))
  {
    var rule := (i: nat) => SignatureError(v, tokens, i);
    SameReason(|tokens|, rule, SignatureInvalid);
    if FirstError(|tokens|, rule).None? {
      forall i: nat | i < |tokens| ensures v.signed(i, tokens[i]) { assert rule(i).None?; }
    }
  }

  lemma PrincipalsIff(v: Verifier, tokens: seq<Token>)
    ensures var principal := FirstError(|tokens|, (i: nat) => PrincipalError(v, tokens, i));
            (principal.None? <==> OnePrincipal(v, tokens)) && (principal.Some? ==> principal == Some(PrincipalAltered))
  {
    hide IsOfOnePrincipal, Own;
    var rule := (i: nat) => PrincipalError(v, tokens, i);
    SameReason(|tokens|, rule, PrincipalAltered);
    forall i: nat | i < |tokens| ensures rule(i).None? <==> (v.profile.P02? ==> IsOfOnePrincipal(v, tokens, i)) { PrincipalIff(v, tokens, i); }
    if FirstError(|tokens|, rule).None? && v.profile.P02? {
      forall i: nat | i < |tokens| ensures IsOfOnePrincipal(v, tokens, i) { assert rule(i).None?; }
    }
  }

  lemma AuthoritiesIff(v: Verifier, tokens: seq<Token>)
    ensures var authority := FirstError(|tokens|, (i: nat) => AuthorityError(v, tokens, i));
            (authority.None? <==> AllRead(v, tokens)) && (authority.Some? ==> authority == Some(Malformed))
  {
    var rule := (i: nat) => AuthorityError(v, tokens, i);
    SameReason(|tokens|, rule, Malformed);
    forall i: nat | i < |tokens| ensures rule(i).None? <==> IsRead(v, tokens, i) {}
    if FirstError(|tokens|, rule).None? {
      forall i: nat | i < |tokens| ensures IsRead(v, tokens, i) { assert rule(i).None?; }
    }
  }

  /** `load` denies with a reason exactly when the chain is denied with it. */
  lemma DeniedIff(v: Verifier, tokens: seq<Token>, r: WireReason)
    ensures LoadError(v, tokens) == Some(r) <==> IsDenied(v, tokens, r)
  {
    hide ShapeError, SignatureError, ParHashError, DepthError, PrincipalError, AuthorityError, SubsumptionError, TimeError, FirstError,
      FirstParHashError, FirstSubsumptionError, FirstTimeError, CommitmentDenied, AttenuationDenied, WindowDenied,
      AllRead, AllSigned, AllCommitted, AllPlaced, OnePrincipal, AllAttenuate, AllInTime, Claims, ClaimsAt, MaxDepth;
    if tokens != [] {
      ShapesIff(v, tokens);
      SignaturesIff(v, tokens);
      CommitmentsIff(v, tokens, r);
      PlacesIff(v, tokens);
      PrincipalsIff(v, tokens);
      AuthoritiesIff(v, tokens);
      if AllPlaced(v, tokens) { AttenuationIff(v, tokens, r); }
      WindowsIff(v, tokens, r);
      AudienceIff(v, tokens);
    }
  }

  lemma PlacesIff(v: Verifier, tokens: seq<Token>)
    requires tokens != []
    ensures DepthError(v, tokens).None? <==> AllPlaced(v, tokens)
    ensures DepthError(v, tokens).Some? ==> DepthError(v, tokens) == Some(DepthInvalid)
    ensures AllPlaced(v, tokens) ==> MaxDepth(v, tokens).Some?
  {
    hide IsBounded, IsPlaced, DepthAt, MaxDepth;
    DepthIff(v, tokens);
  }

  lemma AudienceIff(v: Verifier, tokens: seq<Token>)
    requires tokens != []
    ensures (v.profile.P02? && !v.audienceOk(Claims(v, tokens, |tokens| - 1))) <==> !MeetsAudience(v, tokens)
  {
  }

  /** `load` accepts a chain exactly when every step asks for something it has. */
  lemma AcceptedIff(v: Verifier, tokens: seq<Token>)
    ensures Accepted(v, tokens) <==>
              && tokens != [] && AllRead(v, tokens) && AllSigned(v, tokens) && AllCommitted(v, tokens) && AllPlaced(v, tokens)
              && OnePrincipal(v, tokens) && AllAttenuate(v, tokens) && AllInTime(v, tokens) && MeetsAudience(v, tokens)
  {
    hide ShapeError, SignatureError, ParHashError, DepthError, PrincipalError, AuthorityError, SubsumptionError, TimeError, FirstError,
      FirstParHashError, FirstSubsumptionError, FirstTimeError, CommitmentDenied, AttenuationDenied, WindowDenied,
      AllRead, AllSigned, AllCommitted, AllPlaced, OnePrincipal, AllAttenuate, AllInTime, Claims, ClaimsAt, MaxDepth;
    if tokens != [] {
      ShapesIff(v, tokens);
      SignaturesIff(v, tokens);
      CommitmentsIff(v, tokens, Malformed);
      PlacesIff(v, tokens);
      PrincipalsIff(v, tokens);
      AuthoritiesIff(v, tokens);
      if AllPlaced(v, tokens) { AttenuationIff(v, tokens, Malformed); }
      WindowsIff(v, tokens, Malformed);
      AudienceIff(v, tokens);
    }
  }
}
