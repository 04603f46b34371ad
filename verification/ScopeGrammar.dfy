/** Scopes as segments joined by dots: what the two grammars accept, and what a held scope covers. */
module ScopeGrammar {
  import opened Results
  import opened Scopes

  /** A lower-case letter, then lower-case letters, digits, underscores and hyphens. */
  predicate IsSegment(p: string) {
    p != "" && 'a' <= p[0] <= 'z'
    && forall i :: 1 <= i < |p| ==> 'a' <= p[i] <= 'z' || '0' <= p[i] <= '9' || p[i] == '_' || p[i] == '-'
  }

  predicate AreSegments(parts: seq<string>) {
    parts != [] && forall k :: 0 <= k < |parts| ==> IsSegment(parts[k])
  }

  function Joined(parts: seq<string>): string {
    if |parts| == 0 then "" else if |parts| == 1 then parts[0] else parts[0] + "." + Joined(parts[1..])
  }

  /** Joining to a first segment keeps the string dotted, and a dotted string opens with a segment. */
  lemma {:induction false} JoinedIsDotted(parts: seq<string>)
    requires AreSegments(parts)
    ensures IsDotted(Joined(parts)) && ('.' in Joined(parts) <==> |parts| > 1)
  {
    var s := Joined(parts);
    if |parts| > 1 {
      JoinedIsDotted(parts[1..]);
      var n, rest := |parts[0]|, Joined(parts[1..]);
      assert IsSegment(parts[0]);
      assert s == parts[0] + "." + rest && s[n] == '.';
      assert forall i :: n < i < |s| ==> s[i] == rest[i - n - 1];
      forall i | 0 <= i < |s| ensures IsDottedAt(s, i) {
        if i < n { assert s[i] == parts[0][i]; }
        if 0 < i <= n { assert s[i - 1] == parts[0][i - 1]; }
        if i > n { assert IsDottedAt(rest, i - n - 1); }
        if i > n + 1 { assert s[i - 1] == rest[i - n - 2]; }
      }
    } else {
      assert IsSegment(parts[0]) && s == parts[0];
      forall i | 0 <= i < |s| ensures IsDottedAt(s, i) {}
    }
  }

  /** The first dot of a string, or its end. */
  function FirstDot(s: string): (n: nat)
    ensures n <= |s| && (n < |s| ==> s[n] == '.') && forall i :: 0 <= i < n ==> s[i] != '.'
  {
    if s == "" || s[0] == '.' then 0 else 1 + FirstDot(s[1..])
  }

  lemma {:induction false} DottedSplits(s: string) returns (parts: seq<string>)
    requires IsDotted(s)
    ensures AreSegments(parts) && s == Joined(parts)
    decreases |s|
  {
    var n := FirstDot(s);
    var first := s[..n];
    assert IsSegment(first) by {
      assert IsDottedAt(s, 0);
      forall i | 1 <= i < n ensures IsSegmentTail(first[i]) { assert IsDottedAt(s, i); }
    }
    if n == |s| {
      assert s[..n] == s;
      parts := [s];
    } else {
      var rest := s[n + 1..];
      assert IsDottedAt(s, n);
      forall i | 0 <= i < |rest| ensures IsDottedAt(rest, i) {
        assert IsDottedAt(s, n + 1 + i);
        assert rest[i] == s[n + 1 + i];
        if i > 0 { assert rest[i - 1] == s[n + i]; }
      }
      var more := DottedSplits(rest);
      parts := [first] + more;
      assert parts[1..] == more;
      assert s == first + "." + rest;
    }
  }

  /** A literal is two or more segments joined by dots. */
  lemma LiteralIff(s: string)
    ensures IsLiteral(s) <==> exists parts :: AreSegments(parts) && |parts| > 1 && s == Joined(parts)
  {
    hide AreSegments, Joined;
    if IsLiteral(s) {
      var parts := DottedSplits(s);
      JoinedIsDotted(parts);
    }
    if parts :| AreSegments(parts) && |parts| > 1 && s == Joined(parts) { JoinedIsDotted(parts); }
  }

  /** A wildcard is one or more segments joined by dots, and ".*" after them. */
  lemma WildcardIff(s: string)
    ensures IsWildcard(s) <==> exists parts :: AreSegments(parts) && s == Joined(parts) + ".*"
  {
    hide AreSegments, Joined, IsDotted;
    if IsWildcard(s) {
      var parts := DottedSplits(s[..|s| - 2]);
      assert s == s[..|s| - 2] + ".*";
    }
    if parts :| AreSegments(parts) && s == Joined(parts) + ".*" {
      JoinedIsDotted(parts);
      assert s[..|s| - 2] == Joined(parts);
    }
  }

  /** An opaque scope of the "02" profile: the token characters of RFC 6749, section 3.3, without an asterisk. */
  lemma OpaqueIff(s: string)
    ensures IsOpaque(s) <==> s != "" && forall i :: 0 <= i < |s| ==> '!' <= s[i] <= '~' && s[i] !in {'"', '\\', '*'}
  {
  }

  /** The default profile covers by equality, or by a prefix that ends in ".*" without its asterisk. */
  lemma CoversIff01(held: string, requested: string)
    ensures Covers(P01, held, requested) <==> held == requested || exists p: string :: held == p + ".*" && p + "." <= requested
  {
    if EndsWithDotStar(held) {
      var p := held[..|held| - 2];
      assert held == p + ".*" && Stem(held) == p + ".";
    }
    if p: string :| held == p + ".*" && p + "." <= requested { assert Stem(held) == p + "."; }
  }

  /** The "02" profile covers between scopes of its grammar: a wildcard covers what its prefix begins unless that is opaque. */
  lemma CoversIff02(held: string, requested: string)
    ensures Covers(P02, held, requested) <==>
              if IsWildcard(held) then
                (IsLiteral(requested) || IsWildcard(requested)) && exists p: string :: held == p + ".*" && p + "." <= requested
              else (IsLiteral(held) || IsOpaque(held)) && held == requested
  {
    hide IsDotted, IsOpaque;
    if IsWildcard(held) {
      var p := held[..|held| - 2];
      assert held == p + ".*" && Stem(held) == p + ".";
      LiteralHasNoStar(held);
      if q: string :| held == q + ".*" && q + "." <= requested { assert Stem(held) == q + "."; }
    }
  }

  lemma LiteralHasNoStar(s: string)
    requires EndsWithDotStar(s)
    ensures !IsLiteral(s)
  {
    assert !IsDottedAt(s, |s| - 1);
  }
}
