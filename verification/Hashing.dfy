/** `hashEntry` (src/audit.ts): a digest of the previous hash and the RFC 8785 text of the entry. */
module Hashing {
  import opened Results
  import opened PlainJson
  import opened Canonical
  import opened CanonicalParser
  import opened CanonicalLaws
  import opened JsonText
  import opened Audit

  // ---- the text of an entry -----------------------------------------------

  /** The entry's members, in some order. */
  ghost function Listed(e: Entry): (r: seq<Field>)
    ensures Distinct(r) && forall f :: f in r <==> f in e
    decreases |e.Keys|
  {
    if e == map[] then []
    else
      var f :| f in e;
      assert (e - {f}).Keys == e.Keys - {f};
      [f] + Listed(e - {f})
  }

  ghost predicate Lists(e: Entry, order: seq<Field>) {
    Distinct(order) && forall f :: f in order <==> f in e
  }

  function MembersIn(e: Entry, order: seq<Field>): seq<CMember>
    requires forall f :: f in order ==> f in e
  {
    seq(|order|, i requires 0 <= i < |order| => CMember(Utf16(FieldName(order[i])), Embed(e[order[i]])))
  }

  /** RFC 8785 text of the entry as an object. */
  ghost function EntryText(e: Entry): Result<Text, CanonError> {
    CanonicalJson(CObj(MembersIn(e, Listed(e))))
  }

  lemma EntryIsValue(e: Entry, order: seq<Field>)
    requires IsObject(e) && Lists(e, order)
    ensures IsValue(CObj(MembersIn(e, order)))
  {
    hide FieldName, Embed, Utf16;
    var ms := MembersIn(e, order);
    forall i | 0 <= i < |ms| ensures IsValue(ms[i].value) {
      assert order[i] in order;
      EmbedIsValue(e[order[i]]);
    }
    forall i, j | 0 <= i < j < |ms| ensures ms[i].name != ms[j].name {
      if ms[i].name == ms[j].name {
        Utf16IsInjective(FieldName(order[i]), FieldName(order[j]));
        FieldNamesDiffer(order[i], order[j]);
      }
    }
  }

  lemma NamedIff(x: Entry, ox: seq<Field>, f: Field)
    requires Lists(x, ox) && IsObject(x) && IsNamed(f)
    ensures Names(MembersIn(x, ox), Utf16(FieldName(f))) <==> f in x
  {
    hide FieldName, Embed, Utf16;
    var ms := MembersIn(x, ox);
    if Names(ms, Utf16(FieldName(f))) {
      var i :| 0 <= i < |ms| && ms[i].name == Utf16(FieldName(f));
      Utf16IsInjective(FieldName(ox[i]), FieldName(f));
      FieldNamesDiffer(ox[i], f);
    }
    if f in x {
      var i :| 0 <= i < |ox| && ox[i] == f;
      assert ms[i] in ms;
    }
  }

  lemma NamesWithinIff(x: Entry, ox: seq<Field>, y: Entry, oy: seq<Field>)
    requires Lists(x, ox) && Lists(y, oy) && IsObject(x) && IsObject(y)
    ensures (forall m :: m in MembersIn(x, ox) ==> Names(MembersIn(y, oy), m.name)) <==> x.Keys <= y.Keys
  {
    hide FieldName, Embed, Utf16, Names;
    var u, v := MembersIn(x, ox), MembersIn(y, oy);
    forall i | 0 <= i < |ox| ensures Names(v, u[i].name) <==> ox[i] in y { NamedIff(y, oy, ox[i]); }
    assert forall i :: 0 <= i < |u| ==> u[i] in u;
  }

  lemma SameKeysIff(x: Entry, ox: seq<Field>, y: Entry, oy: seq<Field>)
    requires Lists(x, ox) && Lists(y, oy) && IsObject(x) && IsObject(y)
    ensures SameNames(MembersIn(x, ox), MembersIn(y, oy)) <==> x.Keys == y.Keys
  {
    hide MembersIn, Names, Lists;
    NamesWithinIff(x, ox, y, oy);
    NamesWithinIff(y, oy, x, ox);
  }

  lemma MemberPair(x: Entry, ox: seq<Field>, y: Entry, oy: seq<Field>, i: nat, j: nat)
    requires IsObject(x) && IsObject(y) && Lists(x, ox) && Lists(y, oy) && i < |ox| && j < |oy|
    ensures ox[i] in x && oy[j] in y
    ensures var u, v := MembersIn(x, ox), MembersIn(y, oy);
            && (u[i].name == v[j].name <==> ox[i] == oy[j])
            && (SameValue(u[i].value, v[j].value) <==> SameJson(x[ox[i]], y[oy[j]]))
  {
    hide FieldName, Embed, Utf16, IsJson, SameJson, SameValue;
    assert ox[i] in ox && oy[j] in oy;
    if Utf16(FieldName(ox[i])) == Utf16(FieldName(oy[j])) {
      Utf16IsInjective(FieldName(ox[i]), FieldName(oy[j]));
      FieldNamesDiffer(ox[i], oy[j]);
    }
    SameIff(x[ox[i]], y[oy[j]]);
  }

  /** Each field stands once in a listing of the entry. */
  lemma PlaceOf(x: Entry, ox: seq<Field>, f: Field) returns (i: nat)
    requires Lists(x, ox) && f in x
    ensures i < |ox| && ox[i] == f
  {
    i :| i < |ox| && ox[i] == f;
  }

  predicate ValuesSame(u: seq<CMember>, v: seq<CMember>) {
    forall i, j :: 0 <= i < |u| && 0 <= j < |v| && u[i].name == v[j].name ==> SameValue(u[i].value, v[j].value)
  }

  lemma ValueAt(x: Entry, ox: seq<Field>, y: Entry, oy: seq<Field>, f: Field)
    requires IsObject(x) && IsObject(y) && Lists(x, ox) && Lists(y, oy) && f in x && f in y
    requires ValuesSame(MembersIn(x, ox), MembersIn(y, oy))
    ensures SameJson(x[f], y[f])
  {
    hide MembersIn, SameJson, SameValue, IsObject;
    var i := PlaceOf(x, ox, f);
    var j := PlaceOf(y, oy, f);
    MembersCount(x, ox);
    MembersCount(y, oy);
    MemberPair(x, ox, y, oy, i, j);
  }

  lemma ValuesSameIff(x: Entry, ox: seq<Field>, y: Entry, oy: seq<Field>)
    requires IsObject(x) && IsObject(y) && Lists(x, ox) && Lists(y, oy) && x.Keys == y.Keys
    ensures ValuesSame(MembersIn(x, ox), MembersIn(y, oy)) <==> forall f :: f in x ==> SameJson(x[f], y[f])
  {
    var u, v := MembersIn(x, ox), MembersIn(y, oy);
    hide MembersIn, SameJson, SameValue, IsObject;
    MembersCount(x, ox);
    MembersCount(y, oy);
    if ValuesSame(u, v) {
      forall f | f in x ensures SameJson(x[f], y[f]) { ValueAt(x, ox, y, oy, f); }
    }
    if forall f :: f in x ==> SameJson(x[f], y[f]) {
      forall i, j | 0 <= i < |u| && 0 <= j < |v| && u[i].name == v[j].name ensures SameValue(u[i].value, v[j].value) {
        MemberPair(x, ox, y, oy, i, j);
      }
    }
  }

  lemma MembersCount(x: Entry, ox: seq<Field>)
    requires forall f :: f in ox ==> f in x
    ensures |MembersIn(x, ox)| == |ox|
  {
  }

  /** Two entries, their members listed in any orders, are one value exactly when they are canonically equal. */
  lemma SameEntryIff(x: Entry, ox: seq<Field>, y: Entry, oy: seq<Field>)
    requires IsObject(x) && IsObject(y) && Lists(x, ox) && Lists(y, oy)
    ensures SameValue(CObj(MembersIn(x, ox)), CObj(MembersIn(y, oy))) <==> SameEntry(x, y)
  {
    hide MembersIn, SameJson, IsObject, Lists, SameNames;
    SameKeysIff(x, ox, y, oy);
    if x.Keys == y.Keys { ValuesSameIff(x, ox, y, oy); }
  }

  /** The text depends on no order of members, and on nothing else than the canonical entry. */
  lemma EntryTextIff(x: Entry, y: Entry)
    requires IsObject(x) && IsObject(y) && EntryText(x).Ok?
    ensures EntryText(x) == EntryText(y) <==> SameEntry(x, y)
  {
    hide MembersIn, SameEntry, SameValue, IsValue;
    EntryIsValue(x, Listed(x));
    EntryIsValue(y, Listed(y));
    SameEntryIff(x, Listed(x), y, Listed(y));
    PrintsAlikeIffSame(CObj(MembersIn(x, Listed(x))), CObj(MembersIn(y, Listed(y))));
  }

  // ---- the hash -----------------------------------------------------------

  /** SHA-256 in hex, taken to be free of collisions. */
  ghost predicate IsCollisionFree(digest: Text -> string) {
    && (forall s, t :: digest(s) == digest(t) ==> s == t)
    && (forall t :: IsDigestText(digest(t)))
  }

  /** `hashEntry`: the digest of the previous hash followed by the entry's text; nothing where there is no text. */
  ghost predicate HashesText(hash: Hasher, digest: Text -> string) {
    forall p, e :: hash(p, e) == HashOf(digest, p, e)
  }

  ghost function HashOf(digest: Text -> string, p: string, e: Entry): Option<string> {
    match EntryText(e)
    case Ok(t) => Some(digest(Utf16(p) + t))
    case Err(_) => None
  }

  lemma {:induction false} DigestHasNoBrace(p: string)
    requires IsDigestText(p)
    ensures OPEN_OBJECT !in Utf16(p)
  {
    if p != [] { DigestHasNoBrace(p[1..]); }
  }

  lemma TextOpensObject(e: Entry)
    requires EntryText(e).Ok?
    ensures EntryText(e).value != [] && EntryText(e).value[0] == OPEN_OBJECT
  {
    hide MembersIn, SerializeMembers, ValidUnicode;
  }

  /** Texts joined at the first brace come apart there. */
  lemma SplitAtBrace(a: Text, s: Text, b: Text, t: Text)
    requires OPEN_OBJECT !in a && OPEN_OBJECT !in b && s != [] && t != [] && s[0] == t[0] == OPEN_OBJECT && a + s == b + t
    ensures a == b && s == t
  {
    var whole := a + s;
    assert whole[|a|] == OPEN_OBJECT && whole[|b|] == OPEN_OBJECT;
    assert forall k :: 0 <= k < |a| ==> whole[k] == a[k];
    assert forall k :: 0 <= k < |b| ==> whole[k] == b[k];
    assert |a| == |b|;
    assert a == whole[..|a|] && b == whole[..|b|] && s == whole[|a|..] && t == whole[|b|..];
  }

  lemma SameHashSameEntry(digest: Text -> string, p: string, x: Entry, q: string, y: Entry)
    requires IsCollisionFree(digest) && IsDigestText(p) && IsDigestText(q) && IsObject(x) && IsObject(y)
    requires HashOf(digest, p, x).Some? && HashOf(digest, p, x) == HashOf(digest, q, y)
    ensures p == q && SameEntry(x, y)
  {
    hide EntryText, SameEntry, IsObject, IsDigestText, Utf16;
    TextOpensObject(x);
    TextOpensObject(y);
    DigestHasNoBrace(p);
    DigestHasNoBrace(q);
    SplitAtBrace(Utf16(p), EntryText(x).value, Utf16(q), EntryText(y).value);
    Utf16IsInjective(p, q);
    EntryTextIff(x, y);
  }

  /** Such a hash tells entries apart up to canonical equality; so the tamper-evidence results are about it. */
  lemma HashIsInjective(hash: Hasher, digest: Text -> string)
    requires HashesText(hash, digest) && IsCollisionFree(digest)
    ensures IsInjective(hash)
  {
    hide HashOf, IsObject, SameEntry, IsDigestText;
    forall p, x, q, y | IsDigestText(p) && IsDigestText(q) && IsObject(x) && IsObject(y) && hash(p, x).Some? && hash(p, x) == hash(q, y)
      ensures p == q && SameEntry(x, y)
    {
      SameHashSameEntry(digest, p, x, q, y);
    }
    forall p, x | hash(p, x).Some? ensures IsDigestText(hash(p, x).value) { HashIsDigest(digest, p, x); }
  }

  lemma HashIsDigest(digest: Text -> string, p: string, x: Entry)
    requires IsCollisionFree(digest) && HashOf(digest, p, x).Some?
    ensures IsDigestText(HashOf(digest, p, x).value)
  {
    hide EntryText;
  }

  /** And it tells nothing more apart: canonically equal entries hash alike, so no ledger result can say more. */
  lemma HashIsCanonical(hash: Hasher, digest: Text -> string, p: string, x: Entry, y: Entry)
    requires HashesText(hash, digest) && IsObject(x) && IsObject(y) && SameEntry(x, y)
    ensures hash(p, x) == hash(p, y)
  {
    hide EntryText, IsObject, SameEntry;
    if EntryText(x).Ok? { EntryTextIff(x, y); }
    if EntryText(y).Ok? {
      SameEntrySymmetric(x, y);
      EntryTextIff(y, x);
    }
  }

  lemma SameEntrySymmetric(x: Entry, y: Entry)
    requires IsObject(x) && IsObject(y) && SameEntry(x, y)
    ensures SameEntry(y, x)
  {
    hide IsJson, SameJson;
    forall f | f in y ensures SameJson(y[f], x[f]) {
      SameIff(x[f], y[f]);
      SameIff(y[f], x[f]);
      EmbedIsValue(x[f]);
      EmbedIsValue(y[f]);
      SameIffNormal(Embed(x[f]), Embed(y[f]));
      SameIffNormal(Embed(y[f]), Embed(x[f]));
    }
  }

  /** A ledger and its canonical equal verify together. */
  lemma SameLedgerSameVerdict(hash: Hasher, digest: Text -> string, x: seq<Entry>, y: seq<Entry>)
    requires HashesText(hash, digest) && AreObjects(x) && AreObjects(y) && SameLedger(x, y) && Verifies(hash, x)
    ensures Verifies(hash, y)
  {
    hide HashesText, IsObject, SameEntry;
    forall i: nat | i < |y| ensures BreakAt(hash, y, i).None? {
      assert BreakAt(hash, x, i).None?;
      SameScalars(x[i], y[i]);
      if i > 0 {
        assert BreakAt(hash, x, i - 1).None?;
        SameScalars(x[i - 1], y[i - 1]);
      }
      SameWithoutHash(x[i], y[i]);
      if PrevOf(x, i).JStr? { HashIsCanonical(hash, digest, PrevOf(x, i).text, WithoutHash(x[i]), WithoutHash(y[i])); }
    }
  }

  lemma SameScalars(x: Entry, y: Entry)
    requires SameEntry(x, y)
    ensures forall f :: f in x && (x[f].JNum? || x[f].JStr?) ==> Get(y, f) == Some(x[f])
  {
  }

  lemma SameWithoutHash(x: Entry, y: Entry)
    requires IsObject(x) && IsObject(y) && SameEntry(x, y)
    ensures IsObject(WithoutHash(x)) && IsObject(WithoutHash(y)) && SameEntry(WithoutHash(x), WithoutHash(y))
  {
    hide IsJson, SameJson;
    assert WithoutHash(x).Keys == WithoutHash(y).Keys;
  }

  // ---- there is one -------------------------------------------------------

  function HexChar(d: nat): char
    requires d < 16
  {
    if d < 10 then '0' + d as char else 'a' + (d - 10) as char
  }

  function HexWord(u: Unit): string {
    [HexChar(u / 4096), HexChar(u / 256 % 16), HexChar(u / 16 % 16), HexChar(u % 16)]
  }

  /** Text in hex, unit by unit: a digest of unbounded length that loses nothing. */
  function InHex(t: Text): string {
    if t == [] then "" else HexWord(t[0]) + InHex(t[1..])
  }

  lemma HexCharsDiffer(c: nat, d: nat)
    requires c < 16 && d < 16 && HexChar(c) == HexChar(d)
    ensures c == d
  {
  }

  lemma Nibbles(u: Unit)
    ensures u == 4096 * (u / 4096) + 256 * (u / 256 % 16) + 16 * (u / 16 % 16) + u % 16
  {
    assert u / 16 / 16 == u / 256 && u / 256 / 16 == u / 4096;
  }

  lemma HexWordsDiffer(u: Unit, v: Unit)
    requires HexWord(u) == HexWord(v)
    ensures u == v
  {
    hide HexChar;
    var a, b := HexWord(u), HexWord(v);
    assert a[0] == b[0] && a[1] == b[1] && a[2] == b[2] && a[3] == b[3];
    HexCharsDiffer(u / 4096, v / 4096);
    HexCharsDiffer(u / 256 % 16, v / 256 % 16);
    HexCharsDiffer(u / 16 % 16, v / 16 % 16);
    HexCharsDiffer(u % 16, v % 16);
    Nibbles(u);
    Nibbles(v);
  }

  lemma {:induction false} InHexIsInjective(s: Text, t: Text)
    requires InHex(s) == InHex(t)
    ensures s == t
  {
    if s != [] && t != [] {
      assert HexWord(s[0]) == InHex(s)[..4] && HexWord(t[0]) == InHex(t)[..4];
      assert InHex(s[1..]) == InHex(s)[4..] && InHex(t[1..]) == InHex(t)[4..];
      HexWordsDiffer(s[0], t[0]);
      InHexIsInjective(s[1..], t[1..]);
      assert s == [s[0]] + s[1..] && t == [t[0]] + t[1..];
    }
  }

  lemma {:induction false} InHexIsDigest(t: Text)
    ensures IsDigestText(InHex(t))
  {
    if t != [] { InHexIsDigest(t[1..]); }
  }

  /** The hypotheses are met: a hash of every entry that has a text, without collisions. */
  lemma SomeHashIsInjective() returns (hash: Hasher, digest: Text -> string)
    ensures HashesText(hash, digest) && IsCollisionFree(digest) && IsInjective(hash)
  {
    hide EntryText, InHex, IsInjective;
    digest := t => InHex(t);
    var d := digest;
    hash := (p, e) => HashOf(d, p, e);
    forall s, t | InHex(s) == InHex(t) ensures s == t { InHexIsInjective(s, t); }
    forall t ensures IsDigestText(InHex(t)) { InHexIsDigest(t); }
    HashIsInjective(hash, digest);
  }
}
