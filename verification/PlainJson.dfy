/**
 * Plain JSON values as the guard and the verifier read them (`Json` in src/canonical.ts), and request
 * contexts. Numbers are integers; an object keeps its members in insertion order.
 */
module PlainJson {
  import opened Results

  datatype Json =
    | JNull
    | JBool(flag: bool)
    | JNum(number: int)
    | JStr(text: string)
    | JArr(items: seq<Json>)
    | JObj(members: seq<Member>)

  datatype Member = Member(name: string, value: Json)

  /** A request context: the quantities and attributes a call declares. */
  type Context = seq<Member>

  const MAX_SAFE_INTEGER := 9007199254740991

  predicate IsSafe(n: int) {
    -MAX_SAFE_INTEGER <= n <= MAX_SAFE_INTEGER
  }

  /** The object's own value for `field`. */
  function Own(ctx: Context, field: string): (r: Option<Json>)
    ensures r.Some? ==> Member(field, r.value) in ctx
    ensures r.None? <==> forall m :: m in ctx ==> m.name != field
  {
    if ctx == [] then None
    else if ctx[0].name == field then Some(ctx[0].value)
    else Own(ctx[1..], field)
  }

  /** The value a ceiling reads: an absent member and a null one both assert nothing. */
  function Declared(ctx: Context, field: string): Option<Json> {
    match Own(ctx, field)
    case Some(JNull) => None
    case v => v
  }

  /** `ctx[field] = value` on a copy. */
  function With(ctx: Context, field: string, value: Json): Context {
    if ctx == [] then [Member(field, value)]
    else if ctx[0].name == field then [Member(field, value)] + ctx[1..]
    else [ctx[0]] + With(ctx[1..], field, value)
  }

  lemma {:induction false} OwnWith(ctx: Context, field: string, value: Json, other: string)
    ensures Own(With(ctx, field, value), other) == if other == field then Some(value) else Own(ctx, other)
  {
    if ctx != [] && ctx[0].name != field {
      OwnWith(ctx[1..], field, value, other);
      assert With(ctx, field, value)[1..] == With(ctx[1..], field, value);
    } else if ctx != [] {
      assert With(ctx, field, value)[1..] == ctx[1..];
    }
  }

  predicate NamesDiffer(members: seq<Member>) {
    forall i, j :: 0 <= i < j < |members| ==> members[i].name != members[j].name
  }

  /** Every object has each name once, as a JavaScript object does. */
  predicate IsJson(v: Json) {
    match v
    case JArr(items) => forall i :: 0 <= i < |items| ==> IsJson(items[i])
    case JObj(members) => NamesDiffer(members) && forall i :: 0 <= i < |members| ==> IsJson(members[i].value)
    case _ => true
  }

  /** Can RFC 8785 write the value: every integer in it is inside the binary64 safe range. */
  predicate Canonicalizable(v: Json) {
    match v
    case JNum(n) => IsSafe(n)
    case JArr(items) => forall i :: 0 <= i < |items| ==> Canonicalizable(items[i])
    case JObj(members) => forall i :: 0 <= i < |members| ==> Canonicalizable(members[i].value)
    case _ => true
  }

  /** Equal as JSON: the same value once object members are put in one order. */
  predicate SameJson(a: Json, b: Json) {
    match (a, b)
    case (JArr(x), JArr(y)) => |x| == |y| && forall i :: 0 <= i < |x| ==> SameJson(x[i], y[i])
    case (JObj(x), JObj(y)) => |x| == |y| && forall i :: 0 <= i < |x| ==> HasMember(y, x[i])
    case _ => a == b
  }

  /** An object holds a member of that name and value. */
  predicate HasMember(members: seq<Member>, m: Member)
    decreases m
  {
    exists j :: 0 <= j < |members| && members[j].name == m.name && SameJson(m.value, members[j].value)
  }

  lemma {:induction false} SameJsonReflexive(a: Json)
    ensures SameJson(a, a)
  {
    match a
    case JArr(x) =>
      forall i | 0 <= i < |x| ensures SameJson(x[i], x[i]) { SameJsonReflexive(x[i]); }
    case JObj(x) =>
      forall i | 0 <= i < |x| ensures HasMember(x, x[i]) { SameJsonReflexive(x[i].value); }
    case _ =>
  }

  lemma {:induction false} SameJsonTransitive(a: Json, b: Json, c: Json)
    requires SameJson(a, b) && SameJson(b, c)
    ensures SameJson(a, c)
  {
    match (a, b, c)
    case (JArr(x), JArr(y), JArr(z)) =>
      forall i | 0 <= i < |x| ensures SameJson(x[i], z[i]) { SameJsonTransitive(x[i], y[i], z[i]); }
    case (JObj(x), JObj(y), JObj(z)) =>
      forall i | 0 <= i < |x| ensures HasMember(z, x[i]) {
        var j :| 0 <= j < |y| && y[j].name == x[i].name && SameJson(x[i].value, y[j].value);
        var k :| 0 <= k < |z| && z[k].name == y[j].name && SameJson(y[j].value, z[k].value);
        SameJsonTransitive(x[i].value, y[j].value, z[k].value);
      }
    case _ =>
  }
}
