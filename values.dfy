/** The scalars a stored document holds, and the two Python operations the
    record writer applies to them: `*` (the order total) and `str(...)`
    (the returned `_id`). */
module Values {

  import opened Wrappers
  import opened Numerals

  /** One field value of a document: a string or a number, the values the
      tools' payloads carry, or the opaque handle the store adds under
      `_id`. JSON's `true`, `false` and `null` are not modelled. */
  datatype Value =
    | Str(s: string)
    | Num(n: int)
    | Oid(handle: nat)

  /** A document maps field names to values (MongoDB's dict). */
  type Document = map<string, Value>

  /** `s * n` on a Python str: `n` copies of `s`, none when `n <= 0`. The
      first copy is `s` and every later character repeats the one a copy
      before it, which with the length leaves no other string. */
  function Repeat(s: string, n: int): (r: string)
    ensures |r| == if n <= 0 then 0 else |s| * n
    ensures n > 0 ==> r[..|s|] == s
    ensures forall i :: |s| <= i < |r| ==> r[i] == r[i - |s|]
    decreases n
  {
    if n <= 0 then []
    else
      var rest := Repeat(s, n - 1);
      assert |s| * n == |s| + |s| * (n - 1);
      s + rest
  }

  /** Any string with the length, first copy and period `Repeat` promises
      is `Repeat`'s result: its contract pins down `s * n`. */
  lemma RepeatDetermined(s: string, n: int, t: string)
    requires n > 0 && |t| == |s| * n && t[..|s|] == s
    requires forall i :: |s| <= i < |t| ==> t[i] == t[i - |s|]
    ensures t == Repeat(s, n)
  {
    var r := Repeat(s, n);
    if |s| == 0 {
      assert |t| == 0;
    }
    forall i | 0 <= i < |t|
      ensures t[i] == r[i]
    {
      SamePeriodic(s, t, r, i);
    }
  }

  lemma {:induction false} SamePeriodic(s: string, t: string, r: string, i: nat)
    requires 0 < |s| <= |t| == |r| && t[..|s|] == s && r[..|s|] == s
    requires forall j :: |s| <= j < |t| ==> t[j] == t[j - |s|]
    requires forall j :: |s| <= j < |r| ==> r[j] == r[j - |s|]
    requires i < |t|
    ensures t[i] == r[i]
    decreases i
  {
    if i < |s| {
      assert t[i] == t[..|s|][i] && r[i] == r[..|s|][i];
    } else {
      SamePeriodic(s, t, r, i - |s|);
    }
  }

  /** Python's binary `*` on two field values. Two numbers multiply; a string
      and a number (either way round) repeat the string; any other pairing
      raises TypeError, given here as None. */
  function Times(a: Value, b: Value): (r: Option<Value>)
    ensures r.Some? <==> (a.Num? && (b.Num? || b.Str?)) || (a.Str? && b.Num?)
    ensures a.Num? && b.Num? ==> r == Some(Num(a.n * b.n))
    ensures a.Str? && b.Num? ==> r == Some(Str(Repeat(a.s, b.n)))
    ensures a.Num? && b.Str? ==> r == Some(Str(Repeat(b.s, a.n)))
  {
    match (a, b)
    case (Num(x), Num(y)) => Some(Num(x * y))
    case (Str(s), Num(k)) => Some(Str(Repeat(s, k)))
    case (Num(k), Str(s)) => Some(Str(Repeat(s, k)))
    case _ => None
  }

  /** Python's `str(...)` of a field value. The handle's text is its decimal
      numeral here (MongoDB prints 24 hexadecimal digits). */
  function Render(v: Value): (r: string)
    ensures v.Num? && v.n >= 0 ==> ParseInt(r) == Some(v.n)
    ensures v.Num? && v.n < 0 ==> |r| > 1 && r[0] == '-' && ParseInt(r[1..]) == Some(-v.n)
    ensures v.Oid? ==> ParseInt(r) == Some(v.handle)
    ensures v.Str? ==> r == v.s
  {
    match v
    case Str(s) => s
    case Num(n) => if n < 0 then "-" + Decimal(-n) else Decimal(n)
    case Oid(h) => Decimal(h)
  }
}
