/** Generic result types used across the model. */
module Wrappers {
  datatype Option<+T> = None | Some(value: T)
}

/** JSON-like values as the policy engine sees them, with Python's equality, ordering,
    truthiness and membership on them. */
module Json {
  import opened Wrappers

  datatype Json =
    | Null
    | Bool(flag: bool)
    | Num(number: real)
    | NaN(object: nat)
    | Str(text: string)
    | Arr(items: seq<Json>)
    | Obj(fields: map<string, Json>)

  /** True and False are the integers 1 and 0. */
  predicate IsNumber(v: Json) {
    v.Bool? || v.Num?
  }

  function AsReal(v: Json): real
    requires IsNumber(v)
  {
    if v.Bool? then (if v.flag then 1.0 else 0.0) else v.number
  }

  /** Python's test inside containers: the same object, or equal. Only for a NaN does being the
      same object add anything; decoded documents share one NaN object. */
  predicate Same(a: Json, b: Json)
    decreases a, 1
  {
    (a.NaN? && a == b) || PyEq(a, b)
  }

  /** Python's `==`: numbers and booleans compare by value, NaN equals nothing. */
  predicate PyEq(a: Json, b: Json)
    decreases a, 0
  {
    if IsNumber(a) && IsNumber(b) then AsReal(a) == AsReal(b)
    else
      match (a, b)
      case (Null, Null) => true
      case (Str(s), Str(t)) => s == t
      case (Arr(x), Arr(y)) => |x| == |y| && forall i | 0 <= i < |x| :: Same(x[i], y[i])
      case (Obj(x), Obj(y)) => x.Keys == y.Keys && forall k | k in x :: Same(x[k], y[k])
      case _ => false
  }

  /** Python's `bool(v)`. */
  predicate Truthy(v: Json) {
    match v
    case Null => false
    case Bool(b) => b
    case Num(n) => n != 0.0
    case NaN(_) => true
    case Str(s) => s != ""
    case Arr(items) => items != []
    case Obj(fields) => fields != map[]
  }

  datatype Ordering = Gt | Gte | Lt | Lte

  function Opposite(op: Ordering): Ordering {
    match op
    case Gt => Lte
    case Gte => Lt
    case Lt => Gte
    case Lte => Gt
  }

  predicate Holds(op: Ordering, sign: int) {
    match op
    case Gt => sign > 0
    case Gte => sign >= 0
    case Lt => sign < 0
    case Lte => sign <= 0
  }

  function SignOf(x: real, y: real): int {
    if x < y then -1 else if x == y then 0 else 1
  }

  /** Strings compare by code point, a proper prefix first. */
  function StrSign(s: string, t: string): int {
    if s == "" || t == "" then |s| - |t|
    else if s[0] == t[0] then StrSign(s[1..], t[1..])
    else if s[0] < t[0] then -1 else 1
  }

  /** The first position below both lengths at which the lists differ. */
  function FirstDifference(x: seq<Json>, y: seq<Json>): (i: nat)
    ensures i <= |x| && i <= |y|
    ensures i < |x| && i < |y| ==> !Same(x[i], y[i])
    ensures i == |x| || i == |y| || !Same(x[i], y[i])
    ensures forall j | 0 <= j < i :: Same(x[j], y[j])
  {
    if x == [] || y == [] || !Same(x[0], y[0]) then 0 else 1 + FirstDifference(x[1..], y[1..])
  }

  /** `a op b` for an ordering operator; None when Python raises TypeError. */
  function Compare(op: Ordering, a: Json, b: Json): Option<bool>
    decreases a
  {
    if (IsNumber(a) || a.NaN?) && (IsNumber(b) || b.NaN?) then
      Some(IsNumber(a) && IsNumber(b) && Holds(op, SignOf(AsReal(a), AsReal(b))))
    else if a.Str? && b.Str? then
      Some(Holds(op, StrSign(a.text, b.text)))
    else if a.Arr? && b.Arr? then
      var i := FirstDifference(a.items, b.items);
      if i < |a.items| && i < |b.items| then Compare(op, a.items[i], b.items[i])
      else Some(Holds(op, |a.items| - |b.items|))
    else
      None
  }

  /** Whether the pair that decides an ordering comparison holds a NaN. */
  predicate NaNDecides(a: Json, b: Json)
    decreases a
  {
    if a.NaN? then b.NaN? || IsNumber(b)
    else if b.NaN? then IsNumber(a)
    else if a.Arr? && b.Arr? then
      var i := FirstDifference(a.items, b.items);
      i < |a.items| && i < |b.items| && NaNDecides(a.items[i], b.items[i])
    else
      false
  }

  /** Substring test, Python's `s in t` on strings. */
  predicate Substring(s: string, t: string) {
    s <= t || (t != "" && Substring(s, t[1..]))
  }

  /** `a in (e or [])`; None when Python raises TypeError. */
  function Member(a: Json, e: Json): Option<bool> {
    if !Truthy(e) then Some(false)
    else
      match e
      case Arr(items) => Some(exists i | 0 <= i < |items| :: Same(a, items[i]))
      case Str(t) => if a.Str? then Some(Substring(a.text, t)) else None
      case Obj(fields) => if a.Arr? || a.Obj? then None else Some(a.Str? && a.text in fields)
      case _ => None
  }

  /** An ordering comparison and its opposite raise together, and otherwise disagree exactly
      when no NaN decides. */
  lemma {:induction false} OppositeNegates(op: Ordering, a: Json, b: Json)
    ensures Compare(op, a, b).None? <==> Compare(Opposite(op), a, b).None?
    ensures Compare(op, a, b).Some? ==>
              (Compare(Opposite(op), a, b) == Some(!Compare(op, a, b).value) <==> !NaNDecides(a, b))
    decreases a
  {
    if a.Arr? && b.Arr? {
      var i := FirstDifference(a.items, b.items);
      if i < |a.items| && i < |b.items| {
        OppositeNegates(op, a.items[i], b.items[i]);
      }
    }
  }

  lemma {:induction false} StrSignIsZero(s: string, t: string)
    ensures StrSign(s, t) == 0 <==> s == t
  {
    if s != "" && t != "" && s[0] == t[0] {
      StrSignIsZero(s[1..], t[1..]);
      assert s == [s[0]] + s[1..] && t == [t[0]] + t[1..];
    }
  }

  /** Comparable values, no NaN deciding, are in exactly one of the relations less, equal and
      greater, and the two weak orderings are the strict ones or equality. */
  lemma {:induction false} Trichotomy(a: Json, b: Json)
    requires Compare(Lt, a, b).Some? && !NaNDecides(a, b)
    ensures Compare(Gt, a, b).Some? && Compare(Lte, a, b).Some? && Compare(Gte, a, b).Some?
    ensures var less, equal, greater := Compare(Lt, a, b).value, PyEq(a, b), Compare(Gt, a, b).value;
            && (less || equal || greater) && !(less && equal) && !(less && greater) && !(equal && greater)
            && (Compare(Lte, a, b).value <==> less || equal)
            && (Compare(Gte, a, b).value <==> greater || equal)
    decreases a
  {
    if a.Str? && b.Str? {
      StrSignIsZero(a.text, b.text);
    } else if a.Arr? && b.Arr? {
      var i := FirstDifference(a.items, b.items);
      if i < |a.items| && i < |b.items| {
        Trichotomy(a.items[i], b.items[i]);
      }
    }
  }

  /** A substring begins at some position of the text. */
  lemma {:induction false} SubstringOccurs(s: string, t: string)
    ensures Substring(s, t) <==> exists i :: 0 <= i <= |t| && s <= t[i..]
  {
    if s <= t {
      assert s <= t[0..];
    } else if t != "" {
      SubstringOccurs(s, t[1..]);
      if i :| 0 <= i <= |t| && s <= t[i..] {
        assert t[0..] == t && t[i..] == t[1..][i - 1..];
      }
      if i :| 0 <= i <= |t[1..]| && s <= t[1..][i..] {
        assert t[1..][i..] == t[i + 1..];
      }
    }
  }
}
