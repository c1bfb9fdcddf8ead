/** What the operators of a field check answer, said of the compared values alone. */
module Operators {
  import opened Wrappers
  import opened Json
  import opened Evaluator

  // ----- equality

  /** A value with every boolean replaced by the number it is. */
  function Canonical(v: Json): Json {
    match v
    case Bool(flag) => Num(if flag then 1.0 else 0.0)
    case Arr(items) => Arr(seq(|items|, i requires 0 <= i < |items| => Canonical(items[i])))
    case Obj(fields) => Obj(map k | k in fields :: Canonical(fields[k]))
    case _ => v
  }

  lemma ListsAreCanonical(x: seq<Json>, y: seq<Json>)
    requires |x| == |y| && forall i | 0 <= i < |x| :: Canonical(x[i]) == Canonical(y[i])
    ensures Canonical(Arr(x)) == Canonical(Arr(y))
  {
    assert Canonical(Arr(x)).items == Canonical(Arr(y)).items;
  }

  lemma ObjectsAreCanonical(x: map<string, Json>, y: map<string, Json>)
    requires x.Keys == y.Keys && forall k | k in x :: Canonical(x[k]) == Canonical(y[k])
    ensures Canonical(Obj(x)) == Canonical(Obj(y))
  {
    assert Canonical(Obj(x)).fields == Canonical(Obj(y)).fields;
  }

  lemma CanonicalParts(a: Json, b: Json)
    requires Canonical(a) == Canonical(b)
    ensures a.Arr? <==> b.Arr?
    ensures a.Obj? <==> b.Obj?
    ensures a.Arr? ==> |a.items| == |b.items| && forall i | 0 <= i < |a.items| :: Canonical(a.items[i]) == Canonical(b.items[i])
    ensures a.Obj? ==> a.fields.Keys == b.fields.Keys && forall k | k in a.fields :: Canonical(a.fields[k]) == Canonical(b.fields[k])
  {
    if a.Arr? {
      var x, y := Canonical(a).items, Canonical(b).items;
      assert |x| == |a.items| && |y| == |b.items|;
      forall i | 0 <= i < |a.items| ensures Canonical(a.items[i]) == Canonical(b.items[i]) {
        assert x[i] == y[i];
      }
    }
    if a.Obj? {
      var x, y := Canonical(a).fields, Canonical(b).fields;
      assert x.Keys == a.fields.Keys && y.Keys == b.fields.Keys;
      forall k | k in a.fields ensures Canonical(a.fields[k]) == Canonical(b.fields[k]) {
        assert x[k] == y[k];
      }
    }
  }

  /** Two values are the same inside a container exactly when their canonical forms are, and equal
      when moreover they are no NaN: an equivalence in which True is 1 and False is 0, at every
      depth. */
  lemma {:induction false} EqualityIsCanonical(a: Json, b: Json)
    ensures Same(a, b) <==> Canonical(a) == Canonical(b)
    ensures PyEq(a, b) <==> Canonical(a) == Canonical(b) && !a.NaN?
    decreases a
  {
    if a.Arr? && b.Arr? {
      forall i | 0 <= i < |a.items| && i < |b.items| ensures Same(a.items[i], b.items[i]) <==> Canonical(a.items[i]) == Canonical(b.items[i]) {
        EqualityIsCanonical(a.items[i], b.items[i]);
      }
      if PyEq(a, b) {
        ListsAreCanonical(a.items, b.items);
      }
    } else if a.Obj? && b.Obj? {
      forall k | k in a.fields && k in b.fields ensures Same(a.fields[k], b.fields[k]) <==> Canonical(a.fields[k]) == Canonical(b.fields[k]) {
        EqualityIsCanonical(a.fields[k], b.fields[k]);
      }
      if PyEq(a, b) {
        ObjectsAreCanonical(a.fields, b.fields);
      }
    }
    if Canonical(a) == Canonical(b) {
      CanonicalParts(a, b);
    }
  }

  // ----- order

  /** Numbers, booleans among them, compare by value. */
  lemma NumbersCompare(op: Ordering, a: Json, b: Json)
    requires Canonical(a).Num? && Canonical(b).Num?
    ensures var x, y := Canonical(a).number, Canonical(b).number;
            Compare(op, a, b) == Some(match op case Gt => x > y case Gte => x >= y case Lt => x < y case Lte => x <= y)
  {
  }

  /** A text is less than another that continues it, or that has a greater character where they
      first differ. */
  ghost predicate TextLess(s: string, t: string) {
    exists i :: 0 <= i <= |s| && i < |t| && s[..i] == t[..i] && (i == |s| || s[i] < t[i])
  }

  lemma TailsDecide(s: string, t: string)
    requires s != "" && t != "" && s[0] == t[0]
    ensures TextLess(s, t) <==> TextLess(s[1..], t[1..])
  {
    if TextLess(s, t) {
      var i :| 0 <= i <= |s| && i < |t| && s[..i] == t[..i] && (i == |s| || s[i] < t[i]);
      assert i > 0 && s[1..][..i - 1] == s[..i][1..] == t[..i][1..] == t[1..][..i - 1];
      assert TextLess(s[1..], t[1..]);
    }
    if TextLess(s[1..], t[1..]) {
      var i :| 0 <= i <= |s[1..]| && i < |t[1..]| && s[1..][..i] == t[1..][..i] && (i == |s[1..]| || s[1..][i] < t[1..][i]);
      assert s[..i + 1] == [s[0]] + s[1..][..i] && t[..i + 1] == [t[0]] + t[1..][..i];
      assert TextLess(s, t);
    }
  }

  lemma {:induction false} SignOfTexts(s: string, t: string)
    ensures StrSign(s, t) < 0 <==> TextLess(s, t)
  {
    if s != "" && t != "" && s[0] == t[0] {
      SignOfTexts(s[1..], t[1..]);
      TailsDecide(s, t);
    } else if t != "" && (s == "" || s[0] < t[0]) {
      assert s[..0] == t[..0];
      assert TextLess(s, t);
    } else if TextLess(s, t) {
      var i :| 0 <= i <= |s| && i < |t| && s[..i] == t[..i] && (i == |s| || s[i] < t[i]);
      assert i > 0 ==> s[..i][0] == t[..i][0];
    }
  }

  lemma {:induction false} SignIsAntisymmetric(s: string, t: string)
    ensures StrSign(s, t) < 0 <==> StrSign(t, s) > 0
  {
    if s != "" && t != "" && s[0] == t[0] {
      SignIsAntisymmetric(s[1..], t[1..]);
    }
  }

  lemma TextsCompare(op: Ordering, s: string, t: string)
    ensures Compare(op, Str(s), Str(t)) == Some(match op
              case Gt => TextLess(t, s)
              case Gte => !TextLess(s, t)
              case Lt => TextLess(s, t)
              case Lte => !TextLess(t, s))
  {
    SignOfTexts(s, t);
    SignOfTexts(t, s);
    SignIsAntisymmetric(s, t);
    SignIsAntisymmetric(t, s);
  }

  /** The two lists are the same up to i, and one of them ends there or they differ there. */
  ghost predicate DifferAt(x: seq<Json>, y: seq<Json>, i: nat) {
    && i <= |x| && i <= |y|
    && (forall j | 0 <= j < i :: Canonical(x[j]) == Canonical(y[j]))
    && (i < |x| && i < |y| ==> Canonical(x[i]) != Canonical(y[i]))
  }

  /** The first elements that differ decide between two lists, and if there are none their lengths. */
  lemma ListsCompare(op: Ordering, x: seq<Json>, y: seq<Json>, i: nat)
    requires DifferAt(x, y, i)
    ensures Compare(op, Arr(x), Arr(y)) ==
            if i < |x| && i < |y| then Compare(op, x[i], y[i])
            else Some(match op case Gt => |x| > |y| case Gte => |x| >= |y| case Lt => |x| < |y| case Lte => |x| <= |y|)
  {
    forall j | 0 <= j < |x| && j < |y| ensures Same(x[j], y[j]) <==> Canonical(x[j]) == Canonical(y[j]) {
      EqualityIsCanonical(x[j], y[j]);
    }
    assert FirstDifference(x, y) == i;
  }

  /** There is always such a position. */
  lemma ListsDifferSomewhere(x: seq<Json>, y: seq<Json>)
    ensures exists i :: DifferAt(x, y, i)
  {
    var i := FirstDifference(x, y);
    forall j | 0 <= j < |x| && j < |y| ensures Same(x[j], y[j]) <==> Canonical(x[j]) == Canonical(y[j]) {
      EqualityIsCanonical(x[j], y[j]);
    }
    assert DifferAt(x, y, i);
  }

  /** Other pairs: a NaN is in no order with a number or a NaN, and nothing else compares. */
  lemma OthersCompare(op: Ordering, a: Json, b: Json)
    requires !(Canonical(a).Num? && Canonical(b).Num?) && !(a.Str? && b.Str?) && !(a.Arr? && b.Arr?)
    ensures Compare(op, a, b) ==
            if (Canonical(a).Num? || a.NaN?) && (Canonical(b).Num? || b.NaN?) then Some(false) else None
  {
  }

  // ----- truth and membership

  /** Exactly six values, up to True and False being numbers, are false. */
  lemma FalseValues(v: Json)
    ensures Truthy(v) <==> Canonical(v) !in {Null, Num(0.0), Str(""), Arr([]), Obj(map[])}
  {
    if v.Arr? {
      assert |Canonical(v).items| == |v.items|;
    } else if v.Obj? {
      assert Canonical(v).fields.Keys == v.fields.Keys;
      assert v.fields != map[] ==> v.fields.Keys != {};
    }
  }

  ghost predicate Occurs(s: string, t: string) {
    exists i :: 0 <= i <= |t| && s <= t[i..]
  }

  lemma MembershipMeaning(a: Json, e: Json)
    ensures !Truthy(e) ==> Member(a, e) == Some(false)
    ensures e.Arr? && e.items != [] ==>
              Member(a, e) == Some(exists i | 0 <= i < |e.items| :: Canonical(a) == Canonical(e.items[i]))
    ensures e.Str? && e.text != "" ==> Member(a, e) == if a.Str? then Some(Occurs(a.text, e.text)) else None
    ensures e.Obj? && e.fields != map[] ==>
              Member(a, e) == if a.Arr? || a.Obj? then None else Some(a.Str? && a.text in e.fields)
    ensures Truthy(e) && !e.Arr? && !e.Str? && !e.Obj? ==> Member(a, e) == None
  {
    if e.Arr? {
      forall i | 0 <= i < |e.items| ensures Same(a, e.items[i]) <==> Canonical(a) == Canonical(e.items[i]) {
        EqualityIsCanonical(a, e.items[i]);
      }
    } else if e.Str? && a.Str? {
      SubstringOccurs(a.text, e.text);
    }
  }

  // ----- field checks

  /** On an asset without the path every check answers, and only "missing" holds. */
  lemma AbsentField(asset: Json, path: string, operator: Operator, expected: Json)
    requires Resolve(asset, path).None?
    ensures CheckField(asset, path, operator, expected) == Is(operator == Missing)
  {
  }

  /** On an asset with the path. */
  lemma PresentField(asset: Json, path: string, expected: Json)
    requires Resolve(asset, path).Some?
    ensures CheckField(asset, path, Missing, expected) == Is(false)
    ensures CheckField(asset, path, Exists, expected) == Is(true)
    ensures CheckField(asset, path, Unsupported, expected) == Raised
    ensures var actual := Resolve(asset, path).value;
            && CheckField(asset, path, Eq, expected) == Is(Canonical(actual) == Canonical(expected) && !actual.NaN?)
            && CheckField(asset, path, Ne, expected) == Is(Canonical(actual) != Canonical(expected) || actual.NaN?)
            && CheckField(asset, path, IsTrue, expected) == Is(Canonical(actual) !in {Null, Num(0.0), Str(""), Arr([]), Obj(map[])})
            && CheckField(asset, path, IsFalse, expected) == Is(Canonical(actual) in {Null, Num(0.0), Str(""), Arr([]), Obj(map[])})
  {
    EqualityIsCanonical(Resolve(asset, path).value, expected);
    FalseValues(Resolve(asset, path).value);
  }

  /** So "n gt 1" holds exactly when the number there is greater than 1, and so on. */
  lemma NumberField(asset: Json, path: string, op: Ordering, expected: Json)
    requires Resolve(asset, path).Some? && Canonical(Resolve(asset, path).value).Num? && Canonical(expected).Num?
    ensures var x, y := Canonical(Resolve(asset, path).value).number, Canonical(expected).number;
            CheckField(asset, path, Operator.Ordered(op), expected) ==
            Is(match op case Gt => x > y case Gte => x >= y case Lt => x < y case Lte => x <= y)
  {
    NumbersCompare(op, Resolve(asset, path).value, expected);
  }

  lemma TextField(asset: Json, path: string, op: Ordering, text: string)
    requires Resolve(asset, path).Some? && Resolve(asset, path).value.Str?
    ensures var s := Resolve(asset, path).value.text;
            CheckField(asset, path, Operator.Ordered(op), Str(text)) ==
            Is(match op
               case Gt => TextLess(text, s)
               case Gte => !TextLess(s, text)
               case Lt => TextLess(s, text)
               case Lte => !TextLess(text, s))
  {
    TextsCompare(op, Resolve(asset, path).value.text, text);
  }

  /** Membership in a list, and its negation. */
  lemma ListedField(asset: Json, path: string, items: seq<Json>)
    requires Resolve(asset, path).Some?
    ensures var listed := exists i | 0 <= i < |items| :: Canonical(Resolve(asset, path).value) == Canonical(items[i]);
            && CheckField(asset, path, In, Arr(items)) == Is(listed)
            && CheckField(asset, path, NotIn, Arr(items)) == Is(!listed)
  {
    MembershipMeaning(Resolve(asset, path).value, Arr(items));
  }

  // ----- paths

  /** The keys of the path, joined by dots, lead from object to object to the value. */
  ghost predicate Leads(asset: Json, keys: seq<string>, values: seq<Json>) {
    && keys != [] && |values| == |keys| + 1 && values[0] == asset
    && (forall i | 0 <= i < |keys| :: '.' !in keys[i])
    && (forall i | 0 <= i < |keys| ::
          values[i].Obj? && keys[i] in values[i].fields && values[i].fields[keys[i]] == values[i + 1])
  }

  lemma {:induction false} SplitIsUnique(keys: seq<string>)
    requires keys != [] && forall i | 0 <= i < |keys| :: '.' !in keys[i]
    ensures Split(JoinDots(keys)) == keys
    decreases |JoinDots(keys)|
  {
    var path := JoinDots(keys);
    if keys[0] == "" {
      if |keys| > 1 {
        assert path == "." + JoinDots(keys[1..]);
        assert path[1..] == JoinDots(keys[1..]);
        SplitIsUnique(keys[1..]);
        assert keys == [""] + keys[1..];
      }
    } else {
      var shorter := [keys[0][1..]] + keys[1..];
      assert keys[0] == [keys[0][0]] + keys[0][1..];
      assert shorter[1..] == keys[1..];
      assert path == [keys[0][0]] + JoinDots(shorter);
      assert path[0] == keys[0][0] && keys[0][0] in keys[0];
      assert path[1..] == JoinDots(shorter);
      SplitIsUnique(shorter);
      assert keys == [[path[0]] + shorter[0]] + shorter[1..];
    }
  }

  lemma {:induction false} PartsLead(asset: Json, keys: seq<string>, v: Json) returns (values: seq<Json>)
    requires ResolveParts(asset, keys) == Some(v)
    ensures |values| == |keys| + 1 && values[0] == asset && values[|keys|] == v
    ensures forall i | 0 <= i < |keys| ::
              values[i].Obj? && keys[i] in values[i].fields && values[i].fields[keys[i]] == values[i + 1]
    decreases keys
  {
    if keys == [] {
      values := [v];
    } else {
      var rest := PartsLead(asset.fields[keys[0]], keys[1..], v);
      values := [asset] + rest;
      forall i | 0 <= i < |keys|
        ensures values[i].Obj? && keys[i] in values[i].fields && values[i].fields[keys[i]] == values[i + 1]
      {
        assert i > 0 ==> keys[i] == keys[1..][i - 1] && values[i] == rest[i - 1];
      }
    }
  }

  lemma {:induction false} LeadingResolves(keys: seq<string>, values: seq<Json>)
    requires |values| == |keys| + 1
    requires forall i | 0 <= i < |keys| ::
               values[i].Obj? && keys[i] in values[i].fields && values[i].fields[keys[i]] == values[i + 1]
    ensures ResolveParts(values[0], keys) == Some(values[|keys|])
  {
    if keys != [] {
      LeadingResolves(keys[1..], values[1..]);
    }
  }

  /** A path resolves to a value exactly when its keys lead there. */
  lemma ResolveFollowsKeys(asset: Json, path: string, v: Json)
    ensures Resolve(asset, path) == Some(v) <==>
            exists keys, values :: Leads(asset, keys, values) && JoinDots(keys) == path && values[|keys|] == v
  {
    if Resolve(asset, path) == Some(v) {
      var values := PartsLead(asset, Split(path), v);
      SplitRoundTrip(path);
      assert Leads(asset, Split(path), values);
    }
    if keys, values :| Leads(asset, keys, values) && JoinDots(keys) == path && values[|keys|] == v {
      SplitIsUnique(keys);
      LeadingResolves(keys, values);
    }
  }

  // ----- a policy's logic

  /** A policy fails on an asset exactly when its condition holds there, however it is wrapped. */
  lemma LogicMeaning(asset: Json, logic: Logic)
    ensures logic.UnsupportedLogic? ==> EvaluateLogic(asset, logic) == Raised
    ensures !logic.UnsupportedLogic? ==>
              EvaluateLogic(asset, logic) == Evaluate(asset, if logic.FailWhen? then logic.condition else logic.node)
    ensures forall path, operator, expected ::
              Evaluate(asset, FieldCheck(path, operator, expected)) == CheckField(asset, path, operator, expected)
    ensures Evaluate(asset, Malformed) == Raised
  {
  }
}
