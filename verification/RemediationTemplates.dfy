/** Templates rendered over the context of a finding: its seven keys, in their order. */
module RemediationTemplates {
  import opened Wrappers
  import opened Templates
  import opened TemplateGaps
  import opened TemplateSafety

  // ----- the keys

  /** The keys of _resource_context, in dictionary order. */
  const CONTEXT_KEYS: seq<string> := [
    "resource_name", "bucket_name", "trail_name", "region", "account_id", "subscription_id", "resource_group"]

  lemma ContextKeyIsIdentifier(i: nat)
    requires i < 7
    ensures IsIdentifier(CONTEXT_KEYS[i])
  {
    match i
    case 0 => assert IsIdentifier("resource_name");
    case 1 => assert IsIdentifier("bucket_name");
    case 2 => assert IsIdentifier("trail_name");
    case 3 => assert IsIdentifier("region");
    case 4 => assert IsIdentifier("account_id");
    case 5 => assert IsIdentifier("subscription_id");
    case 6 => assert IsIdentifier("resource_group");
  }

  /** Their lengths tell them apart, but for two that differ in their first letter. */
  lemma ContextKeysAreDistinct()
    ensures DistinctKeys(CONTEXT_KEYS)
  {
    var lengths := [13, 11, 10, 6, 10, 15, 14];
    assert forall i | 0 <= i < 7 :: |CONTEXT_KEYS[i]| == lengths[i];
    assert CONTEXT_KEYS[2][0] != CONTEXT_KEYS[4][0];
  }

  lemma ContextKeysAreIdentifiers()
    ensures |CONTEXT_KEYS| == 7 && DistinctKeys(CONTEXT_KEYS) && BraceFreeTexts(CONTEXT_KEYS)
    ensures forall k | k in KeysIn(CONTEXT_KEYS) :: IsIdentifier(k)
  {
    ContextKeysAreDistinct();
    forall i | 0 <= i < |CONTEXT_KEYS| ensures IsIdentifier(CONTEXT_KEYS[i]) && BraceFree(CONTEXT_KEYS[i]) {
      ContextKeyIsIdentifier(i);
    }
  }

  /** For the keys a finding's context always has, in their order. */
  lemma RemediationsAreExact(template: string)
    ensures |CONTEXT_KEYS| == 7
    ensures (forall values: seq<string> | |values| == 7 && BraceFreeTexts(values) :: RendersBySubstitution(template, CONTEXT_KEYS, values))
            <==> !Misleads(template, CONTEXT_KEYS)
  {
    ContextKeysAreIdentifiers();
    TemplatesAreExact(template, CONTEXT_KEYS);
  }

  /** What the remediation templates are written for: over a finding's context a separated template
      renders by substitution. */
  lemma SeparatedRemediation(template: string, values: seq<string>)
    requires |values| == |CONTEXT_KEYS| && BraceFreeTexts(values) && Separated(template, KeysIn(CONTEXT_KEYS))
    ensures RendersBySubstitution(template, CONTEXT_KEYS, values)
  {
    ContextKeysAreIdentifiers();
    SeparatedIsSafe(template, KeysIn(CONTEXT_KEYS));
    ZipIsContext(CONTEXT_KEYS, values);
    RenderIsSubstitution(template, Zip(CONTEXT_KEYS, values));
  }

  // ----- rendering step by step

  lemma ReplaceNothing(text: string, key: string, value: string)
    requires forall i | 0 <= i < |text| :: text[i] != '{'
    ensures Replace(text, Placeholder(key), value) == text
  {
    ReplaceSkips(text, "", key, value);
    assert text + "" == text;
  }

  /** A lone placeholder is replaced by its own key and kept by another. */
  lemma ReplaceLone(key: string, other: string, value: string)
    requires BraceFree(key) && BraceFree(other) && key != other
    ensures Replace(Placeholder(key), Placeholder(key), value) == value
    ensures Replace(Placeholder(key), Placeholder(other), value) == Placeholder(key)
  {
    ReplaceHit("", key, value);
    ReplaceOther("", key, other, value);
    assert Placeholder(key) + "" == Placeholder(key);
  }

  /** The same inside a pair of literal braces. */
  lemma ReplaceBraced(key: string, other: string, value: string)
    requires BraceFree(key) && BraceFree(other) && key != other && key != "" && other != ""
    ensures Replace(Placeholder(Placeholder(key)), Placeholder(key), value) == Placeholder(value)
    ensures Replace(Placeholder(Placeholder(key)), Placeholder(other), value) == Placeholder(Placeholder(key))
  {
    var tail := Placeholder(key) + "}";
    assert Placeholder(Placeholder(key)) == ['{'] + tail;
    assert tail[0] == '{' && Placeholder(key)[1] != '{' && Placeholder(other)[1] != '{';
    assert (['{'] + tail)[1] == '{';
    ReplaceMiss('{', tail, Placeholder(key), value);
    ReplaceMiss('{', tail, Placeholder(other), value);
    ReplaceHit("}", key, value);
    ReplaceOther("}", key, other, value);
    ReplaceNothing("}", key, value);
    ReplaceNothing("}", other, value);
    assert ['{'] + (value + "}") == Placeholder(value);
  }

  lemma {:induction false} RenderSplits(template: string, front: Context, back: Context)
    ensures RenderWith(template, front + back) == RenderWith(RenderWith(template, front), back)
  {
    if back == [] {
      assert front + back == front;
    } else {
      RenderSplits(template, front, back[..|back| - 1]);
      assert (front + back)[..|front + back| - 1] == front + back[..|back| - 1];
    }
  }

  lemma RenderOne(template: string, e: Entry)
    ensures RenderWith(template, [e]) == Replace(template, Placeholder(e.key), e.value)
  {
    assert [e][..0] == [];
  }

  /** Entries that find nothing to replace. */
  lemma {:induction false} RenderIgnores(text: string, ctx: Context)
    requires forall e | e in ctx :: Replace(text, Placeholder(e.key), e.value) == text
    ensures RenderWith(text, ctx) == text
  {
    if ctx != [] {
      RenderIgnores(text, ctx[..|ctx| - 1]);
      assert ctx[|ctx| - 1] in ctx;
    }
  }

  lemma BracedIsUnwrapped(front: Context, a: Entry)
    requires BraceFree(a.key) && a.key != ""
    requires forall e | e in front :: BraceFree(e.key) && e.key != "" && e.key != a.key
    ensures RenderWith(Placeholder(Placeholder(a.key)), front + [a]) == Placeholder(a.value)
  {
    var braced := Placeholder(Placeholder(a.key));
    forall e | e in front ensures Replace(braced, Placeholder(e.key), e.value) == braced {
      ReplaceBraced(a.key, e.key, e.value);
    }
    RenderIgnores(braced, front);
    RenderSplits(braced, front, [a]);
    RenderOne(braced, a);
    UnwrapBraced(a.key, a.value);
  }

  lemma UnwrapBraced(key: string, value: string)
    requires BraceFree(key) && key != ""
    ensures Replace(Placeholder(Placeholder(key)), Placeholder(key), value) == Placeholder(value)
  {
    ReplaceBraced(key, key + "x", value);
  }

  lemma LoneIsRead(middle: Context, b: Entry)
    requires BraceFree(b.key) && forall e | e in middle :: BraceFree(e.key) && e.key != b.key
    ensures RenderWith(Placeholder(b.key), middle + [b]) == b.value
  {
    var read := Placeholder(b.key);
    forall e | e in middle ensures Replace(read, Placeholder(e.key), e.value) == read {
      ReplaceLone(b.key, e.key, e.value);
    }
    RenderIgnores(read, middle);
    RenderSplits(read, middle, [b]);
    RenderOne(read, b);
    ReplaceHit("", b.key, b.value);
    assert read + "" == read && b.value + "" == b.value;
  }

  lemma BraceFreeStays(text: string, back: Context)
    requires BraceFree(text)
    ensures RenderWith(text, back) == text
  {
    forall e | e in back ensures Replace(text, Placeholder(e.key), e.value) == text {
      ReplaceNothing(text, e.key, e.value);
    }
    RenderIgnores(text, back);
  }

  lemma RenderThree(template: string, first: Context, second: Context, third: Context)
    ensures RenderWith(template, first + second + third) == RenderWith(RenderWith(RenderWith(template, first), second), third)
  {
    RenderSplits(template, first + second, third);
    RenderSplits(template, first, second);
  }

  lemma {:induction false} LoneStays(key: string, back: Context)
    requires BraceFree(key) && forall e | e in back :: BraceFree(e.key) && e.key != key
    ensures RenderWith(Placeholder(key), back) == Placeholder(key)
  {
    forall e | e in back ensures Replace(Placeholder(key), Placeholder(e.key), e.value) == Placeholder(key) {
      ReplaceLone(key, e.key, e.value);
    }
    RenderIgnores(Placeholder(key), back);
  }

  // ----- braces that are lost and braces that are kept

  ghost predicate PlainKeys(ctx: Context) {
    DistinctEntries(ctx) && forall e | e in ctx :: BraceFree(e.key) && e.key != ""
  }

  lemma PartKeys(ctx: Context, low: nat, high: nat, i: nat)
    requires PlainKeys(ctx) && low <= high <= |ctx| && i < |ctx| && (i < low || high <= i)
    ensures forall e | e in ctx[low..high] :: BraceFree(e.key) && e.key != "" && e.key != ctx[i].key
  {
    forall e | e in ctx[low..high] ensures e in ctx && e.key != ctx[i].key {
      var k :| 0 <= k < high - low && ctx[low..high][k] == e;
      assert ctx[low + k] == e;
    }
  }

  lemma TwoParts(ctx: Context, i: nat)
    requires i < |ctx|
    ensures ctx == (ctx[0..i] + [ctx[i]]) + ctx[i + 1..|ctx|]
  {
  }

  lemma ThreeParts(ctx: Context, i: nat, j: nat)
    requires i < j < |ctx|
    ensures ctx == (ctx[0..i] + [ctx[i]]) + (ctx[i + 1..j] + [ctx[j]]) + ctx[j + 1..|ctx|]
  {
  }

  /** Braces around a placeholder whose value is a later key are lost. */
  lemma BracesAreLost(ctx: Context, i: nat, j: nat)
    requires PlainKeys(ctx) && i < j < |ctx| && ctx[i].value == ctx[j].key && BraceFree(ctx[j].value)
    ensures RenderWith(Placeholder(Placeholder(ctx[i].key)), ctx) == ctx[j].value
  {
    var front, middle, back := ctx[0..i], ctx[i + 1..j], ctx[j + 1..|ctx|];
    ThreeParts(ctx, i, j);
    RenderThree(Placeholder(Placeholder(ctx[i].key)), front + [ctx[i]], middle + [ctx[j]], back);
    PartKeys(ctx, 0, i, i);
    PartKeys(ctx, i + 1, j, j);
    assert ctx[i] in ctx && ctx[j] in ctx;
    BracedIsUnwrapped(front, ctx[i]);
    LoneIsRead(middle, ctx[j]);
    BraceFreeStays(ctx[j].value, back);
  }

  /** They are kept when that key is replaced first. */
  lemma BracesAreKept(ctx: Context, i: nat)
    requires PlainKeys(ctx) && i < |ctx| && BraceFree(ctx[i].value)
    requires forall e | e in ctx[i + 1..|ctx|] :: BraceFree(e.key) && e.key != ctx[i].value
    ensures RenderWith(Placeholder(Placeholder(ctx[i].key)), ctx) == Placeholder(ctx[i].value)
  {
    var front, back := ctx[0..i], ctx[i + 1..|ctx|];
    TwoParts(ctx, i);
    RenderSplits(Placeholder(Placeholder(ctx[i].key)), front + [ctx[i]], back);
    PartKeys(ctx, 0, i, i);
    assert ctx[i] in ctx;
    BracedIsUnwrapped(front, ctx[i]);
    LoneStays(ctx[i].value, back);
  }

  /** A value that is a later key's placeholder is read again. */
  lemma BracedValueIsRead(ctx: Context, i: nat, j: nat)
    requires PlainKeys(ctx) && i < j < |ctx| && ctx[i].value == Placeholder(ctx[j].key) && BraceFree(ctx[j].value)
    ensures RenderWith(Placeholder(ctx[i].key), ctx) == ctx[j].value
  {
    var front, middle, back := ctx[0..i], ctx[i + 1..j], ctx[j + 1..|ctx|];
    ThreeParts(ctx, i, j);
    RenderThree(Placeholder(ctx[i].key), front + [ctx[i]], middle + [ctx[j]], back);
    PartKeys(ctx, 0, i, i);
    PartKeys(ctx, i + 1, j, j);
    assert ctx[i] in ctx && ctx[j] in ctx;
    LoneIsRead(front, ctx[i]);
    LoneIsRead(middle, ctx[j]);
    BraceFreeStays(ctx[j].value, back);
  }

  lemma BracedValueIsKept(ctx: Context, i: nat, key: string)
    requires PlainKeys(ctx) && i < |ctx| && ctx[i].value == Placeholder(key) && BraceFree(key)
    requires forall e | e in ctx[i + 1..|ctx|] :: BraceFree(e.key) && e.key != key
    ensures RenderWith(Placeholder(ctx[i].key), ctx) == Placeholder(key)
  {
    var front, back := ctx[0..i], ctx[i + 1..|ctx|];
    TwoParts(ctx, i);
    RenderSplits(Placeholder(ctx[i].key), front + [ctx[i]], back);
    PartKeys(ctx, 0, i, i);
    assert ctx[i] in ctx;
    LoneIsRead(front, ctx[i]);
    LoneStays(key, back);
  }

  lemma ClosingBrace(keys: set<string>, bindings: Bindings)
    ensures Substitute("}", keys, bindings) == "}"
  {
    assert forall k | k in keys :: Placeholder(k)[0] == '{';
    assert "}"[1..] == "";
  }

  lemma NoDoubleBrace(key: string, keys: set<string>)
    requires BraceFreeKeys(keys)
    ensures PlaceholderAt(Placeholder(Placeholder(key)), keys).None?
  {
    var s := Placeholder(Placeholder(key));
    assert s[1] == '{';
    forall k | k in keys ensures Placeholder(k)[1] != s[1] {
    }
  }

  lemma KnownAt(key: string, tail: string, keys: set<string>)
    requires BraceFreeKeys(keys) && key in keys
    ensures PlaceholderAt(Placeholder(key) + tail, keys) == Some(key)
  {
    var s := Placeholder(key) + tail;
    assert Placeholder(key) <= s;
    PlaceholderUnique(s, key, PlaceholderAt(s, keys).value);
  }

  /** Substitution keeps the literal braces. */
  lemma SubstituteBraced(key: string, keys: set<string>, bindings: Bindings)
    requires BraceFreeKeys(keys) && key in keys && key in bindings
    ensures Substitute(Placeholder(Placeholder(key)), keys, bindings) == Placeholder(bindings[key])
  {
    var s := Placeholder(Placeholder(key));
    NoDoubleBrace(key, keys);
    KnownAt(key, "}", keys);
    ClosingBrace(keys, bindings);
    assert s[0] == '{' && s[1..] == Placeholder(key) + "}";
    assert (Placeholder(key) + "}")[|key| + 2..] == "}";
    assert ['{'] + (bindings[key] + "}") == Placeholder(bindings[key]);
  }

  // ----- why the conditions are needed

  /** The context of a finding. */
  function ContextOf(values: seq<string>): Context
    requires |values| == |CONTEXT_KEYS|
  {
    Zip(CONTEXT_KEYS, values)
  }

  lemma ContextFacts(values: seq<string>)
    requires |values| == |CONTEXT_KEYS|
    ensures var ctx := ContextOf(values);
            && |ctx| == 7 && PlainKeys(ctx)
            && ctx[0] == Entry("resource_name", values[0]) && ctx[3] == Entry("region", values[3])
            && ctx[4] == Entry("account_id", values[4])
  {
    ContextKeysAreIdentifiers();
    var ctx := ContextOf(values);
    forall e | e in ctx ensures BraceFree(e.key) && e.key != "" {
      var i :| 0 <= i < |ctx| && ctx[i] == e;
      ContextKeyIsIdentifier(i);
    }
  }

  /** A context with two entries swapped. */
  function Swapped(ctx: Context, i: nat, j: nat): Context
    requires i < |ctx| && j < |ctx|
  {
    ctx[i := ctx[j]][j := ctx[i]]
  }

  lemma SwappedFacts(ctx: Context, i: nat, j: nat)
    requires i < j < |ctx| && PlainKeys(ctx)
    ensures var other := Swapped(ctx, i, j);
            && PlainKeys(other) && |other| == |ctx| && other[j] == ctx[i]
            && forall e | e in other[j + 1..|other|] :: BraceFree(e.key) && e.key != ctx[j].key
  {
    var other := Swapped(ctx, i, j);
    forall e | e in other ensures e in ctx {
    }
    assert other[i] == ctx[j];
    PartKeys(other, j + 1, |other|, i);
  }

  lemma RegionLiterals()
    ensures Placeholder(Placeholder("region")) == "{{region}}" && Placeholder("region") == "{region}"
    ensures Placeholder("account_id") == "{account_id}" && Placeholder("resource_name") == "{resource_name}"
  {
  }

  lemma KeepsBraces(values: seq<string>)
    requires |values| == |CONTEXT_KEYS|
    ensures Substitute(Placeholder(Placeholder("region")), KeysIn(CONTEXT_KEYS), BindingsOf(ContextOf(values))) == Placeholder(values[3])
  {
    ContextKeysAreIdentifiers();
    var ctx := ContextOf(values);
    ZipBindings(CONTEXT_KEYS, values, 7);
    assert ctx[..7] == ctx && CONTEXT_KEYS[..7] == CONTEXT_KEYS && CONTEXT_KEYS[3] == "region";
    SubstituteBraced("region", KeysIn(CONTEXT_KEYS), BindingsOf(ctx));
  }

  /** A literal `{` in front of a placeholder: over any finding's context whose region reads
      "account_id", `{{region}}` is rendered as the account, literal braces and all, where substitution
      keeps the braces; were the account replaced before the region, rendering would keep them too. */
  lemma OrderMattersAfterLiteralBrace(values: seq<string>)
    requires |values| == |CONTEXT_KEYS| && values[3] == "account_id" && BraceFree(values[4])
    ensures RenderWith("{{region}}", ContextOf(values)) == values[4]
    ensures Substitute("{{region}}", KeysIn(CONTEXT_KEYS), BindingsOf(ContextOf(values))) == "{account_id}"
    ensures RenderWith("{{region}}", Swapped(ContextOf(values), 3, 4)) == "{account_id}"
  {
    RegionLiterals();
    ContextFacts(values);
    BracesAreLost(ContextOf(values), 3, 4);
    KeepsBraces(values);
    SwappedFacts(ContextOf(values), 3, 4);
    BracesAreKept(Swapped(ContextOf(values), 3, 4), 4);
  }

  /** A value with braces: a resource named "{region}" is rendered as its region, because the region is
      replaced after the name; were it replaced before, the name would stay. */
  lemma OrderMattersForBracedValue(values: seq<string>)
    requires |values| == |CONTEXT_KEYS| && values[0] == "{region}" && BraceFree(values[3])
    ensures RenderWith("{resource_name}", ContextOf(values)) == values[3]
    ensures RenderWith("{resource_name}", Swapped(ContextOf(values), 0, 3)) == "{region}"
  {
    RegionLiterals();
    ContextFacts(values);
    BracedValueIsRead(ContextOf(values), 0, 3);
    SwappedFacts(ContextOf(values), 0, 3);
    BracedValueIsKept(Swapped(ContextOf(values), 0, 3), 3, "region");
  }
}
