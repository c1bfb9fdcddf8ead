/** A simple condition under which rendering is substitution, and what follows from it. */
module TemplateSafety {
  import opened Templates
  import opened TemplateGaps

  // ----- harmless braces

  /** The literal text from the start of s up to the next known placeholder. */
  ghost function LiteralRun(s: string, keys: set<string>): (n: nat)
    ensures n <= |s|
  {
    if s == "" || PlaceholderAt(s, keys).Some? then 0 else 1 + LiteralRun(s[1..], keys)
  }

  /** The literal text after a `{` does not lead into a placeholder while it could still be the
      beginning of a key. */
  ghost predicate Harmless(rest: string, keys: set<string>) {
    var n := LiteralRun(rest, keys);
    n < |rest| ==> forall k | k in keys :: !(rest[..n] <= k)
  }

  /** Every literal `{` of the template is harmless. */
  ghost predicate Safe(s: string, keys: set<string>) {
    s == "" ||
    match PlaceholderAt(s, keys)
    case Some(k) => Safe(s[|k| + 2..], keys)
    case None => (s[0] == '{' ==> Harmless(s[1..], keys)) && Safe(s[1..], keys)
  }

  /** Substitution copies the literal run at the start of s. */
  lemma {:induction false} RunIsCopied(s: string, keys: set<string>, bindings: Bindings)
    ensures var n := LiteralRun(s, keys);
            && n <= |Substitute(s, keys, bindings)| && Substitute(s, keys, bindings)[..n] == s[..n]
            && (n == |s| ==> Substitute(s, keys, bindings) == s)
  {
    if s != "" && PlaceholderAt(s, keys).None? {
      RunIsCopied(s[1..], keys, bindings);
      var n, text := LiteralRun(s, keys), Substitute(s[1..], keys, bindings);
      assert s[..n] == [s[0]] + s[1..][..n - 1];
      assert ([s[0]] + text)[..n] == [s[0]] + text[..n - 1];
      assert s == [s[0]] + s[1..];
    }
  }

  /** A placeholder that appears behind a literal `{` was spelled out there already, or the literal
      run behind it leads into a placeholder while it could begin the key. */
  lemma WherePlaceholdersAppear(rest: string, keys: set<string>, bindings: Bindings, key: string)
    ensures Placeholder(key) <= ['{'] + Substitute(rest, keys, bindings) ==>
              var n := LiteralRun(rest, keys);
              Placeholder(key) <= ['{'] + rest || (n < |rest| && rest[..n] <= key)
  {
    RunIsCopied(rest, keys, bindings);
    if Placeholder(key) <= ['{'] + Substitute(rest, keys, bindings) {
      PrefixTransfers(rest, Substitute(rest, keys, bindings), LiteralRun(rest, keys), key);
    }
  }

  lemma PrefixTransfers(rest: string, text: string, n: nat, key: string)
    requires n <= |rest| && n <= |text| && text[..n] == rest[..n] && (n == |rest| ==> text == rest)
    requires Placeholder(key) <= ['{'] + text
    ensures Placeholder(key) <= ['{'] + rest || (n < |rest| && rest[..n] <= key)
  {
    if n < |rest| {
      PlaceholderHead(text, key);
      assert forall i | 0 <= i < n :: rest[i] == rest[..n][i] == text[..n][i] == text[i];
      if n <= |key| {
        assert rest[..n] == key[..n];
      } else {
        assert rest[..|key| + 1] == key + "}";
        assert ['{'] + rest == (['{'] + (key + "}")) + rest[|key| + 1..];
      }
    }
  }

  /** After the opening brace a placeholder is its key and the closing brace. */
  lemma PlaceholderHead(text: string, key: string)
    requires Placeholder(key) <= ['{'] + text
    ensures |text| > |key| && text[..|key| + 1] == key + "}"
    ensures Placeholder(key) == ['{'] + (key + "}")
  {
    CharsOf(['{'] + text, key);
    assert text[|key|] == '}';
    assert forall i | 0 <= i < |key| :: text[i] == (['{'] + text)[i + 1] == key[i];
  }

  /** A harmless literal `{` does not begin a placeholder in the substituted text either. */
  lemma NoPlaceholderAppears(s: string, keys: set<string>, bindings: Bindings, key: string)
    requires s != "" && s[0] == '{' && PlaceholderAt(s, keys).None? && Harmless(s[1..], keys)
    requires key in keys
    ensures !(Placeholder(key) <= ['{'] + Substitute(s[1..], keys, bindings))
  {
    WherePlaceholdersAppear(s[1..], keys, bindings, key);
    assert s == ['{'] + s[1..];
  }

  /** A safe template reads nothing spurious, whatever the values. */
  lemma {:induction false} SafeIsNotSpurious(s: string, keys: set<string>, bindings: Bindings, key: string)
    requires BraceFreeKeys(keys) && BraceFreeValues(bindings) && Safe(s, keys) && key in keys
    ensures !Spurious(s, keys, bindings, key)
    decreases |s|
  {
    if s != "" {
      match PlaceholderAt(s, keys)
      case Some(k) => SafeIsNotSpurious(s[|k| + 2..], keys, bindings, key);
      case None =>
        SafeIsNotSpurious(s[1..], keys, bindings, key);
        if s[0] == '{' {
          NoPlaceholderAppears(s, keys, bindings, key);
          SpellsIsPlaceholder(s[1..], keys, bindings, key);
          PlaceholderBehindBrace(key, Substitute(s[1..], keys, bindings));
        }
    }
  }

  /** In particular when every literal `{` of the template is harmless. */
  lemma RenderIsSubstitution(template: string, ctx: Context)
    requires DistinctEntries(ctx) && BraceFreeContext(ctx) && Safe(template, Keys(ctx))
    ensures RenderWith(template, ctx) == Substitute(template, Keys(ctx), BindingsOf(ctx))
  {
    forall j | 0 <= j < |ctx| ensures !Spurious(template, Keys(ctx), BindingsOf(ctx[..j]), ctx[j].key) {
      PrefixIsBraceFree(ctx, j);
      assert ctx[j] in ctx;
      SafeIsNotSpurious(template, Keys(ctx), BindingsOf(ctx[..j]), ctx[j].key);
    }
    RenderIsExact(template, ctx);
  }

  /** The order of the context's keys does not matter. */
  lemma RenderOrderIrrelevant(template: string, ctx: Context, other: Context)
    requires DistinctEntries(ctx) && BraceFreeContext(ctx) && Safe(template, Keys(ctx))
    requires DistinctEntries(other) && forall e :: e in ctx <==> e in other
    ensures RenderWith(template, ctx) == RenderWith(template, other)
  {
    assert Keys(ctx) == Keys(other);
    RenderIsSubstitution(template, ctx);
    RenderIsSubstitution(template, other);
    BindingsContents(ctx);
    BindingsContents(other);
    forall k | k in BindingsOf(ctx) ensures BindingsOf(ctx)[k] == BindingsOf(other)[k] {
      var e :| e in ctx && e.key == k;
      BindingsLookup(ctx, e);
      BindingsLookup(other, e);
    }
    assert BindingsOf(ctx) == BindingsOf(other);
  }

  // ----- no placeholder is left

  /** No position of s starts a known placeholder. */
  ghost predicate PlaceholderFree(s: string, keys: set<string>) {
    forall i, k | 0 <= i < |s| && k in keys :: !(Placeholder(k) <= s[i..])
  }

  lemma PrependFree(text: string, tail: string, keys: set<string>)
    requires BraceFree(text) && PlaceholderFree(tail, keys)
    ensures PlaceholderFree(text + tail, keys)
  {
    var s := text + tail;
    forall i, k | 0 <= i < |s| && k in keys ensures !(Placeholder(k) <= s[i..]) {
      if i < |text| {
        assert s[i..][0] == text[i] && Placeholder(k)[0] == '{';
      } else {
        assert s[i..] == tail[i - |text|..];
      }
    }
  }

  lemma PrependChar(c: char, tail: string, keys: set<string>)
    requires PlaceholderFree(tail, keys) && forall k | k in keys :: !(Placeholder(k) <= [c] + tail)
    ensures PlaceholderFree([c] + tail, keys)
  {
    var s := [c] + tail;
    forall i, k | 0 <= i < |s| && k in keys ensures !(Placeholder(k) <= s[i..]) {
      if i == 0 {
        assert s[0..] == s;
      } else {
        assert s[i..] == tail[i - 1..];
      }
    }
  }

  lemma {:induction false} SubstituteLeavesNone(s: string, keys: set<string>, bindings: Bindings)
    requires BraceFreeKeys(keys) && BraceFreeValues(bindings) && Safe(s, keys) && keys <= bindings.Keys
    ensures PlaceholderFree(Substitute(s, keys, bindings), keys)
    decreases |s|
  {
    if s != "" {
      match PlaceholderAt(s, keys)
      case Some(k) =>
        SubstituteLeavesNone(s[|k| + 2..], keys, bindings);
        PrependFree(bindings[k], Substitute(s[|k| + 2..], keys, bindings), keys);
      case None =>
        var tail := Substitute(s[1..], keys, bindings);
        SubstituteLeavesNone(s[1..], keys, bindings);
        forall k | k in keys ensures !(Placeholder(k) <= [s[0]] + tail) {
          if s[0] == '{' {
            NoPlaceholderAppears(s, keys, bindings, k);
          } else {
            assert Placeholder(k)[0] == '{';
          }
        }
        PrependChar(s[0], tail, keys);
    }
  }

  /** Nothing that looks like a known placeholder is left in the rendered text. */
  lemma RenderLeavesNoPlaceholder(template: string, ctx: Context)
    requires DistinctEntries(ctx) && BraceFreeContext(ctx) && Safe(template, Keys(ctx))
    ensures PlaceholderFree(RenderWith(template, ctx), Keys(ctx))
  {
    RenderIsSubstitution(template, ctx);
    BindingsContents(ctx);
    SubstituteLeavesNone(template, Keys(ctx), BindingsOf(ctx));
  }

  // ----- separated templates

  ghost predicate IsIdentifierChar(c: char) {
    'a' <= c <= 'z' || 'A' <= c <= 'Z' || '0' <= c <= '9' || c == '_'
  }

  ghost predicate IsIdentifier(s: string) {
    s != "" && forall i | 0 <= i < |s| :: IsIdentifierChar(s[i])
  }

  /** Every `{` that starts no known placeholder is followed by a literal character that no key
      contains, or ends the template. */
  ghost predicate Separated(s: string, keys: set<string>) {
    forall i | 0 <= i < |s| && s[i] == '{' && PlaceholderAt(s[i..], keys).None? ::
      i + 1 < |s| ==> !IsIdentifierChar(s[i + 1]) && PlaceholderAt(s[i + 1..], keys).None?
  }

  lemma SeparatedSuffix(s: string, keys: set<string>, n: nat)
    requires n <= |s| && Separated(s, keys)
    ensures Separated(s[n..], keys)
  {
    var rest := s[n..];
    forall i | 0 <= i < |rest| && rest[i] == '{' && PlaceholderAt(rest[i..], keys).None?
      ensures i + 1 < |rest| ==> !IsIdentifierChar(rest[i + 1]) && PlaceholderAt(rest[i + 1..], keys).None?
    {
      assert rest[i..] == s[n + i..];
      if i + 1 < |rest| {
        assert rest[i + 1..] == s[n + i + 1..];
      }
    }
  }

  lemma SeparatedHead(s: string, keys: set<string>)
    requires Separated(s, keys) && s != "" && s[0] == '{' && PlaceholderAt(s, keys).None?
    requires forall k | k in keys :: IsIdentifier(k)
    ensures Harmless(s[1..], keys)
  {
    assert s[0..] == s;
    var rest := s[1..];
    var n := LiteralRun(rest, keys);
    if rest != "" {
      assert n >= 1;
      forall k | k in keys ensures !(rest[..n] <= k) {
        assert rest[..n][0] == s[1];
      }
    }
  }

  /** Separated templates over identifier keys are safe. */
  lemma {:induction false} SeparatedIsSafe(s: string, keys: set<string>)
    requires Separated(s, keys)
    requires forall k | k in keys :: IsIdentifier(k)
    ensures Safe(s, keys)
    decreases |s|
  {
    if s != "" {
      match PlaceholderAt(s, keys)
      case Some(k) =>
        SeparatedSuffix(s, keys, |k| + 2);
        SeparatedIsSafe(s[|k| + 2..], keys);
      case None =>
        SeparatedSuffix(s, keys, 1);
        SeparatedIsSafe(s[1..], keys);
        if s[0] == '{' {
          SeparatedHead(s, keys);
        }
    }
  }
}
