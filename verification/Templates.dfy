/** Rendering of remediation templates: `{key}` placeholders replaced one key at a time. */
module Templates {
  import opened Wrappers

  /** A template context: keys in dictionary order, each with its value. */
  datatype Entry = Entry(key: string, value: string)
  type Context = seq<Entry>

  function Placeholder(key: string): string {
    ['{'] + key + ['}']
  }

  /** Python's s.replace(pattern, value) for a non-empty pattern. */
  function Replace(s: string, pattern: string, value: string): string
    requires pattern != []
  {
    if s == "" then ""
    else if pattern <= s then value + Replace(s[|pattern|..], pattern, value)
    else [s[0]] + Replace(s[1..], pattern, value)
  }

  /** The loop of render_template, as a fold over the context. */
  function RenderWith(template: string, ctx: Context): string {
    if ctx == [] then template
    else
      var last := ctx[|ctx| - 1];
      Replace(RenderWith(template, ctx[..|ctx| - 1]), Placeholder(last.key), last.value)
  }

  method RenderTemplate(template: Option<string>, ctx: Context) returns (out: Option<string>)
    ensures out == if template.None? || template.value == "" then None else Some(RenderWith(template.value, ctx))
  {
    if template.None? || template.value == "" {
      return None;
    }
    var text := template.value;
    for i := 0 to |ctx|
      invariant text == RenderWith(template.value, ctx[..i])
    {
      text := Replace(text, Placeholder(ctx[i].key), ctx[i].value);
      assert ctx[..i + 1][..i] == ctx[..i];
    }
    assert ctx[..|ctx|] == ctx;
    out := Some(text);
  }

  // ----- simultaneous substitution

  type Bindings = map<string, string>

  ghost predicate BraceFree(s: string) {
    forall i | 0 <= i < |s| :: s[i] != '{' && s[i] != '}'
  }

  ghost predicate BraceFreeKeys(keys: set<string>) {
    forall k | k in keys :: BraceFree(k)
  }

  ghost predicate BraceFreeValues(bindings: Bindings) {
    forall k | k in bindings :: BraceFree(bindings[k])
  }

  /** The known placeholder that starts s, if any. */
  ghost function PlaceholderAt(s: string, keys: set<string>): Option<string> {
    if exists k :: k in keys && Placeholder(k) <= s then
      var k :| k in keys && Placeholder(k) <= s; Some(k)
    else None
  }

  /** Replace every known placeholder of the template at once, left to right; keys without a
      binding are left standing. */
  ghost function Substitute(s: string, keys: set<string>, bindings: Bindings): string {
    if s == "" then ""
    else
      match PlaceholderAt(s, keys)
      case Some(k) =>
        (if k in bindings then bindings[k] else Placeholder(k)) + Substitute(s[|k| + 2..], keys, bindings)
      case None => [s[0]] + Substitute(s[1..], keys, bindings)
  }

  // ----- contexts

  ghost function Keys(ctx: Context): set<string> {
    set e | e in ctx :: e.key
  }

  /** The bindings of a context, a dictionary: no key twice. */
  ghost function BindingsOf(ctx: Context): Bindings {
    if ctx == [] then map[] else BindingsOf(ctx[..|ctx| - 1])[ctx[|ctx| - 1].key := ctx[|ctx| - 1].value]
  }

  ghost predicate DistinctEntries(ctx: Context) {
    forall i, j | 0 <= i < j < |ctx| :: ctx[i].key != ctx[j].key
  }

  ghost predicate BraceFreeContext(ctx: Context) {
    forall e | e in ctx :: BraceFree(e.key) && BraceFree(e.value)
  }

  lemma {:induction false} BindingsContents(ctx: Context)
    ensures BindingsOf(ctx).Keys == Keys(ctx)
    ensures BraceFreeContext(ctx) ==> BraceFreeValues(BindingsOf(ctx))
  {
    if ctx != [] {
      var init, last := ctx[..|ctx| - 1], ctx[|ctx| - 1];
      BindingsContents(init);
      assert ctx == init + [last];
      assert Keys(ctx) == Keys(init) + {last.key};
    }
  }

  lemma {:induction false} BindingsLookup(ctx: Context, e: Entry)
    requires DistinctEntries(ctx) && e in ctx
    ensures e.key in BindingsOf(ctx) && BindingsOf(ctx)[e.key] == e.value
  {
    var init, last := ctx[..|ctx| - 1], ctx[|ctx| - 1];
    if e != last {
      assert e in init;
      BindingsLookup(init, e);
    }
  }

  // ----- replacing and substituting

  lemma PlaceholderUnique(s: string, j: string, k: string)
    requires BraceFree(j) && BraceFree(k)
    requires Placeholder(j) <= s && Placeholder(k) <= s
    ensures j == k
  {
    CharsOf(s, j);
    CharsOf(s, k);
    assert |j| == |k|;
  }

  lemma CharsOf(s: string, key: string)
    requires Placeholder(key) <= s
    ensures |s| >= |key| + 2 && s[|key| + 1] == '}'
    ensures forall i | 0 <= i < |key| :: s[i + 1] == key[i]
  {
    var p := Placeholder(key);
    assert p[|key| + 1] == '}';
    assert forall i | 0 <= i < |p| :: s[i] == p[i];
    forall i | 0 <= i < |key| ensures s[i + 1] == key[i] {
      assert p[i + 1] == key[i];
    }
  }

  lemma PlaceholderFirst(s: string, key: string)
    requires Placeholder(key) <= s
    ensures s == Placeholder(key) + s[|key| + 2..]
  {
  }

  /** A brace-free text is copied through. */
  lemma {:induction false} ReplaceSkips(text: string, tail: string, key: string, value: string)
    requires forall i | 0 <= i < |text| :: text[i] != '{'
    ensures Replace(text + tail, Placeholder(key), value) == text + Replace(tail, Placeholder(key), value)
  {
    if text == "" {
      assert text + tail == tail;
    } else {
      var s := text + tail;
      assert s[0] == text[0] && s[1..] == text[1..] + tail;
      assert Placeholder(key)[0] == '{' && !(Placeholder(key) <= s);
      ReplaceSkips(text[1..], tail, key, value);
      var rest := Replace(tail, Placeholder(key), value);
      assert [text[0]] + (text[1..] + rest) == text + rest;
    }
  }

  lemma ReplaceHit(tail: string, key: string, value: string)
    ensures Replace(Placeholder(key) + tail, Placeholder(key), value) == value + Replace(tail, Placeholder(key), value)
  {
    var s := Placeholder(key) + tail;
    assert s[..|Placeholder(key)|] == Placeholder(key) && s[|Placeholder(key)|..] == tail;
  }

  lemma ReplaceOther(tail: string, other: string, key: string, value: string)
    requires BraceFree(other) && BraceFree(key) && other != key
    ensures Replace(Placeholder(other) + tail, Placeholder(key), value) == Placeholder(other) + Replace(tail,
                    Placeholder(key), value)
  {
    var s := Placeholder(other) + tail;
    var rest := other + ['}'];
    assert Placeholder(other) == ['{'] + rest;
    assert Placeholder(other) <= s;
    if Placeholder(key) <= s {
      PlaceholderUnique(s, other, key);
    }
    assert s[0] == '{' && s[1..] == rest + tail;
    ReplaceSkips(rest, tail, key, value);
    assert ['{'] + (rest + Replace(tail, Placeholder(key), value)) == Placeholder(other) + Replace(tail, Placeholder(key), value);
  }

  lemma ReplaceMiss(c: char, tail: string, pattern: string, value: string)
    requires pattern != [] && !(pattern <= [c] + tail)
    ensures Replace([c] + tail, pattern, value) == [c] + Replace(tail, pattern, value)
  {
    assert ([c] + tail)[1..] == tail;
  }

  lemma SubstituteHit(s: string, keys: set<string>)
    requires PlaceholderAt(s, keys).Some?
    ensures var rest := s[|PlaceholderAt(s, keys).value| + 2..];
            Substitute(s, keys, map[]) == Placeholder(PlaceholderAt(s, keys).value) + Substitute(rest, keys, map[])
  {
  }

  lemma {:induction false} SubstituteNothing(s: string, keys: set<string>)
    ensures Substitute(s, keys, map[]) == s
    decreases |s|
  {
    if s != "" {
      if PlaceholderAt(s, keys).Some? {
        PlaceholderSplits(s, keys);
        SubstituteHit(s, keys);
        SubstituteNothing(s[|PlaceholderAt(s, keys).value| + 2..], keys);
      } else {
        SubstituteNothing(s[1..], keys);
        assert s == [s[0]] + s[1..];
      }
    }
  }

  lemma PlaceholderSplits(s: string, keys: set<string>)
    requires PlaceholderAt(s, keys).Some?
    ensures var k := PlaceholderAt(s, keys).value; |k| + 2 <= |s| && s == Placeholder(k) + s[|k| + 2..]
  {
    var k := PlaceholderAt(s, keys).value;
    assert Placeholder(k) <= s;
  }
}
