/** Exactly when rendering one key at a time is simultaneous substitution: for given values, and for all values at once. */
module TemplateGaps {
  import opened Wrappers
  import opened Templates

  // ----- gaps: what stands behind a literal brace

  datatype Piece = Text(c: char) | Hole(key: string)

  function Prepend(piece: Piece, gap: Option<seq<Piece>>): Option<seq<Piece>> {
    match gap
    case None => None
    case Some(pieces) => Some([piece] + pieces)
  }

  /** The literal characters and placeholders up to the next literal brace, if that brace closes. */
  ghost function Gap(rest: string, keys: set<string>): Option<seq<Piece>>
    decreases |rest|
  {
    if rest == "" then None
    else
      match PlaceholderAt(rest, keys)
      case Some(k) => Prepend(Hole(k), Gap(rest[|k| + 2..], keys))
      case None =>
        if rest[0] == '}' then Some([])
        else if rest[0] == '{' then None
        else Prepend(Text(rest[0]), Gap(rest[1..], keys))
  }

  function Holes(gap: seq<Piece>): set<string> {
    set p | p in gap && p.Hole? :: p.key
  }

  /** What a gap reads once its placeholders have values; None while one of them has none. */
  function Spell(gap: seq<Piece>, bindings: Bindings): Option<string> {
    if gap == [] then Some("")
    else
      match Spell(gap[1..], bindings)
      case None => None
      case Some(tail) =>
        match gap[0]
        case Text(c) => Some([c] + tail)
        case Hole(k) => if k in bindings then Some(bindings[k] + tail) else None
  }

  ghost predicate Spells(rest: string, keys: set<string>, bindings: Bindings, key: string) {
    Gap(rest, keys).Some? && Spell(Gap(rest, keys).value, bindings) == Some(key)
  }

  /** Some literal `{` of the template is followed by a gap that reads `key`: with its braces it looks
      like a placeholder. */
  ghost predicate Spurious(s: string, keys: set<string>, bindings: Bindings, key: string)
    decreases |s|
  {
    s != "" &&
    match PlaceholderAt(s, keys)
    case Some(k) => Spurious(s[|k| + 2..], keys, bindings, key)
    case None => (s[0] == '{' && Spells(s[1..], keys, bindings, key)) || Spurious(s[1..], keys, bindings, key)
  }

  // ----- a gap that spells a key looks like its placeholder

  lemma PlaceholderBehindBrace(key: string, text: string)
    ensures Placeholder(key) <= ['{'] + text <==> key + ['}'] <= text
  {
    assert Placeholder(key) == ['{'] + (key + ['}']);
    assert (['{'] + text)[1..] == text;
    if Placeholder(key) <= ['{'] + text {
      assert Placeholder(key)[1..] == key + ['}'];
    }
  }

  /** A brace-free text in front is read before anything behind it. */
  lemma ReadThrough(front: string, text: string, key: string)
    requires BraceFree(front)
    ensures key + ['}'] <= front + text <==> front <= key && key[|front|..] + ['}'] <= text
  {
    var whole := front + text;
    if key + ['}'] <= whole {
      assert whole[|key|] == '}';
      assert |front| <= |key|;
      assert forall i | 0 <= i < |front| :: key[i] == (key + ['}'])[i] == whole[i] == front[i];
      assert key == front + key[|front|..];
      assert whole[|front|..] == text && (key + ['}'])[|front|..] == key[|front|..] + ['}'];
    }
    if front <= key && key[|front|..] + ['}'] <= text {
      assert key == front + key[|front|..];
      assert key + ['}'] == front + (key[|front|..] + ['}']);
    }
  }

  lemma BraceFreeSuffix(key: string, n: nat)
    requires BraceFree(key) && n <= |key|
    ensures BraceFree(key[n..])
  {
  }

  lemma BraceStops(c: char, text: string, key: string)
    requires BraceFree(key) && (c == '{' || c == '}')
    ensures key + ['}'] <= [c] + text <==> c == '}' && key == ""
  {
    if key + ['}'] <= [c] + text {
      assert (key + ['}'])[0] == c;
    }
  }

  lemma SpellsHole(rest: string, keys: set<string>, bindings: Bindings, key: string)
    requires rest != "" && PlaceholderAt(rest, keys).Some?
    ensures var k := PlaceholderAt(rest, keys).value;
            Spells(rest, keys, bindings, key) <==>
            k in bindings && bindings[k] <= key && Spells(rest[|k| + 2..], keys, bindings, key[|bindings[k]|..])
  {
    var k := PlaceholderAt(rest, keys).value;
    var tail := Gap(rest[|k| + 2..], keys);
    if tail.Some? {
      assert ([Hole(k)] + tail.value)[1..] == tail.value;
      if k in bindings && bindings[k] <= key {
        assert key == bindings[k] + key[|bindings[k]|..];
      }
    }
  }

  lemma SpellsText(rest: string, keys: set<string>, bindings: Bindings, key: string)
    requires rest != "" && PlaceholderAt(rest, keys).None? && rest[0] != '{' && rest[0] != '}'
    ensures Spells(rest, keys, bindings, key) <==> [rest[0]] <= key && Spells(rest[1..], keys, bindings, key[1..])
  {
    var tail := Gap(rest[1..], keys);
    if tail.Some? {
      assert ([Text(rest[0])] + tail.value)[1..] == tail.value;
      if [rest[0]] <= key {
        assert key == [rest[0]] + key[1..];
      }
    }
  }

  ghost predicate ReadsAsSpelled(rest: string, keys: set<string>, bindings: Bindings, key: string) {
    key + ['}'] <= Substitute(rest, keys, bindings) <==> Spells(rest, keys, bindings, key)
  }

  lemma ReadsUnboundHole(rest: string, keys: set<string>, bindings: Bindings, key: string)
    requires BraceFree(key) && rest != "" && PlaceholderAt(rest, keys).Some? && PlaceholderAt(rest, keys).value !in bindings
    ensures ReadsAsSpelled(rest, keys, bindings, key)
  {
    var k := PlaceholderAt(rest, keys).value;
    var tail := Substitute(rest[|k| + 2..], keys, bindings);
    SpellsHole(rest, keys, bindings, key);
    Joined(k, tail);
    BraceStops('{', (k + ['}']) + tail, key);
  }

  lemma Joined(k: string, tail: string)
    ensures Placeholder(k) + tail == ['{'] + ((k + ['}']) + tail)
  {
  }

  lemma ReadsBoundHole(rest: string, keys: set<string>, bindings: Bindings, key: string)
    requires BraceFreeValues(bindings) && BraceFree(key)
    requires rest != "" && PlaceholderAt(rest, keys).Some? && PlaceholderAt(rest, keys).value in bindings
    requires var k := PlaceholderAt(rest, keys).value;
             bindings[k] <= key ==> ReadsAsSpelled(rest[|k| + 2..], keys, bindings, key[|bindings[k]|..])
    ensures ReadsAsSpelled(rest, keys, bindings, key)
  {
    var k := PlaceholderAt(rest, keys).value;
    SpellsHole(rest, keys, bindings, key);
    ReadThrough(bindings[k], Substitute(rest[|k| + 2..], keys, bindings), key);
  }

  lemma ReadsText(rest: string, keys: set<string>, bindings: Bindings, key: string)
    requires BraceFree(key) && rest != "" && PlaceholderAt(rest, keys).None?
    requires rest[0] != '{' && rest[0] != '}' && [rest[0]] <= key ==> ReadsAsSpelled(rest[1..], keys, bindings, key[1..])
    ensures ReadsAsSpelled(rest, keys, bindings, key)
  {
    var tail := Substitute(rest[1..], keys, bindings);
    if rest[0] == '{' || rest[0] == '}' {
      BraceStops(rest[0], tail, key);
    } else {
      SpellsText(rest, keys, bindings, key);
      ReadThrough([rest[0]], tail, key);
    }
  }

  /** A placeholder stands behind a literal `{` of the substituted text exactly when the gap there
      spells it. */
  lemma {:induction false} SpellsIsPlaceholder(rest: string, keys: set<string>, bindings: Bindings, key: string)
    requires BraceFreeKeys(keys) && BraceFreeValues(bindings) && BraceFree(key)
    ensures ReadsAsSpelled(rest, keys, bindings, key)
    decreases |rest|
  {
    if rest != "" {
      match PlaceholderAt(rest, keys)
      case Some(k) =>
        if k !in bindings {
          ReadsUnboundHole(rest, keys, bindings, key);
        } else {
          if bindings[k] <= key {
            BraceFreeSuffix(key, |bindings[k]|);
            SpellsIsPlaceholder(rest[|k| + 2..], keys, bindings, key[|bindings[k]|..]);
          }
          ReadsBoundHole(rest, keys, bindings, key);
        }
      case None =>
        if rest[0] != '{' && rest[0] != '}' && [rest[0]] <= key {
          BraceFreeSuffix(key, 1);
          SpellsIsPlaceholder(rest[1..], keys, bindings, key[1..]);
        }
        ReadsText(rest, keys, bindings, key);
    }
  }

  /** Unless something spurious is read, replacing one more key in the substituted text is
      substituting with one more binding. */
  lemma {:induction false} ReplaceWithoutSpurious(s: string, keys: set<string>, bindings: Bindings, key: string, value: string)
    requires BraceFreeKeys(keys) && BraceFreeValues(bindings)
    requires key in keys && key !in bindings && !Spurious(s, keys, bindings, key)
    ensures Replace(Substitute(s, keys, bindings), Placeholder(key), value) == Substitute(s, keys, bindings[key := value])
    decreases |s|
  {
    if s != "" {
      match PlaceholderAt(s, keys)
      case Some(k) =>
        var tail := Substitute(s[|k| + 2..], keys, bindings);
        ReplaceWithoutSpurious(s[|k| + 2..], keys, bindings, key, value);
        if k in bindings {
          ReplaceSkips(bindings[k], tail, key, value);
        } else if k == key {
          ReplaceHit(tail, key, value);
        } else {
          ReplaceOther(tail, k, key, value);
        }
      case None =>
        var tail := Substitute(s[1..], keys, bindings);
        ReplaceWithoutSpurious(s[1..], keys, bindings, key, value);
        NoSpuriousHead(s, keys, bindings, key);
        ReplaceMiss(s[0], tail, Placeholder(key), value);
    }
  }

  lemma NoSpuriousHead(s: string, keys: set<string>, bindings: Bindings, key: string)
    requires BraceFreeKeys(keys) && BraceFreeValues(bindings) && key in keys
    requires s != "" && PlaceholderAt(s, keys).None? && !Spurious(s, keys, bindings, key)
    ensures !(Placeholder(key) <= [s[0]] + Substitute(s[1..], keys, bindings))
  {
    var tail := Substitute(s[1..], keys, bindings);
    if s[0] == '{' {
      SpellsIsPlaceholder(s[1..], keys, bindings, key);
      PlaceholderBehindBrace(key, tail);
    } else {
      assert Placeholder(key)[0] == '{' && ([s[0]] + tail)[0] == s[0];
    }
  }

  // ----- counting braces

  function Opens(s: string): nat {
    if s == "" then 0 else (if s[0] == '{' then 1 else 0) + Opens(s[1..])
  }

  /** At how many positions s reads the placeholder of a key. */
  function Occurrences(s: string, key: string): nat {
    if s == "" then 0 else (if Placeholder(key) <= s then 1 else 0) + Occurrences(s[1..], key)
  }

  lemma {:induction false} OpensAppend(s: string, t: string)
    ensures Opens(s + t) == Opens(s) + Opens(t)
  {
    if s == "" {
      assert s + t == t;
    } else {
      assert (s + t)[0] == s[0] && (s + t)[1..] == s[1..] + t;
      OpensAppend(s[1..], t);
    }
  }

  lemma {:induction false} NothingOpens(s: string)
    requires forall i | 0 <= i < |s| :: s[i] != '{'
    ensures Opens(s) == 0
  {
    if s != "" {
      NothingOpens(s[1..]);
    }
  }

  lemma {:induction false} OccurrencesSkip(text: string, tail: string, key: string)
    requires forall i | 0 <= i < |text| :: text[i] != '{'
    ensures Occurrences(text + tail, key) == Occurrences(tail, key)
  {
    if text == "" {
      assert text + tail == tail;
    } else {
      assert (text + tail)[0] == text[0] && (text + tail)[1..] == text[1..] + tail;
      assert Placeholder(key)[0] == '{';
      OccurrencesSkip(text[1..], tail, key);
    }
  }

  lemma OccurrencesOfPlaceholder(other: string, tail: string, key: string)
    requires BraceFree(other) && BraceFree(key)
    ensures Occurrences(Placeholder(other) + tail, key) == (if other == key then 1 else 0) + Occurrences(tail, key)
    ensures Opens(Placeholder(other) + tail) == 1 + Opens(tail)
  {
    var s := Placeholder(other) + tail;
    var rest := other + ['}'];
    assert s[0] == '{' && s[1..] == rest + tail;
    OccurrencesSkip(rest, tail, key);
    OpensAppend(rest, tail);
    NothingOpens(rest);
    assert Placeholder(other) <= s;
    if Placeholder(key) <= s {
      PlaceholderUnique(s, other, key);
    }
  }

  /** Every replacement takes one opening brace away. */
  lemma {:induction false} ReplaceOpens(s: string, key: string, value: string)
    requires BraceFree(key) && BraceFree(value)
    ensures Opens(Replace(s, Placeholder(key), value)) + Occurrences(s, key) == Opens(s)
    decreases |s|
  {
    if s != "" {
      if Placeholder(key) <= s {
        var tail := s[|key| + 2..];
        PlaceholderFirst(s, key);
        ReplaceOpens(tail, key, value);
        OccurrencesOfPlaceholder(key, tail, key);
        OpensAppend(value, Replace(tail, Placeholder(key), value));
        NothingOpens(value);
      } else {
        ReplaceOpens(s[1..], key, value);
        assert ([s[0]] + Replace(s[1..], Placeholder(key), value))[1..] == Replace(s[1..], Placeholder(key), value);
      }
    }
  }

  lemma OtherSurvivesHere(s: string, key: string, value: string, other: string)
    requires BraceFree(key) && BraceFree(other) && key != other && s != "" && Placeholder(other) <= s
    ensures Placeholder(other) <= [s[0]] + Replace(s[1..], Placeholder(key), value)
  {
    var tail := s[|other| + 2..];
    PlaceholderFirst(s, other);
    var rest := other + ['}'];
    assert s[0] == '{' && s[1..] == rest + tail;
    ReplaceSkips(rest, tail, key, value);
    assert ['{'] + (rest + Replace(tail, Placeholder(key), value)) == Placeholder(other) + Replace(tail, Placeholder(key), value);
  }

  /** Replacing one key destroys no placeholder of another. */
  lemma {:induction false} OthersSurvive(s: string, key: string, value: string, other: string)
    requires BraceFree(key) && BraceFree(value) && BraceFree(other) && key != other
    ensures Occurrences(Replace(s, Placeholder(key), value), other) >= Occurrences(s, other)
    decreases |s|
  {
    if s != "" {
      if Placeholder(key) <= s {
        var tail := s[|key| + 2..];
        PlaceholderFirst(s, key);
        OthersSurvive(tail, key, value, other);
        OccurrencesOfPlaceholder(key, tail, other);
        OccurrencesSkip(value, Replace(tail, Placeholder(key), value), other);
      } else {
        OthersSurvive(s[1..], key, value, other);
        assert ([s[0]] + Replace(s[1..], Placeholder(key), value))[1..] == Replace(s[1..], Placeholder(key), value);
        if Placeholder(other) <= s {
          OtherSurvivesHere(s, key, value, other);
        }
      }
    }
  }

  /** Binding one more key takes away the opening braces of its placeholders in the template. */
  lemma {:induction false} SubstituteOpens(s: string, keys: set<string>, bindings: Bindings, key: string, value: string)
    requires BraceFreeKeys(keys) && BraceFreeValues(bindings) && BraceFree(value) && key in keys && key !in bindings
    ensures Opens(Substitute(s, keys, bindings[key := value])) + Occurrences(s, key) == Opens(Substitute(s, keys, bindings))
    decreases |s|
  {
    if s != "" {
      match PlaceholderAt(s, keys)
      case Some(k) =>
        var rest := s[|k| + 2..];
        var before, after := Substitute(rest, keys, bindings), Substitute(rest, keys, bindings[key := value]);
        SubstituteOpens(rest, keys, bindings, key, value);
        PlaceholderFirst(s, k);
        OccurrencesOfPlaceholder(k, rest, key);
        if k in bindings {
          NothingOpens(bindings[k]);
          OpensAppend(bindings[k], before);
          OpensAppend(bindings[k], after);
        } else {
          OccurrencesOfPlaceholder(k, before, key);
          OccurrencesOfPlaceholder(k, after, key);
          NothingOpens(value);
          OpensAppend(value, after);
        }
      case None =>
        SubstituteOpens(s[1..], keys, bindings, key, value);
        assert ([s[0]] + Substitute(s[1..], keys, bindings))[1..] == Substitute(s[1..], keys, bindings);
        assert ([s[0]] + Substitute(s[1..], keys, bindings[key := value]))[1..] == Substitute(s[1..], keys, bindings[key := value]);
    }
  }

  /** The substituted text reads every placeholder the template has and that has no value, and one
      more when something spurious is read. */
  lemma {:induction false} SubstituteOccurrences(s: string, keys: set<string>, bindings: Bindings, key: string)
    requires BraceFreeKeys(keys) && BraceFreeValues(bindings) && key in keys && key !in bindings
    ensures Occurrences(Substitute(s, keys, bindings), key) >= Occurrences(s, key)
    ensures Spurious(s, keys, bindings, key) ==> Occurrences(Substitute(s, keys, bindings), key) > Occurrences(s, key)
    decreases |s|
  {
    if s != "" {
      match PlaceholderAt(s, keys)
      case Some(k) =>
        var rest := s[|k| + 2..];
        SubstituteOccurrences(rest, keys, bindings, key);
        PlaceholderFirst(s, k);
        OccurrencesOfPlaceholder(k, rest, key);
        if k in bindings {
          OccurrencesSkip(bindings[k], Substitute(rest, keys, bindings), key);
        } else {
          OccurrencesOfPlaceholder(k, Substitute(rest, keys, bindings), key);
        }
      case None =>
        var tail := Substitute(s[1..], keys, bindings);
        SubstituteOccurrences(s[1..], keys, bindings, key);
        assert ([s[0]] + tail)[1..] == tail;
        if s[0] == '{' {
          SpellsIsPlaceholder(s[1..], keys, bindings, key);
          PlaceholderBehindBrace(key, tail);
        }
    }
  }

  // ----- for given values

  /** Nothing spurious is read while the first n keys are replaced. */
  ghost predicate Faithful(template: string, ctx: Context, n: nat)
    requires n <= |ctx|
  {
    forall j | 0 <= j < n :: !Spurious(template, Keys(ctx), BindingsOf(ctx[..j]), ctx[j].key)
  }

  /** After n keys the rendered text is the substituted one, or has lost more braces than it. */
  ghost predicate OnTrack(template: string, ctx: Context, n: nat)
    requires n <= |ctx|
  {
    var rendered, substituted := RenderWith(template, ctx[..n]), Substitute(template, Keys(ctx), BindingsOf(ctx[..n]));
    && (if Faithful(template, ctx, n) then rendered == substituted else Opens(rendered) < Opens(substituted))
    && (forall m | n <= m < |ctx| :: Occurrences(rendered, ctx[m].key) >= Occurrences(template, ctx[m].key))
  }

  lemma RenderNext(template: string, ctx: Context, n: nat)
    requires n < |ctx| && DistinctEntries(ctx)
    ensures RenderWith(template, ctx[..n + 1]) == Replace(RenderWith(template, ctx[..n]), Placeholder(ctx[n].key), ctx[n].value)
    ensures BindingsOf(ctx[..n + 1]) == BindingsOf(ctx[..n])[ctx[n].key := ctx[n].value]
    ensures ctx[n].key in Keys(ctx) && ctx[n].key !in BindingsOf(ctx[..n])
  {
    assert ctx[..n + 1][..n] == ctx[..n];
    BindingsContents(ctx[..n]);
    assert ctx[n] in ctx;
  }

  lemma PrefixIsBraceFree(ctx: Context, n: nat)
    requires BraceFreeContext(ctx) && n <= |ctx|
    ensures BraceFreeValues(BindingsOf(ctx[..n])) && BraceFreeKeys(Keys(ctx))
  {
    BindingsContents(ctx[..n]);
  }

  lemma FaithfulStep(template: string, ctx: Context, n: nat)
    requires n < |ctx|
    ensures Faithful(template, ctx, n + 1) <==>
            Faithful(template, ctx, n) && !Spurious(template, Keys(ctx), BindingsOf(ctx[..n]), ctx[n].key)
  {
  }

  lemma LosesBraces(template: string, ctx: Context, n: nat)
    requires n < |ctx| && DistinctEntries(ctx) && BraceFreeContext(ctx) && OnTrack(template, ctx, n)
    requires !Faithful(template, ctx, n + 1)
    ensures Opens(RenderWith(template, ctx[..n + 1])) < Opens(Substitute(template, Keys(ctx), BindingsOf(ctx[..n + 1])))
  {
    var keys, bindings, e := Keys(ctx), BindingsOf(ctx[..n]), ctx[n];
    assert e in ctx;
    RenderNext(template, ctx, n);
    PrefixIsBraceFree(ctx, n);
    FaithfulStep(template, ctx, n);
    ReplaceOpens(RenderWith(template, ctx[..n]), e.key, e.value);
    SubstituteOpens(template, keys, bindings, e.key, e.value);
    SubstituteOccurrences(template, keys, bindings, e.key);
  }

  lemma StaysFaithful(template: string, ctx: Context, n: nat)
    requires n < |ctx| && DistinctEntries(ctx) && BraceFreeContext(ctx) && OnTrack(template, ctx, n)
    requires Faithful(template, ctx, n + 1)
    ensures RenderWith(template, ctx[..n + 1]) == Substitute(template, Keys(ctx), BindingsOf(ctx[..n + 1]))
  {
    RenderNext(template, ctx, n);
    PrefixIsBraceFree(ctx, n);
    FaithfulStep(template, ctx, n);
    ReplaceWithoutSpurious(template, Keys(ctx), BindingsOf(ctx[..n]), ctx[n].key, ctx[n].value);
  }

  lemma LaterKeysSurvive(template: string, ctx: Context, n: nat, m: nat)
    requires n < m < |ctx| && DistinctEntries(ctx) && BraceFreeContext(ctx) && OnTrack(template, ctx, n)
    ensures Occurrences(RenderWith(template, ctx[..n + 1]), ctx[m].key) >= Occurrences(template, ctx[m].key)
  {
    assert ctx[n] in ctx && ctx[m] in ctx;
    RenderNext(template, ctx, n);
    OthersSurvive(RenderWith(template, ctx[..n]), ctx[n].key, ctx[n].value, ctx[m].key);
  }

  lemma {:induction false} RenderingIsOnTrack(template: string, ctx: Context, n: nat)
    requires n <= |ctx| && DistinctEntries(ctx) && BraceFreeContext(ctx)
    ensures OnTrack(template, ctx, n)
  {
    if n == 0 {
      SubstituteNothing(template, Keys(ctx));
    } else {
      RenderingIsOnTrack(template, ctx, n - 1);
      if Faithful(template, ctx, n) {
        StaysFaithful(template, ctx, n - 1);
      } else {
        LosesBraces(template, ctx, n - 1);
      }
      forall m | n <= m < |ctx|
        ensures Occurrences(RenderWith(template, ctx[..n]), ctx[m].key) >= Occurrences(template, ctx[m].key)
      {
        LaterKeysSurvive(template, ctx, n - 1, m);
      }
    }
  }

  /** For brace-free values, rendering one key at a time is simultaneous substitution if and only if
      no literal `{` stands before a gap that the values of earlier keys make read a later key. */
  lemma RenderIsExact(template: string, ctx: Context)
    requires DistinctEntries(ctx) && BraceFreeContext(ctx)
    ensures RenderWith(template, ctx) == Substitute(template, Keys(ctx), BindingsOf(ctx)) <==> Faithful(template, ctx, |ctx|)
  {
    RenderingIsOnTrack(template, ctx, |ctx|);
    assert ctx[..|ctx|] == ctx;
  }

  // ----- for all values

  /** Whether some values let the gap read `key`: a hole takes any text, the same one each time. */
  predicate Match(gap: seq<Piece>, key: string, bindings: Bindings)
    decreases |gap|
  {
    if gap == [] then key == ""
    else
      match gap[0]
      case Text(c) => [c] <= key && Match(gap[1..], key[1..], bindings)
      case Hole(k) =>
        if k in bindings then bindings[k] <= key && Match(gap[1..], key[|bindings[k]|..], bindings)
        else exists n | 0 <= n <= |key| :: Match(gap[1..], key[n..], bindings[k := key[..n]])
  }

  ghost predicate Extends(more: Bindings, less: Bindings) {
    less.Keys <= more.Keys && forall k | k in less :: more[k] == less[k]
  }

  lemma HolesOf(gap: seq<Piece>)
    requires gap != []
    ensures Holes(gap) == Holes(gap[1..]) + if gap[0].Hole? then {gap[0].key} else {}
  {
    assert gap == [gap[0]] + gap[1..];
  }

  /** Values for all holes of the gap, beyond those given, that make it read `key`. */
  ghost predicate Solves(full: Bindings, bindings: Bindings, gap: seq<Piece>, key: string) {
    && Extends(full, bindings) && full.Keys == bindings.Keys + Holes(gap)
    && Spell(gap, full) == Some(key) && BraceFreeValues(full)
  }

  lemma SolvesText(full: Bindings, bindings: Bindings, gap: seq<Piece>, key: string)
    requires gap != [] && gap[0].Text? && [gap[0].c] <= key && Solves(full, bindings, gap[1..], key[1..])
    ensures Solves(full, bindings, gap, key)
  {
    HolesOf(gap);
    assert key == [gap[0].c] + key[1..];
  }

  lemma SolvesHole(full: Bindings, bindings: Bindings, gap: seq<Piece>, key: string)
    requires gap != [] && gap[0].Hole? && gap[0].key in bindings && bindings[gap[0].key] <= key
    requires Solves(full, bindings, gap[1..], key[|bindings[gap[0].key]|..])
    ensures Solves(full, bindings, gap, key)
  {
    var value := bindings[gap[0].key];
    HolesOf(gap);
    assert key == value + key[|value|..];
  }

  lemma SolvesNewHole(full: Bindings, bindings: Bindings, gap: seq<Piece>, key: string, n: nat)
    requires gap != [] && gap[0].Hole? && gap[0].key !in bindings && n <= |key|
    requires Solves(full, bindings[gap[0].key := key[..n]], gap, key)
    ensures Solves(full, bindings, gap, key)
  {
    HolesOf(gap);
  }

  /** Matching finds the values. */
  lemma {:induction false} MatchSpells(gap: seq<Piece>, key: string, bindings: Bindings) returns (full: Bindings)
    requires Match(gap, key, bindings) && BraceFree(key) && BraceFreeValues(bindings)
    ensures Solves(full, bindings, gap, key)
    decreases |gap|
  {
    if gap == [] {
      full := bindings;
    } else {
      match gap[0]
      case Text(c) =>
        BraceFreeSuffix(key, 1);
        full := MatchSpells(gap[1..], key[1..], bindings);
        SolvesText(full, bindings, gap, key);
      case Hole(k) =>
        if k in bindings {
          BraceFreeSuffix(key, |bindings[k]|);
          full := MatchSpells(gap[1..], key[|bindings[k]|..], bindings);
          SolvesHole(full, bindings, gap, key);
        } else {
          var n :| 0 <= n <= |key| && Match(gap[1..], key[n..], bindings[k := key[..n]]);
          BraceFreeSuffix(key, n);
          full := MatchSpells(gap[1..], key[n..], bindings[k := key[..n]]);
          SolvesHole(full, bindings[k := key[..n]], gap, key);
          SolvesNewHole(full, bindings, gap, key, n);
        }
    }
  }

  /** Any values are found by matching. */
  lemma {:induction false} SpellsMatch(gap: seq<Piece>, key: string, bindings: Bindings, full: Bindings)
    requires Extends(full, bindings) && Spell(gap, full) == Some(key)
    ensures Match(gap, key, bindings) && Holes(gap) <= full.Keys
    decreases |gap|
  {
    if gap != [] {
      HolesOf(gap);
      var tail := Spell(gap[1..], full).value;
      match gap[0]
      case Text(c) =>
        assert key[1..] == tail;
        SpellsMatch(gap[1..], tail, bindings, full);
      case Hole(k) =>
        var n := |full[k]|;
        assert key[..n] == full[k] && key[n..] == tail;
        if k in bindings {
          SpellsMatch(gap[1..], tail, bindings, full);
        } else {
          SpellsMatch(gap[1..], tail, bindings[k := key[..n]], full);
        }
    }
  }

  function KeysIn(order: seq<string>): set<string> {
    set k | k in order
  }

  /** The gap holds only placeholders of keys replaced before the m-th and can read the m-th. */
  predicate CanRead(gap: seq<Piece>, order: seq<string>, m: nat)
    requires m < |order|
  {
    Holes(gap) <= KeysIn(order[..m]) && Match(gap, order[m], map[])
  }

  /** Some literal `{` of the template is followed by a gap that can read a later key than all of its
      placeholders. */
  ghost predicate Misleads(s: string, order: seq<string>)
    decreases |s|
  {
    s != "" &&
    match PlaceholderAt(s, KeysIn(order))
    case Some(k) => Misleads(s[|k| + 2..], order)
    case None =>
      || Misleads(s[1..], order)
      || (s[0] == '{' && Gap(s[1..], KeysIn(order)).Some? &&
          exists m :: 0 <= m < |order| && CanRead(Gap(s[1..], KeysIn(order)).value, order, m))
  }

  lemma {:induction false} PlainGapIsText(rest: string, keys: set<string>, key: string)
    requires Gap(rest, keys).Some? && Holes(Gap(rest, keys).value) == {} && Match(Gap(rest, keys).value, key, map[])
    ensures key + ['}'] <= rest
    decreases |rest|
  {
    var gap := Gap(rest, keys).value;
    if gap == [] {
      assert rest == ['}'] + rest[1..] && key + ['}'] == ['}'];
    } else {
      HolesOf(gap);
      assert gap[0].Text? && gap[1..] == Gap(rest[1..], keys).value;
      PlainGapIsText(rest[1..], keys, key[1..]);
      assert key == [rest[0]] + key[1..] && rest == [rest[0]] + rest[1..];
    }
  }

  /** Such a gap holds at least one placeholder: otherwise the brace would begin a known one. */
  lemma MisleadingGapHasHole(s: string, order: seq<string>, m: nat)
    requires s != "" && s[0] == '{' && PlaceholderAt(s, KeysIn(order)).None? && Gap(s[1..], KeysIn(order)).Some?
    requires m < |order| && CanRead(Gap(s[1..], KeysIn(order)).value, order, m)
    ensures Holes(Gap(s[1..], KeysIn(order)).value) != {}
  {
    assert s == ['{'] + s[1..] && order[m] in KeysIn(order);
    PlaceholderBehindBrace(order[m], s[1..]);
    if Holes(Gap(s[1..], KeysIn(order)).value) == {} {
      PlainGapIsText(s[1..], KeysIn(order), order[m]);
    }
  }

  lemma {:induction false} SpuriousMisleads(s: string, order: seq<string>, m: nat, bindings: Bindings)
    requires m < |order| && bindings.Keys == KeysIn(order[..m]) && Spurious(s, KeysIn(order), bindings, order[m])
    ensures Misleads(s, order)
    decreases |s|
  {
    match PlaceholderAt(s, KeysIn(order))
    case Some(k) => SpuriousMisleads(s[|k| + 2..], order, m, bindings);
    case None =>
      if s[0] == '{' && Spells(s[1..], KeysIn(order), bindings, order[m]) {
        SpellsMatch(Gap(s[1..], KeysIn(order)).value, order[m], map[], bindings);
        assert CanRead(Gap(s[1..], KeysIn(order)).value, order, m);
      } else {
        SpuriousMisleads(s[1..], order, m, bindings);
      }
  }

  lemma {:induction false} SpellExtends(gap: seq<Piece>, less: Bindings, more: Bindings)
    requires Extends(more, less) && Spell(gap, less).Some?
    ensures Spell(gap, more) == Spell(gap, less)
  {
    if gap != [] {
      SpellExtends(gap[1..], less, more);
    }
  }

  /** A misleading template has values that mislead it. */
  lemma {:induction false} MisleadingValues(s: string, order: seq<string>) returns (m: nat, values: Bindings)
    requires Misleads(s, order) && BraceFreeKeys(KeysIn(order))
    ensures m < |order| && values.Keys <= KeysIn(order[..m]) && BraceFreeValues(values)
    ensures forall more | Extends(more, values) :: Spurious(s, KeysIn(order), more, order[m])
    decreases |s|
  {
    match PlaceholderAt(s, KeysIn(order))
    case Some(k) => m, values := MisleadingValues(s[|k| + 2..], order);
    case None =>
      if Misleads(s[1..], order) {
        m, values := MisleadingValues(s[1..], order);
      } else {
        var gap := Gap(s[1..], KeysIn(order)).value;
        m :| 0 <= m < |order| && CanRead(gap, order, m);
        assert order[m] in KeysIn(order);
        values := MatchSpells(gap, order[m], map[]);
        forall more | Extends(more, values) ensures Spells(s[1..], KeysIn(order), more, order[m]) {
          SpellExtends(gap, values, more);
        }
      }
  }

  function Zip(order: seq<string>, values: seq<string>): Context
    requires |order| == |values|
  {
    seq(|order|, i requires 0 <= i < |order| => Entry(order[i], values[i]))
  }

  ghost predicate DistinctKeys(order: seq<string>) {
    forall i, j | 0 <= i < j < |order| :: order[i] != order[j]
  }

  ghost predicate BraceFreeTexts(texts: seq<string>) {
    forall i | 0 <= i < |texts| :: BraceFree(texts[i])
  }

  lemma ZipNext(order: seq<string>, values: seq<string>, n: nat)
    requires |order| == |values| && n < |order|
    ensures BindingsOf(Zip(order, values)[..n + 1]) == BindingsOf(Zip(order, values)[..n])[order[n] := values[n]]
    ensures KeysIn(order[..n + 1]) == KeysIn(order[..n]) + {order[n]}
  {
    var ctx := Zip(order, values);
    assert ctx[..n + 1][..n] == ctx[..n];
    assert order[..n + 1] == order[..n] + [order[n]];
  }

  lemma {:induction false} ZipKeys(order: seq<string>, values: seq<string>, n: nat)
    requires |order| == |values| && n <= |order|
    ensures BindingsOf(Zip(order, values)[..n]).Keys == KeysIn(order[..n])
  {
    if n > 0 {
      ZipKeys(order, values, n - 1);
      ZipNext(order, values, n - 1);
    }
  }

  lemma ZipBindings(order: seq<string>, values: seq<string>, n: nat)
    requires |order| == |values| && n <= |order| && DistinctKeys(order)
    ensures var bindings := BindingsOf(Zip(order, values)[..n]);
            bindings.Keys == KeysIn(order[..n]) && forall i | 0 <= i < n :: order[i] in bindings && bindings[order[i]] == values[i]
  {
    var ctx := Zip(order, values)[..n];
    ZipKeys(order, values, n);
    forall i | 0 <= i < n ensures order[i] in BindingsOf(ctx) && BindingsOf(ctx)[order[i]] == values[i] {
      assert ctx[i] == Entry(order[i], values[i]);
      BindingsLookup(ctx, ctx[i]);
    }
  }

  lemma ZipIsContext(order: seq<string>, values: seq<string>)
    requires |order| == |values| && DistinctKeys(order) && BraceFreeTexts(order) && BraceFreeTexts(values)
    ensures var ctx := Zip(order, values);
            DistinctEntries(ctx) && BraceFreeContext(ctx) && Keys(ctx) == KeysIn(order)
  {
    var ctx := Zip(order, values);
    assert forall i | 0 <= i < |order| :: ctx[i].key == order[i];
    forall k ensures k in Keys(ctx) <==> k in KeysIn(order) {
      if k in KeysIn(order) {
        var i :| 0 <= i < |order| && order[i] == k;
        assert ctx[i] in ctx;
      }
    }
  }

  /** The template renders by substitution with these values. */
  ghost predicate RendersBySubstitution(template: string, order: seq<string>, values: seq<string>)
    requires |order| == |values|
  {
    RenderWith(template, Zip(order, values)) == Substitute(template, KeysIn(order), BindingsOf(Zip(order, values)))
  }

  lemma HarmlessTemplate(template: string, order: seq<string>, values: seq<string>)
    requires |order| == |values| && DistinctKeys(order) && BraceFreeTexts(order) && BraceFreeTexts(values)
    requires !Misleads(template, order)
    ensures RendersBySubstitution(template, order, values)
  {
    var ctx := Zip(order, values);
    ZipIsContext(order, values);
    forall j | 0 <= j < |ctx| ensures !Spurious(template, Keys(ctx), BindingsOf(ctx[..j]), ctx[j].key) {
      ZipBindings(order, values, j);
      if Spurious(template, KeysIn(order), BindingsOf(ctx[..j]), order[j]) {
        SpuriousMisleads(template, order, j, BindingsOf(ctx[..j]));
      }
    }
    RenderIsExact(template, ctx);
  }

  lemma MisleadingTemplate(template: string, order: seq<string>) returns (values: seq<string>)
    requires DistinctKeys(order) && BraceFreeTexts(order) && Misleads(template, order)
    ensures |values| == |order| && BraceFreeTexts(values) && !RendersBySubstitution(template, order, values)
  {
    var m, chosen := MisleadingValues(template, order);
    values := seq(|order|, i requires 0 <= i < |order| => if order[i] in chosen then chosen[order[i]] else "");
    var ctx := Zip(order, values);
    ZipIsContext(order, values);
    ZipBindings(order, values, m);
    assert Extends(BindingsOf(ctx[..m]), chosen) by {
      forall k | k in chosen ensures k in BindingsOf(ctx[..m]) && BindingsOf(ctx[..m])[k] == chosen[k] {
        var i :| 0 <= i < m && order[..m][i] == k;
        assert values[i] == chosen[k];
      }
    }
    assert Spurious(template, Keys(ctx), BindingsOf(ctx[..m]), ctx[m].key);
    RenderIsExact(template, ctx);
  }

  /** A template is rendered by substitution for all brace-free values if and only if no literal `{`
      of it stands before a gap that can read a later key than all of its placeholders. */
  lemma TemplatesAreExact(template: string, order: seq<string>)
    requires DistinctKeys(order) && BraceFreeTexts(order)
    ensures (forall values: seq<string> | |values| == |order| && BraceFreeTexts(values) :: RendersBySubstitution(template, order, values))
            <==> !Misleads(template, order)
  {
    if Misleads(template, order) {
      var values := MisleadingTemplate(template, order);
      assert !RendersBySubstitution(template, order, values);
    } else {
      forall values: seq<string> | |values| == |order| && BraceFreeTexts(values) ensures RendersBySubstitution(template, order, values) {
        HarmlessTemplate(template, order, values);
      }
    }
  }
}
