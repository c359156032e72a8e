/** The renderer on the shapes of template its test table lists, for every key and
    context of that shape, and on the two shapes of template where the renderer as
    written departs from in-place substitution. */
module TemplateExamples {
  import opened TextUtil
  import opened Template

  /** `{{k}}`. */
  function Braced(k: string): string
  {
    "{{" + k + "}}"
  }

  /** No `}` and no line terminator: text that can stand between `{{` and `}}`. */
  predicate Plain(k: string)
  {
    forall i :: 0 <= i < |k| ==> k[i] != '}' && !IsLineTerminator(k[i])
  }

  /** A key as people write them (`defined`, `subject`): no brace, no line break, and
      no whitespace at either end. */
  predicate PlainKey(k: string)
  {
    && Plain(k) && k != []
    && (forall i :: 0 <= i < |k| ==> k[i] != '{')
    && !IsJsWhitespace(k[0]) && !IsJsWhitespace(k[|k| - 1])
  }

  lemma PlainPlaceholder(k: string)
    requires Plain(k)
    ensures IsPlaceholder(Braced(k)) && Braced(k)[2..|k| + 2] == k
  {
    var m := Braced(k);
    forall i | 2 <= i < |m| - 2
      ensures !IsLineTerminator(m[i]) && !ClosesAt(m, i)
    {
      assert m[i] == k[i - 2];
    }
    assert m[2..|k| + 2] == k;
  }

  lemma BracedKey(k: string)
    requires PlainKey(k)
    ensures IsPlaceholder(Braced(k)) && Key(Braced(k)) == k
  {
    PlainPlaceholder(k);
    TrimKeeps(k);
  }

  /** Past its first `{`, `{{k}}` holds no `{{` and does not end in `{`. */
  lemma BracedInside(k: string)
    requires PlainKey(k)
    ensures NoStrayOpen(Braced(k)[1..])
  {
    var t := Braced(k)[1..];
    forall i: nat | i < |t|
      ensures !OpensAt(t, i)
    {
      if 1 <= i <= |k| {
        assert t[i] == k[i - 1];
      } else if i == 0 {
        assert t[1] == k[0];
      }
    }
  }

  /** `{{ k }}`: the key is trimmed. */
  lemma SpacedKey(k: string)
    requires PlainKey(k)
    ensures IsPlaceholder(Braced(" " + k + " ")) && Key(Braced(" " + k + " ")) == k
  {
    var t := " " + k + " ";
    forall i | 0 <= i < |t|
      ensures t[i] != '}' && !IsLineTerminator(t[i])
    {
      if 1 <= i <= |k| {
        assert t[i] == k[i - 1];
      }
    }
    PlainPlaceholder(t);
    assert WhitespaceEnd(t, 1) == 1;
    assert WhitespaceEnd(t, 0) == 1;
    assert WhitespaceStart(t, |t| - 1) == |t| - 1;
    assert WhitespaceStart(t, |t|) == |t| - 1;
    assert t[1..|t| - 1] == k;
  }

  /** `{{}}` and `{{ }}` both stand for the empty key. */
  lemma EmptyKeys()
    ensures IsPlaceholder(Braced("")) && Key(Braced("")) == ""
    ensures IsPlaceholder(Braced(" ")) && Key(Braced(" ")) == ""
  {
    PlainPlaceholder("");
    PlainPlaceholder(" ");
    assert AllWhitespace(" ");
  }

  /** `{{{{k}}`: the first match of `{{{{k}}}}`. */
  lemma OpenBraced(k: string)
    requires PlainKey(k)
    ensures IsPlaceholder("{{" + Braced(k)) && "{{" + Braced(k) == Braced("{{" + k)
  {
    var k2 := "{{" + k;
    forall i | 0 <= i < |k2|
      ensures k2[i] != '}' && !IsLineTerminator(k2[i])
    {
      if i >= 2 {
        assert k2[i] == k[i - 2];
      }
    }
    PlainPlaceholder(k2);
  }

  /** The key of `{{{{k}}` is `{{k`. */
  lemma OpenBracedKey(k: string)
    requires PlainKey(k)
    ensures Key("{{" + Braced(k)) == "{{" + k
  {
    OpenBraced(k);
    PlainPlaceholder("{{" + k);
    TrimKeeps("{{" + k);
  }

  // ---------------------------------------------------------------------------
  // The test table of the renderer

  /** `""` renders as `""`. */
  lemma RenderEmptyTemplate(ctx: Context)
    ensures Render("", ctx) == ""
  {
    RenderWithoutPlaceholders("", ctx);
  }

  /** `{{}}` and `{{ }}` are left as they are when no value has the empty key. */
  lemma RenderEmptyKey(ctx: Context)
    requires "" !in ctx
    ensures Render(Braced(""), ctx) == Braced("") && Render(Braced(" "), ctx) == Braced(" ")
  {
    EmptyKeys();
    RenderSingle(Braced(""), ctx);
    RenderSingle(Braced(" "), ctx);
  }

  /** `{{defined}}` and `{{ defined }}` render as the value of `defined`;
      `{{undefined}}` is left as it is. */
  lemma RenderOnePlaceholder(k: string, ctx: Context)
    requires PlainKey(k)
    ensures Render(Braced(k), ctx) == if k in ctx then ctx[k] else Braced(k)
    ensures k in ctx ==> Render(Braced(" " + k + " "), ctx) == ctx[k]
  {
    BracedKey(k);
    RenderSingle(Braced(k), ctx);
    SpacedKey(k);
    RenderSingle(Braced(" " + k + " "), ctx);
  }

  /** `{{{{defined}}}}` is left as it is: the lazy match stops at the first `}}`, and
      its key `{{defined` is unknown. */
  lemma RenderNestedBraces(k: string, ctx: Context)
    requires PlainKey(k) && "{{" + k !in ctx
    ensures Render("{{" + Braced(k) + "}}", ctx) == "{{" + Braced(k) + "}}"
  {
    var m := "{{" + Braced(k);
    assert Matches(m + "}}") == [m] by {
      OpenBraced(k);
      assert NoStrayOpen("}}");
      ParseWithTail(m, "}}");
    }
    assert Key(m) !in ctx by {
      OpenBracedKey(k);
    }
    RenderUnknownKeys(m + "}}", ctx);
  }

  /** `{{defined}}: {{undefined}}`, `{{defined}}: {{defined}}` and
      `{{defined}}\n{{defined}}` fill each placeholder in place, given values without
      `{{` (such as `123`). */
  lemma RenderTwoPlaceholders(j: string, mid: string, k: string, ctx: Context)
    requires PlainKey(j) && PlainKey(k) && NoStrayOpen(mid) && OrdinaryValues(ctx)
    ensures Render(Braced(j) + mid + Braced(k), ctx)
            == (if j in ctx then ctx[j] else Braced(j)) + (mid + if k in ctx then ctx[k] else Braced(k))
  {
    BracedKey(j);
    BracedKey(k);
    BracedInside(j);
    BracedInside(k);
    RenderPair(Braced(j) + mid + Braced(k), Braced(j), mid, Braced(k), ctx);
  }

  // ---------------------------------------------------------------------------
  // Where `replace` hits the wrong occurrence

  /** `{{{{k}}}} {{k}}`: an unknown match whose text holds the known placeholder
      `{{k}}`, and then that placeholder. */
  function NestedTemplate(k: string): string
  {
    "{{" + Braced(k) + "}} " + Braced(k)
  }

  /** Both renderers on `{{{{k}}}} {{k}}`, as turns of the loop and as filled slots. */
  lemma NestedSteps(k: string, ctx: Context)
    requires PlainKey(k)
    ensures Render(NestedTemplate(k), ctx)
            == Step(Step(NestedTemplate(k), "{{" + Braced(k), ctx), Braced(k), ctx)
    ensures RenderIntended(NestedTemplate(k), ctx)
            == Fill("{{" + Braced(k), ctx) + ("}} " + Fill(Braced(k), ctx))
  {
    PlainPlaceholder(k);
    OpenBraced(k);
    assert NoStrayOpen("}} ");
    RenderTwoSteps(NestedTemplate(k), "{{" + Braced(k), "}} ", Braced(k), ctx);
  }

  /** The first occurrence of `{{k}}` in `{{{{k}}}} {{k}}` is inside the first match. */
  lemma NestedOccurrence(k: string)
    requires PlainKey(k)
    ensures OccursAt(NestedTemplate(k), Braced(k), 2)
    ensures forall q: nat :: q < 2 ==> !OccursAt(NestedTemplate(k), Braced(k), q)
    ensures NestedTemplate(k)[..2] == "{{"
    ensures NestedTemplate(k)[2 + |Braced(k)|..] == "}} " + Braced(k)
  {
    var s, m := NestedTemplate(k), Braced(k);
    assert s == "{{" + m + ("}} " + m);
    assert s[2..2 + |m|] == m;
    assert s[0..|m|][2] == '{' != m[2];
    assert s[1..1 + |m|][2] == '{' != m[2];
  }

  lemma NestedSecondStep(k: string, ctx: Context)
    requires PlainKey(k) && k in ctx
    ensures Step(NestedTemplate(k), Braced(k), ctx) == "{{" + ctx[k] + "}} " + Braced(k)
  {
    BracedKey(k);
    NestedOccurrence(k);
  }

  /** As written, the value of `k` lands inside the unknown match, and the template's
      own `{{k}}` stays. */
  lemma NestedAsWritten(k: string, ctx: Context)
    requires PlainKey(k) && k in ctx && "{{" + k !in ctx
    ensures Render(NestedTemplate(k), ctx) == "{{" + ctx[k] + "}} " + Braced(k)
  {
    NestedSteps(k, ctx);
    OpenBracedKey(k);
    NestedSecondStep(k, ctx);
  }

  /** Filled in place, the unknown match stays as it is and `{{k}}` gets its value. */
  lemma NestedIntended(k: string, ctx: Context)
    requires PlainKey(k) && k in ctx && "{{" + k !in ctx
    ensures RenderIntended(NestedTemplate(k), ctx) == "{{" + Braced(k) + ("}} " + ctx[k])
  {
    NestedSteps(k, ctx);
    OpenBracedKey(k);
    BracedKey(k);
  }

  /** The two renderers differ on `{{{{k}}}} {{k}}` whenever the value of `k` does not
      start with `{`: with `k = defined` and the value `123`, the renderer as written
      returns `{{123}} {{defined}}` where `{{{{defined}}}} 123` is intended. */
  lemma NestedDisagrees(k: string, ctx: Context)
    requires PlainKey(k) && k in ctx && "{{" + k !in ctx
    requires ctx[k] != [] && ctx[k][0] != '{'
    ensures Render(NestedTemplate(k), ctx) != RenderIntended(NestedTemplate(k), ctx)
  {
    NestedAsWritten(k, ctx);
    NestedIntended(k, ctx);
    var r, t := Render(NestedTemplate(k), ctx), RenderIntended(NestedTemplate(k), ctx);
    assert r[2] == ctx[k][0] && t[2] == '{';
  }

  /** `{{a}}`, literal text, `{{b}}`. */
  function PairTemplate(a: string, mid: string, b: string): string
  {
    Braced(a) + mid + Braced(b)
  }

  lemma PairSteps(a: string, mid: string, b: string, ctx: Context)
    requires PlainKey(a) && PlainKey(b) && NoStrayOpen(mid)
    ensures Render(PairTemplate(a, mid, b), ctx)
            == Step(Step(PairTemplate(a, mid, b), Braced(a), ctx), Braced(b), ctx)
    ensures RenderIntended(PairTemplate(a, mid, b), ctx)
            == Fill(Braced(a), ctx) + (mid + Fill(Braced(b), ctx))
  {
    BracedKey(a);
    BracedKey(b);
    RenderTwoSteps(PairTemplate(a, mid, b), Braced(a), mid, Braced(b), ctx);
  }

  /** The first turn puts the value of `a`, and with it the text `{{b}}`, in front. */
  lemma RescannedFirstStep(a: string, mid: string, b: string, x: string, ctx: Context)
    requires PlainKey(a) && a in ctx && ctx[a] == x + Braced(b)
    ensures Step(PairTemplate(a, mid, b), Braced(a), ctx) == x + Braced(b) + (mid + Braced(b))
  {
    var y := mid + Braced(b);
    BracedKey(a);
    assert Fill(Braced(a), ctx) == ctx[a];
    OneTurn("", Braced(a), y, ctx);
    Assoc3(Braced(a), mid, Braced(b));
    Bare(Braced(a));
    Bare(ctx[a]);
  }

  /** The second turn replaces that copy of `{{b}}`, not the template's own. */
  lemma RescannedSecondStep(b: string, mid: string, x: string, ctx: Context)
    requires PlainKey(b) && NoStrayOpen(x) && b in ctx
    ensures Step(x + Braced(b) + (mid + Braced(b)), Braced(b), ctx) == x + ctx[b] + (mid + Braced(b))
  {
    BracedKey(b);
    StrayFreeNoEarly(x, Braced(b));
    OneTurn(x, Braced(b), mid + Braced(b), ctx);
  }

  /** As written, a value of `a` that ends with the text `{{b}}` gets the value of `b`,
      and the template's own `{{b}}` stays. */
  lemma RescannedAsWritten(a: string, mid: string, b: string, x: string, ctx: Context)
    requires PlainKey(a) && PlainKey(b) && NoStrayOpen(mid) && NoStrayOpen(x)
    requires a in ctx && ctx[a] == x + Braced(b) && b in ctx
    ensures Render(PairTemplate(a, mid, b), ctx) == x + ctx[b] + (mid + Braced(b))
  {
    PairSteps(a, mid, b, ctx);
    RescannedFirstStep(a, mid, b, x, ctx);
    RescannedSecondStep(b, mid, x, ctx);
  }

  /** Filled in place, the value of `a` is kept as it is. */
  lemma RescannedIntended(a: string, mid: string, b: string, x: string, ctx: Context)
    requires PlainKey(a) && PlainKey(b) && NoStrayOpen(mid) && NoStrayOpen(x)
    requires a in ctx && ctx[a] == x + Braced(b) && b in ctx
    ensures RenderIntended(PairTemplate(a, mid, b), ctx) == x + Braced(b) + (mid + ctx[b])
  {
    PairSteps(a, mid, b, ctx);
    BracedKey(a);
    BracedKey(b);
  }

  /** The two renderers differ whenever the value of `b` does not start with `{`: with
      the template `{{subject}} from {{author}}`, the subject `About {{author}}` and the
      author `Alice`, the renderer as written returns `About Alice from {{author}}` where
      `About {{author}} from Alice` is intended. */
  lemma RescannedDisagrees(a: string, mid: string, b: string, x: string, ctx: Context)
    requires PlainKey(a) && PlainKey(b) && NoStrayOpen(mid) && NoStrayOpen(x)
    requires a in ctx && ctx[a] == x + Braced(b) && b in ctx
    requires ctx[b] != [] && ctx[b][0] != '{'
    ensures Render(PairTemplate(a, mid, b), ctx) != RenderIntended(PairTemplate(a, mid, b), ctx)
  {
    RescannedAsWritten(a, mid, b, x, ctx);
    RescannedIntended(a, mid, b, x, ctx);
    var r := Render(PairTemplate(a, mid, b), ctx);
    var t := RenderIntended(PairTemplate(a, mid, b), ctx);
    assert r[|x|] == ctx[b][0] && t[|x|] == '{';
  }
}
